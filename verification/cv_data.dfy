/**
 The CV records the client receives from the edge function and shows
 (`ExtractedData`, `GeneratedContent` in
 src/components/resume-builder/live-preview-pane.tsx).
 */
module CvData {
  import opened Base

  datatype Referee = Referee(name: string, title: string, phone: string)

  /** The applicant's details; community work and referees may be absent. */
  datatype ExtractedData = ExtractedData(
    name: string,
    province: string,
    phone: string,
    email: string,
    education: string,
    experience: string,
    skills: seq<string>,
    summary: string,
    communityLeadership: Option<string>,
    referees: Option<seq<Referee>>)

  /** The generated documents; the score may be absent. */
  datatype GeneratedContent = GeneratedContent(resume: string, coverLetter: string, atsScore: Option<int>)
}
