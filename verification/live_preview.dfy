/**
 The preview pane (src/components/resume-builder/live-preview-pane.tsx):
 the ATS score badge, the fallbacks shown for missing data, and the
 cover-letter edit flow.
 */
module LivePreview {
  import opened Base
  import opened CvData

  // ------------------------------------------------------------ score badge

  /** The three score bands. */
  datatype Band = Excellent | Good | NeedsWork

  /** The band of a score: 90 and above, 70 to 89, below 70. */
  function BandOf(score: int): (b: Band)
    ensures b == Excellent <==> score >= 90
    ensures b == NeedsWork <==> score < 70
  {
    if score >= 90 then Excellent else if score >= 70 then Good else NeedsWork
  }

  /** The colour and the label the badge uses for each band. */
  function BandColor(b: Band): string {
    match b
    case Excellent => "from-green-500 to-emerald-600"
    case Good => "from-yellow-500 to-orange-500"
    case NeedsWork => "from-red-500 to-pink-500"
  }

  function BandLabel(b: Band): string {
    match b
    case Excellent => "Excellent"
    case Good => "Good"
    case NeedsWork => "Needs Work"
  }

  /** `getScoreColor`, threshold by threshold. */
  function ScoreColor(s: int): string {
    if s >= 90 then "from-green-500 to-emerald-600"
    else if s >= 70 then "from-yellow-500 to-orange-500"
    else "from-red-500 to-pink-500"
  }

  /** `getScoreLabel`, threshold by threshold. */
  function ScoreLabel(s: int): string {
    if s >= 90 then "Excellent"
    else if s >= 70 then "Good"
    else "Needs Work"
  }

  /** Colour and label always come from the same band. */
  lemma ColorAndLabelAgree(s: int)
    ensures ScoreColor(s) == BandColor(BandOf(s)) && ScoreLabel(s) == BandLabel(BandOf(s))
  {
  }

  /** Different bands look different, so the colour tells the band. */
  lemma BandColorsDistinct(s: int, t: int)
    ensures ScoreColor(s) == ScoreColor(t) <==> BandOf(s) == BandOf(t)
    ensures ScoreLabel(s) == ScoreLabel(t) <==> BandOf(s) == BandOf(t)
  {
    assert "from-green-500 to-emerald-600"[5] == 'g';
    assert "from-yellow-500 to-orange-500"[5] == 'y';
    assert "from-red-500 to-pink-500"[5] == 'r';
    assert "Excellent"[0] == 'E' && "Good"[0] == 'G' && "Needs Work"[0] == 'N';
  }

  /** The score shown: the generated one unless it is missing or zero
      (`atsScore || 94`). */
  function DisplayedScore(content: Option<GeneratedContent>): (score: int)
    ensures score == 94 || (content.Some? && content.value.atsScore == Some(score) && score != 0)
    ensures content.Some? && content.value.atsScore.Some? && content.value.atsScore.value != 0 ==> score == content.value.atsScore.value
  {
    match content
    case Some(GeneratedContent(_, _, Some(s))) => if s != 0 then s else 94
    case _ => 94
  }

  // -------------------------------------------------------------- fallbacks

  const DefaultReferees: seq<Referee> := [
    Referee("John Kila", "Former Supervisor, PNG Power Ltd", "+675 7123 4567"),
    Referee("Mary Tau", "HR Manager, Bank South Pacific", "+675 7234 5678")
  ]

  const DefaultCommunity: string := "Youth Group Leader, Boroko Community (2021-Present)\nVolunteer, PNG Red Cross Society"

  /** `referees || defaultReferees`: a present list, even an empty one, is
      kept; only an absent one is replaced. */
  function DisplayedReferees(data: Option<ExtractedData>): (refs: seq<Referee>)
    ensures data.Some? && data.value.referees.Some? ==> refs == data.value.referees.value
    ensures (data.None? || data.value.referees.None?) ==> refs == DefaultReferees
  {
    match data
    case Some(d) => d.referees.GetOr(DefaultReferees)
    case None => DefaultReferees
  }

  /** `communityLeadership || default`: an empty text is replaced too. */
  function DisplayedCommunity(data: Option<ExtractedData>): (text: string)
    ensures text != ""
    ensures data.Some? && data.value.communityLeadership.Some? && data.value.communityLeadership.value != "" ==>
      text == data.value.communityLeadership.value
    ensures text != DefaultCommunity ==> data.Some? && data.value.communityLeadership == Some(text)
  {
    match data
    case Some(ExtractedData(_, _, _, _, _, _, _, _, Some(c), _)) => if c != "" then c else DefaultCommunity
    case _ => DefaultCommunity
  }

  /** The empty-state view is shown when there is nothing to preview. */
  predicate ShowsPlaceholder(data: Option<ExtractedData>, content: Option<GeneratedContent>) {
    data.None? && content.None?
  }

  // ------------------------------------------------------ cover-letter edit

  /** The edit button (and the letter itself) is shown only for a
      non-empty cover letter; the regenerate button also needs a handler. */
  predicate HasLetter(content: Option<GeneratedContent>) {
    content.Some? && content.value.coverLetter != ""
  }

  predicate ShowsRegenerate(hasRegenerateHandler: bool, content: Option<GeneratedContent>) {
    hasRegenerateHandler && HasLetter(content)
  }

  /** Whether the letter is being edited, and the edit buffer. */
  datatype Editor = Editor(editing: bool, buffer: string)

  const InitialEditor: Editor := Editor(false, "")

  /** The result of clicking the edit/save button: the next editor state
      and the text handed to the edit handler, if any. */
  datatype Click = Click(next: Editor, saved: Option<string>)

  /** The edit/save button: outside edit mode it seeds the buffer with the
      current letter; in edit mode it hands the buffer to the handler (when
      one is given) and leaves edit mode. */
  function ClickEditButton(e: Editor, letter: string, hasEditHandler: bool): (c: Click)
    ensures c.next.editing == !e.editing
    ensures !e.editing ==> c.next.buffer == letter && c.saved.None?
    ensures e.editing ==> c.next.buffer == e.buffer && (c.saved.Some? <==> hasEditHandler)
    ensures c.saved.Some? ==> c.saved.value == e.buffer
  {
    if e.editing then
      Click(Editor(false, e.buffer), if hasEditHandler then Some(e.buffer) else None)
    else
      Click(Editor(true, letter), None)
  }

  /** Typing in the text area replaces the buffer. */
  function Type(e: Editor, text: string): (r: Editor)
    ensures r.buffer == text && r.editing == e.editing
  {
    e.(buffer := text)
  }

  /** Opening the editor, typing, and saving hands over exactly what was
      typed and closes the editor. */
  lemma EditThenSaveHandsOverText(e: Editor, letter: string, text: string)
    requires !e.editing
    ensures var open := ClickEditButton(e, letter, true).next;
            var done := ClickEditButton(Type(open, text), letter, true);
            done.saved == Some(text) && !done.next.editing
  {
  }

  /** Opening and saving without typing hands the letter back unchanged. */
  lemma OpenThenSaveKeepsLetter(e: Editor, letter: string)
    requires !e.editing
    ensures ClickEditButton(ClickEditButton(e, letter, true).next, letter, true).saved == Some(letter)
  {
  }
}
