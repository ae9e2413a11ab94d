/**
 The `ocr-extract` edge function (supabase/functions/ocr-extract/index.ts).
 A request is validated, its multipart form is split into files and an
 optional job advert, each file is sent to the text-extraction model (a
 failure becomes a placeholder section), the sections are joined and sent to
 the text-generation model once, and the cleaned reply is parsed as JSON and
 returned in a success envelope. The network, the base64 step and
 `JSON.parse` are the oracles of `Oracles`.
 */
module OcrExtract {
  import opened Base
  import opened Text
  import Fence

  // ---------------------------------------------------------------- data

  /** The job advert the client may send in the `job_ad_text` field. */
  datatype JobAd = JobAd(title: string, company: string, location: string, description: string)

  /** A JSON value as produced by `JSON.parse` (numbers kept integral). */
  datatype Json =
    | JNull
    | JBool(b: bool)
    | JNum(n: int)
    | JStr(s: string)
    | JArr(items: seq<Json>)
    | JObj(fields: seq<(string, Json)>)

  /** One entry of the multipart form: a file part or a text part. */
  datatype FormValue = FileValue(file: File) | TextValue(text: string)
  datatype FormEntry = FormEntry(key: string, value: FormValue)

  /** The result of `req.formData()`: the entries in order, or the message of
      the error it threw. */
  datatype FormBody = Parsed(entries: seq<FormEntry>) | Unreadable(message: string)

  /** What the handler reads from a request: the HTTP method (`verb`), the
      `content-type` header (absent when not sent) and the body. */
  datatype Request = Request(verb: string, contentType: Option<string>, body: FormBody)

  /** A reply of either model: the call threw (network error, unreadable
      body, ...) with a message, or it answered and the text at
      `candidates[0].content.parts[0].text` is present or not. */
  datatype AiReply = Threw(message: string) | Answered(text: Option<string>)

  /** The collaborators the handler cannot see into:
      - `encode`: reading the file's bytes and base64-encoding them
        (`arrayBuffer` + `btoa`); `None` when that throws;
      - `extract`: the extraction call, given the payload and the MIME type;
      - `generate`: the generation call, given the prompt;
      - `parseJob`: `JSON.parse` of the `job_ad_text` field; `None` when it
        throws, `Some(None)` for JSON `null`;
      - `parseReply`: `JSON.parse` of the cleaned generation reply. */
  datatype Oracles = Oracles(
    encode: File -> Option<string>,
    extract: (string, string) -> AiReply,
    generate: string -> AiReply,
    parseJob: string -> Option<Option<JobAd>>,
    parseReply: string -> Option<Json>)

  /** One outbound extraction request: the payload and the MIME type sent. */
  datatype ExtractCall = ExtractCall(payload: string, mimeType: string)

  /** An entry of `filesProcessed`. */
  datatype FileInfo = FileInfo(name: string, mimeType: string, size: nat)

  /** The response: status and JSON body are functions of the variant. */
  datatype Response =
    | Preflight
    | BadRequest(error: string)
    | ServerError(error: string, details: string)
    | Success(extractedData: Option<Json>, generatedContent: Option<Json>, jobAdData: Option<JobAd>, filesProcessed: seq<FileInfo>)
  {
    function Status(): int {
      match this
      case Preflight => 200
      case BadRequest(_) => 400
      case ServerError(_, _) => 500
      case Success(_, _, _, _) => 200
    }

    /** The keys of the JSON body, in order (`JSON.stringify` drops keys
        whose value is `undefined`). The pre-flight body is the text "ok". */
    function Keys(): (keys: seq<string>)
      ensures "success" in keys <==> this.Success?
      ensures "error" in keys <==> this.BadRequest? || this.ServerError?
      ensures "details" in keys <==> this.ServerError?
    {
      match this
      case Preflight => []
      case BadRequest(_) => ["error"]
      case ServerError(_, _) => ["error", "details"]
      case Success(ed, gc, _, _) =>
        ["success"]
        + (if ed.Some? then ["extractedData"] else [])
        + (if gc.Some? then ["generatedContent"] else [])
        + ["jobAdData", "filesProcessed", "aiPowered"]
    }
  }

  /** The response together with the outbound calls made while producing it. */
  datatype Served = Served(response: Response, extractCalls: seq<ExtractCall>, prompts: seq<string>)

  // ------------------------------------------------------------ constants

  const Multipart: string := "multipart/form-data"
  const JobField: string := "job_ad_text"
  const OctetStream: string := "application/octet-stream"
  const Placeholder: string := "[Could not extract text from this file]"
  const SectionSeparator: string := "\n\n"
  const InvalidContentTypeError: string := "Invalid content type. Expected multipart/form-data"
  const NoFilesError: string := "No valid files provided. Please upload PDF, DOCX, JPG, or PNG files."
  const ProcessingError: string := "Failed to process files with AI"
  const ParseReplyError: string := "Failed to parse AI response"
  const GenerateError: string := "Failed to generate CV content"
  /** The runtime's wording for destructuring a JSON `null` reply. */
  const NullReplyError: string := "Cannot destructure property 'extractedData' of '(intermediate value)' as it is null."

  /** Extension-to-MIME table used when the declared type is missing or generic. */
  const MimeTable: seq<(string, string)> := [
    ("pdf", "application/pdf"),
    ("jpg", "image/jpeg"),
    ("jpeg", "image/jpeg"),
    ("png", "image/png"),
    ("doc", "application/msword"),
    ("docx", "application/vnd.openxmlformats-officedocument.wordprocessingml.document")
  ]

  // ------------------------------------------------------ form splitting

  /** A part that the handler keeps as an input file. */
  predicate IsCollectable(e: FormEntry) {
    e.value.FileValue? && e.value.file.size > 0
  }

  /** A part that the handler tries to read as the job advert. */
  predicate IsJobText(e: FormEntry) {
    e.key == JobField && e.value.TextValue?
  }

  function FilesOf(entries: seq<FormEntry>): (files: seq<File>)
    requires forall i :: 0 <= i < |entries| ==> entries[i].value.FileValue?
    ensures |files| == |entries|
    ensures forall i :: 0 <= i < |entries| ==> files[i] == entries[i].value.file
  {
    seq(|entries|, i requires 0 <= i < |entries| => entries[i].value.file)
  }

  /** Taking the files distributes over a leading file part. */
  lemma FilesOfCons(e: FormEntry, rest: seq<FormEntry>)
    requires e.value.FileValue? && forall i :: 0 <= i < |rest| ==> rest[i].value.FileValue?
    ensures FilesOf([e] + rest) == [e.value.file] + FilesOf(rest)
  {
    var l := FilesOf([e] + rest);
    var r := [e.value.file] + FilesOf(rest);
    forall i | 0 <= i < |l| ensures l[i] == r[i] {
      if i > 0 { assert ([e] + rest)[i] == rest[i - 1]; }
    }
  }

  /** The files of the form, collected in one pass as the handler's loop
      does: exactly the non-empty file parts, in form order. */
  function CollectFiles(entries: seq<FormEntry>): (files: seq<File>)
    ensures forall i :: 0 <= i < |files| ==> files[i].size > 0
    ensures |files| == Count(IsCollectable, entries)
  {
    if |entries| == 0 then []
    else
      var rest := CollectFiles(entries[1..]);
      if IsCollectable(entries[0]) then [entries[0].value.file] + rest else rest
  }

  /** The one-pass loop agrees with the reference reading: filter the
      non-empty file parts, then take their files. */
  lemma {:induction false} CollectFilesIsFilter(entries: seq<FormEntry>)
    ensures CollectFiles(entries) == FilesOf(Filter(IsCollectable, entries))
    decreases |entries|
  {
    if |entries| > 0 {
      CollectFilesIsFilter(entries[1..]);
      var tail := Filter(IsCollectable, entries[1..]);
      FilterStep(IsCollectable, entries);
      if IsCollectable(entries[0]) {
        FilesOfCons(entries[0], tail);
      }
    }
  }

  /** The job advert after the handler's loop: each `job_ad_text` text part
      that parses replaces the current value; one that does not parse is
      ignored. */
  function JobFrom(entries: seq<FormEntry>, parseJob: string -> Option<Option<JobAd>>, current: Option<JobAd>): (job: Option<JobAd>)
    ensures job == current || exists i :: 0 <= i < |entries| && IsJobText(entries[i]) && parseJob(entries[i].value.text) == Some(job)
    ensures (forall i :: 0 <= i < |entries| && IsJobText(entries[i]) ==> parseJob(entries[i].value.text).None?) ==> job == current
  {
    if |entries| == 0 then current
    else
      var e := entries[0];
      var next := if IsJobText(e) && parseJob(e.value.text).Some? then parseJob(e.value.text).value else current;
      JobFrom(entries[1..], parseJob, next)
  }

  // ------------------------------------------------------- MIME resolution

  /** The MIME type for an extension, or the generic type when the table
      has no entry. */
  function LookupMime(ext: string): (mime: string)
    ensures mime == OctetStream || exists k :: 0 <= k < |MimeTable| && MimeTable[k] == (ext, mime)
  {
    LookupIn(MimeTable, ext)
  }

  function LookupIn(table: seq<(string, string)>, key: string): (v: string)
    ensures v == OctetStream || exists k :: 0 <= k < |table| && table[k] == (key, v)
    ensures (forall k :: 0 <= k < |table| ==> table[k].0 != key) ==> v == OctetStream
  {
    if |table| == 0 then OctetStream
    else if table[0].0 == key then table[0].1
    else LookupIn(table[1..], key)
  }

  /** The MIME type sent with a file: the declared type unless it is empty
      or generic; otherwise the type of the lowercased text after the last
      dot of the name (the whole name when it has no dot). */
  function ResolveMime(declared: string, name: string): (mime: string)
    ensures declared != "" && declared != OctetStream ==> mime == declared
    ensures mime == declared || mime == OctetStream || exists k :: 0 <= k < |MimeTable| && MimeTable[k].1 == mime
  {
    if declared == "" || declared == OctetStream then LookupMime(Lower(AfterLast(name, '.')))
    else declared
  }

  // ---------------------------------------------------- per-file extraction

  function Header(name: string): string {
    "=== " + name + " ===\n"
  }

  /** The text an extraction reply yields: present only when the call
      answered with a non-empty text (JavaScript truthiness). */
  function ReplyText(reply: AiReply): (t: Option<string>)
    ensures t.Some? <==> reply.Answered? && reply.text.Some? && reply.text.value != ""
    ensures t.Some? ==> reply == Answered(t)
  {
    match reply
    case Answered(Some(text)) => if text != "" then Some(text) else None
    case _ => None
  }

  /** The outcome for one file: its section of the combined text and the
      extraction call made for it (none when reading the file failed). */
  datatype FileOutcome = FileOutcome(section: string, call: Option<ExtractCall>)

  function ProcessFile(f: File, o: Oracles): (r: FileOutcome)
    ensures StartsWith(r.section, Header(f.name))
    ensures r.call.Some? <==> o.encode(f).Some?
    ensures r.call.Some? ==> r.call.value == CallFor(f, o)
    // Extracted text reaches the section under the file's header ...
    ensures r.call.Some? && ReplyText(o.extract(r.call.value.payload, r.call.value.mimeType)).Some? ==>
              r.section == Header(f.name) + ReplyText(o.extract(r.call.value.payload, r.call.value.mimeType)).value
    // ... and only an unreadable file or a failed extraction gets the placeholder.
    ensures r.call.None? || ReplyText(o.extract(r.call.value.payload, r.call.value.mimeType)).None? ==>
              r.section == Header(f.name) + Placeholder
  {
    match o.encode(f)
    case None => FileOutcome(Header(f.name) + Placeholder, None)
    case Some(payload) =>
      var mime := ResolveMime(f.mimeType, f.name);
      var body := match ReplyText(o.extract(payload, mime))
        case Some(text) => text
        case None => Placeholder;
      FileOutcome(Header(f.name) + body, Some(ExtractCall(payload, mime)))
  }

  /** A file whose bytes can be read and encoded. */
  predicate Readable(o: Oracles, f: File) {
    o.encode(f).Some?
  }

  /** `Readable` as a test to filter a list of files with. */
  function ReadableIn(o: Oracles): File -> bool {
    f => Readable(o, f)
  }

  /** One step of filtering the readable files. */
  lemma FilterReadableStep(files: seq<File>, o: Oracles)
    requires |files| > 0
    ensures Filter(ReadableIn(o), files)
            == (if Readable(o, files[0]) then [files[0]] else []) + Filter(ReadableIn(o), files[1..])
  {
    assert ReadableIn(o)(files[0]) == Readable(o, files[0]);
  }

  /** The requests for a readable file followed by more readable files. */
  lemma CallsForCons(f: File, rest: seq<File>, o: Oracles)
    requires Readable(o, f) && forall i :: 0 <= i < |rest| ==> Readable(o, rest[i])
    ensures CallsFor([f] + rest, o) == [CallFor(f, o)] + CallsFor(rest, o)
  {
    assert ([f] + rest)[0] == f && ([f] + rest)[1..] == rest;
  }

  /** The extraction request for a readable file: its payload and its
      resolved MIME type. */
  function CallFor(f: File, o: Oracles): ExtractCall
    requires Readable(o, f)
  {
    ExtractCall(o.encode(f).value, ResolveMime(f.mimeType, f.name))
  }

  /** The requests for a list of readable files, in list order. */
  function CallsFor(files: seq<File>, o: Oracles): (calls: seq<ExtractCall>)
    requires forall i :: 0 <= i < |files| ==> Readable(o, files[i])
    ensures |calls| == |files|
    ensures forall i :: 0 <= i < |files| ==> calls[i] == CallFor(files[i], o)
  {
    if |files| == 0 then []
    else
      var rest := CallsFor(files[1..], o);
      assert forall i :: 1 <= i < |files| ==> files[1..][i - 1] == files[i];
      [CallFor(files[0], o)] + rest
  }

  /** The sections and calls of the whole batch. */
  datatype Batch = Batch(sections: seq<string>, calls: seq<ExtractCall>)

  /** The per-file loop: one section per file in input order, each
      depending on its own file only; a failing file never stops the batch. */
  function ProcessAll(files: seq<File>, o: Oracles): (b: Batch)
    ensures |b.sections| == |files|
    ensures forall i :: 0 <= i < |files| ==> b.sections[i] == ProcessFile(files[i], o).section
    ensures b.calls == CallsFor(Filter(ReadableIn(o), files), o)
  {
    Batch(SectionsOf(files, o), CallsOf(files, o))
  }

  /** The sections the loop appends, one per file. */
  function SectionsOf(files: seq<File>, o: Oracles): (sections: seq<string>)
    ensures |sections| == |files|
    ensures forall i :: 0 <= i < |files| ==> sections[i] == ProcessFile(files[i], o).section
  {
    if |files| == 0 then []
    else
      var rest := SectionsOf(files[1..], o);
      assert forall i :: 1 <= i < |files| ==> files[1..][i - 1] == files[i];
      [ProcessFile(files[0], o).section] + rest
  }

  /** The extraction requests the loop makes: the readable files' own
      requests, in input order. */
  function CallsOf(files: seq<File>, o: Oracles): (calls: seq<ExtractCall>)
    ensures calls == CallsFor(Filter(ReadableIn(o), files), o)
  {
    if |files| == 0 then []
    else
      var head := ProcessFile(files[0], o).call;
      var rest := CallsOf(files[1..], o);
      FilterReadableStep(files, o);
      if head.Some? then
        CallsForCons(files[0], Filter(ReadableIn(o), files[1..]), o);
        [head.value] + rest
      else
        rest
  }

  function Infos(files: seq<File>): (infos: seq<FileInfo>)
    ensures |infos| == |files|
    ensures forall i :: 0 <= i < |files| ==> infos[i] == FileInfo(files[i].name, files[i].mimeType, files[i].size)
  {
    seq(|files|, i requires 0 <= i < |files| => FileInfo(files[i].name, files[i].mimeType, files[i].size))
  }

  // ------------------------------------------------------------ generation

  const GeneralContext: string := "No specific job selected - " + "create a general professional CV and cover letter."

  const ApplyingFor: string := "The user is applying for: "
  const AtSeparator: string := " at "
  const InSeparator: string := " in "
  const DescriptionSeparator: string := ". Job description: "

  /** The job-context paragraph of the prompt: the general sentence without
      an advert; otherwise the title, company and location after a fixed
      opening, each behind its own separator, and the description last. */
  function JobContext(job: Option<JobAd>): (ctx: string)
    ensures job.None? <==> ctx == GeneralContext
    ensures job.Some? ==>
      var ad := job.value;
      var company := |ApplyingFor| + |ad.title| + |AtSeparator|;
      var location := company + |ad.company| + |InSeparator|;
      var description := location + |ad.location| + |DescriptionSeparator|;
      StartsWith(ctx, ApplyingFor) && OccursAt(ctx, ad.title, |ApplyingFor|)
      && OccursAt(ctx, AtSeparator, company - |AtSeparator|) && OccursAt(ctx, ad.company, company)
      && OccursAt(ctx, InSeparator, location - |InSeparator|) && OccursAt(ctx, ad.location, location)
      && OccursAt(ctx, DescriptionSeparator, description - |DescriptionSeparator|)
      && |ctx| == description + |ad.description| && ctx[description..] == ad.description
  {
    match job
    case None => GeneralContext
    case Some(ad) =>
      var ctx := ApplyingFor + ad.title + AtSeparator + ad.company + InSeparator + ad.location + DescriptionSeparator + ad.description;
      assert ctx[0] == 'T' && GeneralContext[0] == 'N';
      EightParts(ApplyingFor, ad.title, AtSeparator, ad.company, InSeparator, ad.location, DescriptionSeparator, ad.description);
      ctx
  }

  /** Where each of eight concatenated pieces sits. */
  lemma EightParts(a: string, b: string, c: string, d: string, e: string, f: string, g: string, h: string)
    ensures var x := a + b + c + d + e + f + g + h;
            StartsWith(x, a) && OccursAt(x, b, |a|) && OccursAt(x, c, |a + b|) && OccursAt(x, d, |a + b + c|)
            && OccursAt(x, e, |a + b + c + d|) && OccursAt(x, f, |a + b + c + d + e|)
            && OccursAt(x, g, |a + b + c + d + e + f|)
            && |x| == |a + b + c + d + e + f + g| + |h| && x[|a + b + c + d + e + f + g|..] == h
  {
    var x := a + b + c + d + e + f + g + h;
    assert x[..|a|] == a;
    assert x[|a|..|a + b|] == b;
    assert x[|a + b|..|a + b + c|] == c;
    assert x[|a + b + c|..|a + b + c + d|] == d;
    assert x[|a + b + c + d|..|a + b + c + d + e|] == e;
    assert x[|a + b + c + d + e|..|a + b + c + d + e + f|] == f;
    assert x[|a + b + c + d + e + f|..|a + b + c + d + e + f + g|] == g;
  }

  const PromptIntro: string := "You are an expert CV writer specializing in Papua New Guinea job market. Based on the following extracted document text, create a professional CV and cover letter.\n\nEXTRACTED DOCUMENT TEXT:\n"
  const PromptJobHeading: string := "\n\nJOB CONTEXT:\n"
  const PromptInstructions: string :=
    "\n\nIMPORTANT INSTRUCTIONS:\n"
    + "1. Extract real information from the documents where available\n"
    + "2. For any missing information, create realistic placeholder data appropriate for PNG\n"
    + "3. Emphasize community involvement and leadership (important in PNG culture)\n"
    + "4. Include both English proficiency and Tok Pisin if mentioned\n"
    + "5. Format for ATS (Applicant Tracking Systems)\n\n"
    + "Return a JSON object with this EXACT structure (no markdown, just pure JSON):\n"
    + "{\n"
    + "  \"extractedData\": {\n"
    + "    \"name\": \"Full Name from document or 'Papua New Guinea Applicant'\",\n"
    + "    \"province\": \"Province from document or 'National Capital District'\",\n"
    + "    \"phone\": \"Phone from document or '+675 7XXX XXXX'\",\n"
    + "    \"email\": \"Email from document or 'applicant@email.com'\",\n"
    + "    \"education\": \"Education details, each on new line\",\n"
    + "    \"experience\": \"Work experience with bullet points\",\n"
    + "    \"skills\": [\"Array\", \"of\", \"skills\"],\n"
    + "    \"summary\": \"Professional summary paragraph\",\n"
    + "    \"communityLeadership\": \"Community and volunteer work\",\n"
    + "    \"referees\": [\n"
    + "      {\"name\": \"Referee Name\", \"title\": \"Title, Company\", \"phone\": \"+675 XXXX XXXX\"}\n"
    + "    ]\n"
    + "  },\n"
    + "  \"generatedContent\": {\n"
    + "    \"resume\": \"Full formatted resume text\",\n"
    + "    \"coverLetter\": \"Full cover letter text\",\n"
    + "    \"atsScore\": 85\n"
    + "  }\n"
    + "}"

  /** The generation prompt: it carries the combined document text and,
      after it, the job context, each at a fixed offset. */
  function BuildPrompt(text: string, job: Option<JobAd>): (prompt: string)
    ensures OccursAt(prompt, text, |PromptIntro|)
    ensures OccursAt(prompt, JobContext(job), |PromptIntro| + |text| + |PromptJobHeading|)
  {
    FiveParts(PromptIntro, text, PromptJobHeading, JobContext(job), PromptInstructions);
    PromptIntro + text + PromptJobHeading + JobContext(job) + PromptInstructions
  }

  /** Where the second and fourth of five glued pieces sit. */
  lemma FiveParts(a: string, b: string, c: string, d: string, e: string)
    ensures OccursAt(a + b + c + d + e, b, |a|)
    ensures OccursAt(a + b + c + d + e, d, |a| + |b| + |c|)
  {
    OccursInContext(a, b, c + d + e, b, 0);
    assert a + b + (c + d + e) == a + b + c + d + e;
    OccursInContext(a + b + c, d, e, d, 0);
  }

  /** Outcome of the generation step: the parsed reply or the message of
      the error it raised. */
  datatype Generated = Reply(value: Json) | Failed(message: string)

  /** `generateCVWithGemini` after the prompt is built: a missing or empty
      reply text and an unparsable cleaned text each raise their own
      error; a thrown call keeps its message. */
  function Generate(prompt: string, o: Oracles): (g: Generated)
    ensures g.Reply? <==> exists t :: ReplyText(o.generate(prompt)) == Some(t) && o.parseReply(Fence.StripFences(t)).Some?
    ensures g.Reply? ==> o.parseReply(Fence.StripFences(ReplyText(o.generate(prompt)).value)) == Some(g.value)
    ensures o.generate(prompt).Answered? && ReplyText(o.generate(prompt)).None? ==> g == Failed(GenerateError)
  {
    match o.generate(prompt)
    case Threw(m) => Failed(m)
    case Answered(_) =>
      match ReplyText(o.generate(prompt))
      case None => Failed(GenerateError)
      case Some(t) =>
        match o.parseReply(Fence.StripFences(t))
        case None => Failed(ParseReplyError)
        case Some(v) => Reply(v)
  }

  /** The value of `key` in a parsed object: the last occurrence wins, as in
      `JSON.parse`. */
  function Field(fields: seq<(string, Json)>, key: string): (v: Option<Json>)
    ensures v.Some? ==> exists k :: 0 <= k < |fields| && fields[k] == (key, v.value)
                                  && forall j :: k < j < |fields| ==> fields[j].0 != key
    ensures v.None? <==> forall k :: 0 <= k < |fields| ==> fields[k].0 != key
  {
    if |fields| == 0 then None
    else if fields[|fields| - 1].0 == key then Some(fields[|fields| - 1].1)
    else Field(fields[..|fields| - 1], key)
  }

  /** `const { extractedData, generatedContent } = reply`: fails on `null`;
      any other non-object value yields two `undefined`s. */
  function Destructure(v: Json): (r: Option<(Option<Json>, Option<Json>)>)
    ensures r.None? <==> v == JNull
    ensures v.JObj? ==> r == Some((Field(v.fields, "extractedData"), Field(v.fields, "generatedContent")))
    ensures r.Some? && !v.JObj? ==> r.value == (None, None)
  {
    match v
    case JNull => None
    case JObj(fields) => Some((Field(fields, "extractedData"), Field(fields, "generatedContent")))
    case _ => Some((None, None))
  }

  // -------------------------------------------------------------- handler

  function ContentTypeOf(req: Request): string {
    req.contentType.GetOr("")
  }

  /** The request handler. */
  function Serve(req: Request, o: Oracles): (out: Served)
    // A pre-flight request is answered 200 and nothing else happens.
    ensures req.verb == "OPTIONS" ==>
      out.response == Preflight && out.response.Status() == 200 && out.extractCalls == [] && out.prompts == []
    // Any other method is handled alike; a non-multipart body is refused
    // before anything is read.
    ensures req.verb != "OPTIONS" && !Contains(ContentTypeOf(req), Multipart) ==>
      out.response == BadRequest(InvalidContentTypeError) && out.response.Status() == 400
      && out.extractCalls == [] && out.prompts == []
    // A form without a non-empty file part is refused without any call.
    ensures req.verb != "OPTIONS" && Contains(ContentTypeOf(req), Multipart)
            && req.body.Parsed? && CollectFiles(req.body.entries) == [] ==>
      out.response == BadRequest(NoFilesError) && out.response.Status() == 400
      && out.extractCalls == [] && out.prompts == []
    // Otherwise generation is attempted exactly once, whatever happened to
    // the individual files, and the answer is a success or a 500.
    ensures req.verb != "OPTIONS" && Contains(ContentTypeOf(req), Multipart)
            && req.body.Parsed? && CollectFiles(req.body.entries) != [] ==>
      |out.prompts| == 1 && |out.extractCalls| <= |CollectFiles(req.body.entries)|
      && (out.response.Success? || out.response.ServerError?)
    // A success lists every collected file, with its declared type.
    ensures out.response.Success? ==>
      req.body.Parsed? && out.response.filesProcessed == Infos(CollectFiles(req.body.entries))
      && out.response.jobAdData == JobFrom(req.body.entries, o.parseJob, None)
    // A multipart body that cannot be read as a form falls to the
    // catch-all 500, whose details are the thrown message.
    ensures req.verb != "OPTIONS" && Contains(ContentTypeOf(req), Multipart) && req.body.Unreadable? ==>
      out.response == ServerError(ProcessingError, req.body.message) && out.extractCalls == [] && out.prompts == []
    // Every failure after validation is a 500 with the fixed message.
    ensures out.response.ServerError? ==> out.response.error == ProcessingError && out.response.Status() == 500
  {
    if req.verb == "OPTIONS" then Served(Preflight, [], [])
    else if !Contains(ContentTypeOf(req), Multipart) then Served(BadRequest(InvalidContentTypeError), [], [])
    else ReadForm(req.body, o)
  }

  /** Reading the multipart body: a body that cannot be read throws into
      the catch-all 500, a readable one is handed to the form handler. */
  function ReadForm(body: FormBody, o: Oracles): (out: Served)
    ensures body.Unreadable? ==> out.response.ServerError? && out.response.details == body.message
    ensures body.Unreadable? ==> out.extractCalls == [] && out.prompts == []
  {
    match body
    case Unreadable(m) => Served(ServerError(ProcessingError, m), [], [])
    case Parsed(entries) => HandleForm(entries, o)
  }

  /** The handler once the form is read: refuse a form without files,
      otherwise run the pipeline on the files and the job advert. */
  function HandleForm(entries: seq<FormEntry>, o: Oracles): Served {
    var files := CollectFiles(entries);
    if |files| == 0 then Served(BadRequest(NoFilesError), [], [])
    else Pipeline(files, JobFrom(entries, o.parseJob, None), o)
  }

  /** The combined document text: the sections joined by a blank line. */
  function CombinedText(files: seq<File>, o: Oracles): string {
    Join(ProcessAll(files, o).sections, SectionSeparator)
  }

  /** The generation prompt for a batch: the combined text, then the job
      context. */
  function PromptFor(files: seq<File>, job: Option<JobAd>, o: Oracles): string {
    BuildPrompt(CombinedText(files, o), job)
  }

  /** Everything after validation, for a non-empty list of files: the
      per-file loop, one generation call, and the answer. */
  function Pipeline(files: seq<File>, job: Option<JobAd>, o: Oracles): (out: Served)
    requires |files| > 0
    ensures |out.prompts| == 1 && out.prompts[0] == PromptFor(files, job, o) && |out.extractCalls| <= |files|
    // One extraction request per readable file, in file order.
    ensures out.extractCalls == CallsFor(Filter(ReadableIn(o), files), o)
    ensures out.response.Success? || out.response.ServerError?
    // A success exactly when the reply parsed to something other than `null`;
    // its two documents are the reply's fields of those names.
    ensures var g := Generate(PromptFor(files, job, o), o);
            out.response.Success? <==> g.Reply? && g.value != JNull
    ensures var g := Generate(PromptFor(files, job, o), o);
            out.response.Success? ==>
              g.Reply? && Destructure(g.value) == Some((out.response.extractedData, out.response.generatedContent))
    ensures out.response.Success? ==> out.response.filesProcessed == Infos(files) && out.response.jobAdData == job
    ensures out.response.ServerError? ==> out.response.error == ProcessingError
  {
    var batch := ProcessAll(files, o);
    assert |batch.calls| <= |files| by {
      CountAtMostLength(ReadableIn(o), files);
    }
    var prompt := PromptFor(files, job, o);
    var response := match Generate(prompt, o)
      case Failed(m) => ServerError(ProcessingError, m)
      case Reply(v) =>
        match Destructure(v)
        case None => ServerError(ProcessingError, NullReplyError)
        case Some((ed, gc)) => Success(ed, gc, job, Infos(files));
    Served(response, batch.calls, [prompt])
  }

  // ------------------------------------------------------------- properties

  /** A request that passes validation and carries at least one file. */
  predicate Accepted(req: Request) {
    req.verb != "OPTIONS" && Contains(ContentTypeOf(req), Multipart)
    && req.body.Parsed? && CollectFiles(req.body.entries) != []
  }

  /** Where the section of the `i`-th file starts in the combined text. */
  function SectionOffset(files: seq<File>, o: Oracles, i: nat): nat
    requires i < |files|
  {
    JoinOffset(ProcessAll(files, o).sections, SectionSeparator, i)
  }

  /** For an accepted request each readable collected file is sent for
      extraction once, in form order, and the answer is a success exactly
      when the generation reply parsed to a value other than `null`; the
      success's documents are that value's fields of those names. */
  lemma ServeAccepted(req: Request, o: Oracles)
    requires Accepted(req)
    ensures var out := Serve(req, o);
            var files := CollectFiles(req.body.entries);
            var g := Generate(PromptFor(files, JobFrom(req.body.entries, o.parseJob, None), o), o);
            out.extractCalls == CallsFor(Filter(ReadableIn(o), files), o)
            && (out.response.Success? <==> g.Reply? && g.value != JNull)
            && (out.response.Success? ==> Destructure(g.value) == Some((out.response.extractedData, out.response.generatedContent)))
  {
    var files := CollectFiles(req.body.entries);
    assert Serve(req, o) == Pipeline(files, JobFrom(req.body.entries, o.parseJob, None), o);
  }

  /** Every file's section, extracted text or placeholder, is in the
      combined text verbatim, at its own offset (and the combined text is
      in the prompt, by `BuildPrompt`). */
  lemma CombinedTextHoldsEverySection(files: seq<File>, o: Oracles, i: nat)
    requires i < |files|
    ensures OccursAt(CombinedText(files, o), ProcessFile(files[i], o).section, SectionOffset(files, o, i))
  {
    JoinHoldsParts(ProcessAll(files, o).sections, SectionSeparator, i);
  }

  /** The sections appear in the order of the files, each followed by the
      blank-line separator before the next begins. */
  lemma SectionsInFileOrder(files: seq<File>, o: Oracles, i: nat, j: nat)
    requires i < j < |files|
    ensures SectionOffset(files, o, i) + |ProcessFile(files[i], o).section| + |SectionSeparator| <= SectionOffset(files, o, j)
  {
    JoinOffsetOrdered(ProcessAll(files, o).sections, SectionSeparator, i, j);
  }

  /** A file whose reading fails still gets its own placeholder section,
      and generation is still attempted: there is no early exit when no
      text could be extracted at all. */
  lemma NoAllFailedShortCircuit(req: Request, o: Oracles, i: nat)
    requires Accepted(req) && i < |CollectFiles(req.body.entries)|
    requires o.encode(CollectFiles(req.body.entries)[i]).None?
    ensures var files := CollectFiles(req.body.entries);
            Serve(req, o).prompts == [PromptFor(files, JobFrom(req.body.entries, o.parseJob, None), o)]
            && OccursAt(CombinedText(files, o), Header(files[i].name) + Placeholder, SectionOffset(files, o, i))
  {
    var files := CollectFiles(req.body.entries);
    ServeAccepted(req, o);
    CombinedTextHoldsEverySection(files, o, i);
  }

  /** Collecting files distributes over concatenated forms. */
  lemma {:induction false} CollectFilesAppend(a: seq<FormEntry>, b: seq<FormEntry>)
    ensures CollectFiles(a + b) == CollectFiles(a) + CollectFiles(b)
    decreases |a|
  {
    if |a| > 0 {
      assert (a + b)[1..] == a[1..] + b;
      CollectFilesAppend(a[1..], b);
    } else {
      assert a + b == b;
    }
  }

  /** The job loop over concatenated forms continues from where the first
      part left off. */
  lemma {:induction false} JobFromAppend(a: seq<FormEntry>, b: seq<FormEntry>, p: string -> Option<Option<JobAd>>, c: Option<JobAd>)
    ensures JobFrom(a + b, p, c) == JobFrom(b, p, JobFrom(a, p, c))
    decreases |a|
  {
    if |a| > 0 {
      assert (a + b)[1..] == a[1..] + b;
      var next := if IsJobText(a[0]) && p(a[0].value.text).Some? then p(a[0].value.text).value else c;
      JobFromAppend(a[1..], b, p, next);
    } else {
      assert a + b == b;
    }
  }

  /** The last `job_ad_text` part that parses decides the job advert. */
  lemma LastParsedJobWins(entries: seq<FormEntry>, e: FormEntry, p: string -> Option<Option<JobAd>>, c: Option<JobAd>)
    requires IsJobText(e) && p(e.value.text).Some?
    ensures JobFrom(entries + [e], p, c) == p(e.value.text).value
  {
    JobFromAppend(entries, [e], p, c);
  }

  /** A job advert that cannot be parsed is ignored: the whole outcome is
      the same as without it. */
  lemma UnparsableJobIgnored(entries: seq<FormEntry>, o: Oracles, e: FormEntry)
    requires IsJobText(e) && o.parseJob(e.value.text).None?
    ensures HandleForm(entries + [e], o) == HandleForm(entries, o)
  {
    CollectFilesAppend(entries, [e]);
    assert CollectFiles([e]) == [];
    assert CollectFiles(entries + [e]) == CollectFiles(entries);
    JobFromAppend(entries, [e], o.parseJob, None);
    assert JobFrom(entries + [e], o.parseJob, None) == JobFrom(entries, o.parseJob, None);
  }

  /** Text without upper-case letters is its own lower-case form. */
  lemma LowerOfLower(s: string)
    requires forall i :: 0 <= i < |s| ==> !IsUpper(s[i])
    ensures Lower(s) == s
  {
  }

  /** A file whose declared type is empty or generic is sent with the type
      its extension names in the table. */
  lemma ResolveByExtension(declared: string, stem: string, k: nat)
    requires declared == "" || declared == OctetStream
    requires k < |MimeTable|
    ensures ResolveMime(declared, stem + "." + MimeTable[k].0) == MimeTable[k].1
  {
    var ext := MimeTable[k].0;
    var name := stem + "." + ext;
    TableKeyPlain(k);
    assert name == stem + ['.'] + ext;
    AfterLastAppend(stem, '.', ext);
    LowerOfLower(ext);
    TableEntryFound(k);
    assert ResolveMime(declared, name) == LookupMime(Lower(AfterLast(name, '.')));
  }

  /** The table keys are lower case and hold no dot. */
  lemma TableKeyPlain(k: nat)
    requires k < |MimeTable|
    ensures '.' !in MimeTable[k].0
    ensures forall i :: 0 <= i < |MimeTable[k].0| ==> !IsUpper(MimeTable[k].0[i])
  {
  }

  /** Each table key finds its own entry: no key repeats. */
  lemma TableEntryFound(k: nat)
    requires k < |MimeTable|
    ensures LookupMime(MimeTable[k].0) == MimeTable[k].1
  {
    var ext := MimeTable[k].0;
    if k == 0 {
      assert LookupIn(MimeTable, ext) == MimeTable[0].1;
    } else if k == 1 {
      assert LookupIn(MimeTable[1..], ext) == MimeTable[1].1;
    } else if k == 2 {
      assert LookupIn(MimeTable[2..], ext) == MimeTable[2].1;
    } else if k == 3 {
      assert LookupIn(MimeTable[3..], ext) == MimeTable[3].1;
    } else if k == 4 {
      assert LookupIn(MimeTable[4..], ext) == MimeTable[4].1;
    } else {
      assert LookupIn(MimeTable[5..], ext) == MimeTable[5].1;
    }
  }

  /** The extension is matched without regard to letter case. */
  lemma ResolveIgnoresCase(declared: string, name: string)
    ensures ResolveMime(declared, Lower(name)) == ResolveMime(declared, name)
  {
    AfterLastLower(name, '.');
    LowerIdempotent(AfterLast(name, '.'));
  }

  /** The type resolved for a file is used for its extraction call only:
      the list of processed files reports the type as declared, so an
      upload named "cv.pdf" with no declared type is extracted as a PDF but
      listed with an empty type. */
  lemma ResolvedTypeNotReported(files: seq<File>, job: Option<JobAd>, o: Oracles, i: nat)
    requires i < |files|
    requires files[i].mimeType == "" && files[i].name == "cv.pdf" && o.encode(files[i]).Some?
    ensures ProcessFile(files[i], o).call.value.mimeType == "application/pdf"
    ensures Pipeline(files, job, o).response.Success? ==> Pipeline(files, job, o).response.filesProcessed[i].mimeType == ""
  {
    ResolveByExtension("", "cv", 0);
    assert files[i].name == "cv" + "." + MimeTable[0].0;
  }

  /** A reply that cannot be parsed after the fence clean-up is a 500 whose
      details name the parse failure. */
  lemma UnparsableReplyIs500(files: seq<File>, job: Option<JobAd>, o: Oracles)
    requires |files| > 0
    ensures var t := ReplyText(o.generate(PromptFor(files, job, o)));
            t.Some? && o.parseReply(Fence.StripFences(t.value)).None? ==>
              Pipeline(files, job, o).response == ServerError(ProcessingError, ParseReplyError)
  {
  }

  /** A reply of JSON `null` is a 500 carrying the runtime's destructuring
      error. */
  lemma NullReplyIs500(files: seq<File>, job: Option<JobAd>, o: Oracles)
    requires |files| > 0
    ensures Generate(PromptFor(files, job, o), o) == Reply(JNull) ==>
              Pipeline(files, job, o).response == ServerError(ProcessingError, NullReplyError)
  {
  }

  /** A thrown generation call is a 500 carrying the thrown message. */
  lemma ThrownGenerationIs500(files: seq<File>, job: Option<JobAd>, o: Oracles)
    requires |files| > 0
    ensures o.generate(PromptFor(files, job, o)).Threw? ==>
              Pipeline(files, job, o).response == ServerError(ProcessingError, o.generate(PromptFor(files, job, o)).message)
  {
  }
}
