/**
 The page controller (src/components/resume-builder/resume-builder-app.tsx):
 the application state, building the upload form, handling the edge
 function's answer, the simulated progress, and the cover-letter and
 download actions.
 */
module BuilderApp {
  import opened Base
  import opened Text
  import opened CvData
  import JobSearch
  import OcrExtract
  import LivePreview

  /** The page state. */
  datatype App = App(
    files: seq<File>,
    loading: bool,
    step: nat,
    extracted: Option<ExtractedData>,
    generated: Option<GeneratedContent>,
    selectedJob: Option<JobSearch.JobListing>)

  const InitialApp: App := App([], false, 0, None, None, None)

  /** `handleFilesChange`: the new list replaces the old; an empty list
      also clears the generated documents. */
  function HandleFilesChange(app: App, files: seq<File>): (r: App)
    ensures r.files == files
    ensures |files| == 0 ==> r.extracted.None? && r.generated.None?
    ensures |files| > 0 ==> r.extracted == app.extracted && r.generated == app.generated
    ensures r.loading == app.loading && r.step == app.step && r.selectedJob == app.selectedJob
  {
    if |files| == 0 then app.(files := files, extracted := None, generated := None)
    else app.(files := files)
  }

  // ---------------------------------------------------------------- the form

  /** The form name of the `i`-th file. */
  function FileKey(i: nat): string {
    "file_" + NatToString(i)
  }

  /** Different positions get different names. */
  lemma FileKeysDistinct(i: nat, j: nat)
    requires FileKey(i) == FileKey(j)
    ensures i == j
  {
    assert NatToString(i) == FileKey(i)[5..];
    assert NatToString(j) == FileKey(j)[5..];
    NatToStringRoundTrip(i);
    NatToStringRoundTrip(j);
  }

  /** The file parts, named from position `k` on. */
  function FileEntries(files: seq<File>, k: nat): (entries: seq<OcrExtract.FormEntry>)
    ensures |entries| == |files|
    ensures forall i :: 0 <= i < |files| ==> entries[i] == OcrExtract.FormEntry(FileKey(k + i), OcrExtract.FileValue(files[i]))
    decreases |files|
  {
    if |files| == 0 then []
    else [OcrExtract.FormEntry(FileKey(k), OcrExtract.FileValue(files[0]))] + FileEntries(files[1..], k + 1)
  }

  /** The object sent for the chosen job: exactly its title, company,
      location and description. */
  function JobObject(job: JobSearch.JobListing): OcrExtract.Json {
    OcrExtract.JObj([
      ("title", OcrExtract.JStr(job.title)),
      ("company", OcrExtract.JStr(job.company)),
      ("location", OcrExtract.JStr(job.location)),
      ("description", OcrExtract.JStr(job.description))])
  }

  /** The upload form: `file_0` … `file_{n-1}` in list order, then the
      `job_ad_text` part when a job is chosen. `stringify` stands for
      `JSON.stringify`. */
  function BuildForm(files: seq<File>, job: Option<JobSearch.JobListing>, stringify: OcrExtract.Json -> string): (form: seq<OcrExtract.FormEntry>)
    ensures |form| == |files| + (if job.Some? then 1 else 0)
    ensures forall i :: 0 <= i < |files| ==> form[i].key == FileKey(i) && form[i].value == OcrExtract.FileValue(files[i])
    ensures job.Some? ==> form[|files|] == OcrExtract.FormEntry(OcrExtract.JobField, OcrExtract.TextValue(stringify(JobObject(job.value))))
  {
    var tail := match job
      case Some(j) => [OcrExtract.FormEntry(OcrExtract.JobField, OcrExtract.TextValue(stringify(JobObject(j))))]
      case None => [];
    FileEntries(files, 0) + tail
  }

  predicate NonEmptyFile(f: File) { f.size > 0 }

  /** The edge function collects exactly the non-empty files of the form,
      in list order: a zero-byte file is dropped there, silently. */
  lemma {:induction false} ServerCollectsFileEntries(files: seq<File>, k: nat)
    ensures OcrExtract.CollectFiles(FileEntries(files, k)) == Filter(NonEmptyFile, files)
    decreases |files|
  {
    if |files| > 0 {
      ServerCollectsFileEntries(files[1..], k + 1);
      assert FileEntries(files, k)[1..] == FileEntries(files[1..], k + 1);
    }
  }

  lemma ServerCollectsClientFiles(files: seq<File>, job: Option<JobSearch.JobListing>, stringify: OcrExtract.Json -> string)
    ensures OcrExtract.CollectFiles(BuildForm(files, job, stringify)) == Filter(NonEmptyFile, files)
  {
    var tail := BuildForm(files, job, stringify)[|files|..];
    assert BuildForm(files, job, stringify) == FileEntries(files, 0) + tail;
    OcrExtract.CollectFilesAppend(FileEntries(files, 0), tail);
    ServerCollectsFileEntries(files, 0);
  }

  /** File parts never count as the job advert. */
  lemma {:induction false} FileEntriesKeepJob(files: seq<File>, k: nat, parse: string -> Option<Option<OcrExtract.JobAd>>, current: Option<OcrExtract.JobAd>)
    ensures OcrExtract.JobFrom(FileEntries(files, k), parse, current) == current
    decreases |files|
  {
    if |files| > 0 {
      FileEntriesKeepJob(files[1..], k + 1, parse, current);
      assert FileEntries(files, k)[1..] == FileEntries(files[1..], k + 1);
    }
  }

  /** The job the edge function works with is whatever parsing the
      stringified job object gives, and none when no job is chosen. */
  lemma ServerReadsClientJob(files: seq<File>, job: Option<JobSearch.JobListing>, stringify: OcrExtract.Json -> string,
                             parse: string -> Option<Option<OcrExtract.JobAd>>)
    ensures var form := BuildForm(files, job, stringify);
            OcrExtract.JobFrom(form, parse, None)
            == if job.Some? && parse(stringify(JobObject(job.value))).Some? then parse(stringify(JobObject(job.value))).value else None
  {
    var form := BuildForm(files, job, stringify);
    var tail := form[|files|..];
    assert form == FileEntries(files, 0) + tail;
    OcrExtract.JobFromAppend(FileEntries(files, 0), tail, parse, None);
    FileEntriesKeepJob(files, 0, parse, None);
  }

  // ---------------------------------------------------------- progress steps

  /** The simulated progress tick: one step further, at most step 4. */
  function Tick(step: nat): (r: nat)
    ensures r <= 4
    ensures step < 4 ==> r == step + 1
    ensures step >= 4 ==> r == 4
  {
    if step + 1 < 4 then step + 1 else 4
  }

  /** `n` ticks from `step`. */
  function Ticks(step: nat, n: nat): nat
    decreases n
  {
    if n == 0 then step else Ticks(Tick(step), n - 1)
  }

  /** From any step up to 4, `n` ticks reach step `min(step + n, 4)`. */
  lemma {:induction false} TicksSaturate(step: nat, n: nat)
    requires step <= 4
    ensures Ticks(step, n) == if step + n < 4 then step + n else 4
    decreases n
  {
    if n > 0 {
      TicksSaturate(Tick(step), n - 1);
    }
  }

  /** The values passed to `setProcessingStep` during one generation with
      `n` ticks before the answer: 1, 2, the ticks, 5, and 0 once it is
      over. Updates made in the same event or task are drawn together, so
      not every value here is ever on screen. */
  function StepTrace(n: nat): (trace: seq<nat>)
    ensures |trace| == n + 4
    ensures trace[0] == 1 && trace[1] == 2 && trace[n + 2] == 5 && trace[n + 3] == 0
    ensures forall i :: 0 <= i < n + 3 ==> 1 <= trace[i] <= 5
    ensures forall i :: 0 <= i < n + 2 ==> trace[i] <= trace[i + 1]
  {
    var ticks := seq(n, k requires 0 <= k < n => Ticks(2, k + 1));
    forall k | 0 <= k < n
      ensures 2 <= ticks[k] <= 4
    {
      TicksSaturate(2, k + 1);
    }
    forall k | 0 <= k < n - 1
      ensures ticks[k] <= ticks[k + 1]
    {
      TicksSaturate(2, k + 1);
      TicksSaturate(2, k + 2);
    }
    [1, 2] + ticks + [5, 0]
  }

  // ------------------------------------------------------ generation answer

  /** The body the edge function returns, as the client reads it. */
  datatype Body = Body(success: bool, extractedData: Option<ExtractedData>, generatedContent: Option<GeneratedContent>, error: Option<string>)

  /** What `functions.invoke` yields: a transport or HTTP error, or the
      body (`null` when there is none). */
  datatype Invoked = InvokeError(message: string) | InvokeData(data: Option<Body>)

  /** The notice shown after a click. */
  datatype Toast = NoFilesToast | SuccessToast | ErrorToast(text: string)

  const ErrorMessageEn: string := "Failed to generate documents. Please try again."
  const ErrorMessageTp: string := "No inap wokim dokumen. Traim gen."
  const NetworkErrorEn: string := "Network error. Please check your connection and try again."
  const NetworkErrorTp: string := "Netwok eroa. Sekim koneksen bilong yu na traim gen."

  function ErrorText(lang: Language): string {
    match lang case En => ErrorMessageEn case Tp => ErrorMessageTp
  }

  function NetworkText(lang: Language): string {
    match lang case En => NetworkErrorEn case Tp => NetworkErrorTp
  }

  /** The runtime's message for reading `error` of a `null` body. */
  const NullBodyError: string := "Cannot read properties of null (reading 'error')"

  /** The catch block: a message that contains "network" or "fetch", in
      lower case, is reported as a network problem; anything else as the
      generic failure. */
  function ClassifyError(message: string, lang: Language): (text: string)
    ensures Contains(message, "network") || Contains(message, "fetch") ==> text == NetworkText(lang)
    ensures !Contains(message, "network") && !Contains(message, "fetch") ==> text == ErrorText(lang)
  {
    if Contains(message, "network") || Contains(message, "fetch") then NetworkText(lang) else ErrorText(lang)
  }

  /** The message of the error raised for an answer, if it is one. */
  function FailureMessage(answer: Invoked): (m: Option<string>)
    ensures answer.InvokeData? && answer.data.Some? && answer.data.value.success <==> m.None?
    // `throw error`: the transport's message, or a fixed one when it is empty.
    ensures answer.InvokeError? ==> m == Some(if answer.message != "" then answer.message else "Failed to process documents")
    // A `null` body fails when its `error` is read.
    ensures answer == InvokeData(None) ==> m == Some(NullBodyError)
    // `data.error || 'Unknown error'` for a body that reports failure.
    ensures answer.InvokeData? && answer.data.Some? && !answer.data.value.success ==>
      m == Some(if answer.data.value.error.Some? && answer.data.value.error.value != "" then answer.data.value.error.value else "Unknown error")
    // The raised message is never empty.
    ensures m.Some? ==> m.value != ""
  {
    match answer
    case InvokeError(msg) => Some(if msg != "" then msg else "Failed to process documents")
    case InvokeData(None) => Some(NullBodyError)
    case InvokeData(Some(body)) =>
      if body.success then None
      else Some(match body.error case Some(e) => if e != "" then e else "Unknown error" case None => "Unknown error")
  }

  /** The score the client puts on generated content,
      `Math.floor(Math.random() * 15) + 85`, for a draw in [0, 1). */
  function ClientScore(draw: real): (score: int)
    requires 0.0 <= draw < 1.0
    ensures 85 <= score <= 99
  {
    (draw * 15.0).Floor + 85
  }

  /** Every score from 85 to 99 is drawn for some value. */
  lemma EveryScoreDrawn(score: int)
    requires 85 <= score <= 99
    ensures 0.0 <= (score - 85) as real / 15.0 < 1.0
    ensures ClientScore((score - 85) as real / 15.0) == score
  {
    var d := (score - 85) as real / 15.0;
    assert d * 15.0 == (score - 85) as real;
  }

  /** A client-side score is shown as it is and never in the lowest band. */
  lemma ClientScoreShownAboveLowestBand(content: GeneratedContent, draw: real)
    requires 0.0 <= draw < 1.0
    ensures var shown := content.(atsScore := Some(ClientScore(draw)));
            LivePreview.DisplayedScore(Some(shown)) == ClientScore(draw)
            && LivePreview.BandOf(LivePreview.DisplayedScore(Some(shown))) != LivePreview.NeedsWork
  {
  }

  /** What a click on "generate" did: the state afterwards, the form sent
      (none when nothing was sent) and the notice. */
  datatype Generation = Generation(app: App, sent: Option<seq<OcrExtract.FormEntry>>, toast: Toast)

  /** `handleGenerate`, from the click to the `finally` block. */
  function HandleGenerate(app: App, lang: Language, stringify: OcrExtract.Json -> string, answer: Invoked, draw: real): (g: Generation)
    requires 0.0 <= draw < 1.0
    // No files: a notice and nothing else.
    ensures |app.files| == 0 ==> g == Generation(app, None, NoFilesToast)
    // Otherwise the form is sent and the page always ends idle at step 0.
    ensures |app.files| > 0 ==> g.sent == Some(BuildForm(app.files, app.selectedJob, stringify)) && !g.app.loading && g.app.step == 0
    // Success replaces both documents and adds a client-side score.
    ensures |app.files| > 0 && FailureMessage(answer).None? ==>
      g.toast == SuccessToast && g.app.extracted == answer.data.value.extractedData
      && g.app.generated.Some? && g.app.generated.value.atsScore.Some? && 85 <= g.app.generated.value.atsScore.value <= 99
    // The shown documents are the body's (empty ones when it has none),
    // with the client's score in place of any from the server.
    ensures |app.files| > 0 && FailureMessage(answer).None? ==>
      g.app.generated == Some(answer.data.value.generatedContent.GetOr(GeneratedContent("", "", None)).(atsScore := Some(ClientScore(draw))))
    // A failure keeps the documents and reports the classified message.
    ensures |app.files| > 0 && FailureMessage(answer).Some? ==>
      g.toast == ErrorToast(ClassifyError(FailureMessage(answer).value, lang))
      && g.app.extracted == app.extracted && g.app.generated == app.generated
    ensures g.app.files == app.files && g.app.selectedJob == app.selectedJob
  {
    if |app.files| == 0 then Generation(app, None, NoFilesToast)
    else
      var form := BuildForm(app.files, app.selectedJob, stringify);
      var idle := app.(loading := false, step := 0);
      match FailureMessage(answer)
      case Some(m) => Generation(idle, Some(form), ErrorToast(ClassifyError(m, lang)))
      case None =>
        var body := answer.data.value;
        var content := body.generatedContent.GetOr(GeneratedContent("", "", None));
        Generation(idle.(extracted := body.extractedData, generated := Some(content.(atsScore := Some(ClientScore(draw))))),
                   Some(form), SuccessToast)
  }

  /** Without files the answer is never looked at: nothing is sent. */
  lemma NoFilesNoRequest(app: App, lang: Language, stringify: OcrExtract.Json -> string, a1: Invoked, a2: Invoked, d1: real, d2: real)
    requires |app.files| == 0 && 0.0 <= d1 < 1.0 && 0.0 <= d2 < 1.0
    ensures HandleGenerate(app, lang, stringify, a1, d1) == HandleGenerate(app, lang, stringify, a2, d2)
    ensures HandleGenerate(app, lang, stringify, a1, d1).sent.None?
  {
  }

  /** The classification is case-sensitive: "Failed to fetch" is a network
      problem, "Network request failed" is not. */
  lemma LowerFetchIsNetwork(lang: Language)
    ensures ClassifyError("Failed to fetch", lang) == NetworkText(lang)
  {
    assert OccursAt("Failed to fetch", "fetch", 10);
    ContainsIff("Failed to fetch", "fetch");
  }

  lemma CapitalNetworkIsGeneric(lang: Language)
    ensures ClassifyError("Network Error", lang) == ErrorText(lang)
  {
    var m := "Network Error";
    assert forall i :: 0 <= i < |m| ==> m[i] != 'n' && m[i] != 'f';
    MissingFirstChar(m, "network");
    MissingFirstChar(m, "fetch");
  }

  /** Both directions: the network notice is shown exactly when the
      message mentions "network" or "fetch". */
  lemma NetworkNoticeIff(message: string, lang: Language)
    ensures ClassifyError(message, lang) == NetworkText(lang) <==> Contains(message, "network") || Contains(message, "fetch")
  {
    NoticesDiffer(lang);
  }

  /** The two notices are different texts in both languages. */
  lemma NoticesDiffer(lang: Language)
    ensures NetworkText(lang) != ErrorText(lang)
  {
    assert |NetworkErrorEn| != |ErrorMessageEn| && |NetworkErrorTp| != |ErrorMessageTp|;
  }

  // ------------------------------------------------------ letter and export

  const OldOpening: string := "I am writing to express my strong interest"
  const NewOpening: string := "I am excited to submit my application"

  /** `handleRegenerateCoverLetter` once its delay has passed: without
      extracted data nothing happens; otherwise the first occurrence of
      the stock opening in the letter is replaced. */
  function Regenerate(app: App): (r: App)
    ensures app.extracted.None? || app.generated.None? ==> r == app
    ensures r.generated.Some? ==>
              (app.generated.Some? && r.generated.value == app.generated.value.(coverLetter := r.generated.value.coverLetter))
    ensures r == app.(generated := r.generated)
  {
    if app.extracted.None? then app
    else match app.generated
      case None => app
      case Some(c) => app.(generated := Some(c.(coverLetter := ReplaceFirst(c.coverLetter, OldOpening, NewOpening))))
  }

  /** Only the first occurrence is replaced: a letter `pre + opening +
      post` whose `pre` holds no opening becomes `pre + new + post`, later
      occurrences in `post` untouched. */
  lemma RegenerateReplacesFirst(app: App, pre: string, post: string)
    requires app.extracted.Some? && app.generated.Some?
    requires app.generated.value.coverLetter == pre + OldOpening + post
    requires forall j :: 0 <= j < |pre| ==> !OccursAt(pre + OldOpening + post, OldOpening, j)
    ensures Regenerate(app).generated.value.coverLetter == pre + NewOpening + post
  {
    ReplaceFirstSplit(pre, OldOpening, post, NewOpening);
  }

  /** A letter without the stock opening is left as it is. */
  lemma RegenerateWithoutOpening(app: App)
    requires app.generated.Some? && !Contains(app.generated.value.coverLetter, OldOpening)
    ensures Regenerate(app) == app
  {
  }

  /** `handleEditCoverLetter`: the letter becomes the given text; nothing
      else changes. */
  function EditLetter(app: App, text: string): (r: App)
    ensures app.generated.None? ==> r == app
    ensures app.generated.Some? ==> r.generated == Some(app.generated.value.(coverLetter := text))
    ensures r == app.(generated := r.generated)
  {
    match app.generated
    case None => app
    case Some(c) => app.(generated := Some(c.(coverLetter := text)))
  }

  /** Saving an edit from the preview pane with the current letter
      changes nothing. */
  lemma EditWithSameLetterIsIdentity(app: App)
    requires app.generated.Some?
    ensures EditLetter(app, app.generated.value.coverLetter) == app
  {
  }

  datatype Format = PlainText | Word

  /** A download: file name, content and MIME type. */
  datatype Download = Download(fileName: string, content: string, mimeType: string)

  const DocumentSeparator: string := "\n\n---\n\n"

  /** The name the exported file gets. */
  function ExportName(name: string, format: Format): (fileName: string)
    ensures NoWs(fileName)
    ensures |fileName| == |CollapseWs(name)| + 7 && fileName[..|CollapseWs(name)|] == CollapseWs(name)
    ensures fileName[|CollapseWs(name)|..] == Suffix(format)
  {
    var suffix := Suffix(format);
    assert NoWs(suffix);
    CollapseWs(name) + suffix
  }

  /** The extension each format appends to the sanitised name. */
  function Suffix(format: Format): string {
    match format case PlainText => "_CV.txt" case Word => "_CV.doc"
  }

  /** The MIME type each format is offered under. */
  function MimeFor(format: Format): string {
    match format case PlainText => "text/plain" case Word => "application/msword"
  }

  /** `handleDownloadPDF` / `handleDownloadWord`: nothing without both the
      documents and the details; otherwise the résumé, a separator line
      and the letter, under the sanitised name. */
  function DownloadFor(app: App, format: Format): (d: Option<Download>)
    ensures d.Some? <==> app.generated.Some? && app.extracted.Some?
    ensures d.Some? ==> NoWs(d.value.fileName)
    ensures d.Some? ==> d.value.fileName == ExportName(app.extracted.value.name, format)
    ensures d.Some? ==> d.value.mimeType == MimeFor(format)
    ensures d.Some? ==> |d.value.content| == |app.generated.value.resume| + |DocumentSeparator| + |app.generated.value.coverLetter|
    ensures d.Some? ==> d.value.content[..|app.generated.value.resume|] == app.generated.value.resume
    ensures d.Some? ==> d.value.content[|app.generated.value.resume| + |DocumentSeparator|..] == app.generated.value.coverLetter
    ensures d.Some? ==> OccursAt(d.value.content, DocumentSeparator, |app.generated.value.resume|)
  {
    if app.generated.None? || app.extracted.None? then None
    else
      var c := app.generated.value;
      var content := c.resume + DocumentSeparator + c.coverLetter;
      assert content[|c.resume|..|c.resume| + |DocumentSeparator|] == DocumentSeparator;
      Some(Download(ExportName(app.extracted.value.name, format), content, MimeFor(format)))
  }

  /** The two formats differ only in extension and MIME type. */
  lemma FormatsShareContent(app: App)
    requires app.generated.Some? && app.extracted.Some?
    ensures DownloadFor(app, PlainText).value.content == DownloadFor(app, Word).value.content
    ensures DownloadFor(app, PlainText).value.fileName[..|CollapseWs(app.extracted.value.name)|]
            == DownloadFor(app, Word).value.fileName[..|CollapseWs(app.extracted.value.name)|]
    ensures DownloadFor(app, PlainText).value.fileName[|CollapseWs(app.extracted.value.name)|..] == "_CV.txt"
    ensures DownloadFor(app, Word).value.fileName[|CollapseWs(app.extracted.value.name)|..] == "_CV.doc"
    ensures DownloadFor(app, PlainText).value.mimeType == "text/plain"
    ensures DownloadFor(app, Word).value.mimeType == "application/msword"
  {
  }

  /** A name without whitespace is kept as it is, before the suffix. */
  lemma PlainNameKept(name: string)
    requires NoWs(name)
    ensures ExportName(name, PlainText) == name + "_CV.txt"
    ensures ExportName(name, Word) == name + "_CV.doc"
  {
    CollapseWsIdentity(name);
  }

  /** Two whitespace-free words separated by a run of whitespace of any
      length and kind are joined by exactly one underscore. */
  lemma ExportNameCollapsesRun(first: string, gap: string, rest: string)
    requires NoWs(first) && NoWs(rest) && |gap| > 0 && AllWs(gap)
    ensures ExportName(first + gap + rest, PlainText) == first + "_" + rest + "_CV.txt"
    ensures ExportName(first + gap + rest, Word) == first + "_" + rest + "_CV.doc"
  {
    CollapseWsRun(first, gap, rest);
    CollapseWsIdentity(rest);
  }

  // ------------------------------------------------------- preview wiring

  /** Clearing the file list empties the preview back to its placeholder. */
  lemma ClearingFilesShowsPlaceholder(app: App)
    ensures var r := HandleFilesChange(app, []);
            LivePreview.ShowsPlaceholder(r.extracted, r.generated)
  {
  }

  /** After a successful generation the preview shows documents, and the
      letter view is shown exactly when the body's letter is non-empty. */
  lemma SuccessLeavesPlaceholder(app: App, lang: Language, stringify: OcrExtract.Json -> string, answer: Invoked, draw: real)
    requires 0.0 <= draw < 1.0 && |app.files| > 0
    ensures var g := HandleGenerate(app, lang, stringify, answer, draw);
            FailureMessage(answer).None? ==>
              !LivePreview.ShowsPlaceholder(g.app.extracted, g.app.generated)
              && (LivePreview.HasLetter(g.app.generated) <==>
                    answer.data.value.generatedContent.Some? && answer.data.value.generatedContent.value.coverLetter != "")
  {
  }

  /** Saving an empty letter hides the letter, its edit button and its
      regenerate button; a non-empty one keeps them. */
  lemma SavedLetterDecidesEditor(app: App, text: string, hasRegenerateHandler: bool)
    requires app.generated.Some?
    ensures var r := EditLetter(app, text);
            (LivePreview.HasLetter(r.generated) <==> text != "")
            && (LivePreview.ShowsRegenerate(hasRegenerateHandler, r.generated) <==> hasRegenerateHandler && text != "")
  {
  }
}
