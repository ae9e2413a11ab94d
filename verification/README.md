# PNG CV builder — Dafny model of the core

This project models the logic of a Papua New Guinea CV builder. It has two sides:

- **Server.** A Supabase edge function, `ocr-extract`, receives uploaded documents as a multipart form. It sends each file to a text-extraction model and collects the text into headed sections. It then asks a second model for a CV and cover letter as JSON, strips the code fences from that reply and parses it. It answers with a success or an error envelope.
- **Client.** React components do the following:
  - validate uploads: size limit, type whitelist and a five-file cap;
  - build the form;
  - drive a simulated progress bar;
  - classify errors;
  - search a sample list of jobs;
  - rate skills against a demand table;
  - show the ATS score band and the default text;
  - edit or regenerate the cover letter;
  - export the documents.

Everything is modelled as immutable datatypes and pure functions. The parts the code cannot see into are parameters of the model (`OcrExtract.Oracles`):

- the two AI calls;
- reading and base64-encoding the file bytes;
- `JSON.parse` of the job advert and of the reply.

`Math.random` and `JSON.stringify` are parameters too.

| file | module | source |
|---|---|---|
| base.dfy | `Base` | shared `Option`, `File`, `filter` / `slice` on sequences |
| text.dfy | `Text` | the JavaScript string operations used (`includes`, `trim`, `toLowerCase`, `indexOf`, `replace`, `split('.').pop()`, `join`, number printing) |
| fence.dfy | `Fence` | code-fence clean-up of the generation reply |
| ocr_extract.dfy | `OcrExtract` | the edge function handler |
| upload_zone.dfy | `UploadZone` | file-upload-zone.tsx |
| job_search.dfy | `JobSearch` | job-search-section.tsx |
| skills_analyzer.dfy | `SkillsAnalyzer` | skills-analyzer.tsx |
| cv_data.dfy | `CvData` | the `ExtractedData` / `GeneratedContent` records of live-preview-pane.tsx |
| live_preview.dfy | `LivePreview` | live-preview-pane.tsx |
| builder_app.dfy | `BuilderApp` | resume-builder-app.tsx |
| document_summary.dfy | `DocumentSummary` | document-summary.tsx |
| processing_progress.dfy | `ProcessingProgress` | processing-progress.tsx |

The handler does none of the following:

- answer methods other than OPTIONS with 405;
- check that the API key is set;
- limit the per-file size;
- stop when every extraction fails;
- guess an unsupported type from the text;
- put `success: false` in its 500 body.

Each of these is absent from the model too. Several lemmas state the absence positively: `OcrExtract.NoAllFailedShortCircuit` and `OcrExtract.ThrownGenerationIs500`.

## Model

| member | source | states |
|---|---|---|
| OcrExtract.Serve | supabase/functions/ocr-extract/index.ts:148-250 | OPTIONS answers 200 with no work done. A content type without `multipart/form-data` answers 400 with no extraction or generation. A form with no non-empty file answers 400 with nothing processed. Otherwise exactly one generation prompt is sent, at most one extraction call is made per file, and the answer is a success or a 500. A multipart body whose form cannot be read answers the catch-all 500 with the thrown message as details, and nothing is extracted or generated. A success lists every collected file and the parsed job. A 500 carries the fixed error text. |
| OcrExtract.ReadForm | supabase/functions/ocr-extract/index.ts:159-162 | A multipart body that `req.formData()` cannot read ends in a 500 whose details are the thrown message (the catch at lines 243-248), with no extraction call and no prompt. |
| OcrExtract.ServeAccepted | supabase/functions/ocr-extract/index.ts:157-230 | For an accepted request, each readable collected file is sent for extraction once, in form order, with its own payload and resolved type. The answer is a success exactly when the generation reply parsed to a value other than `null`, and the success's two documents are that value's `extractedData` and `generatedContent` fields. |
| OcrExtract.Pipeline | supabase/functions/ocr-extract/index.ts:189-248 | Exactly one prompt is sent, built from the combined sections. The extraction calls are the readable files' own calls, in file order. The result is a success exactly when the generation reply parsed to something other than `null`. A success carries the reply's `extractedData` and `generatedContent`, lists `Infos(files)` and echoes the job; anything else is a 500 with the fixed error. |
| OcrExtract.CollectFiles | supabase/functions/ocr-extract/index.ts:162-164 | Every collected file has a positive size, and there are as many of them as there are non-empty file entries. |
| OcrExtract.CollectFilesIsFilter | supabase/functions/ocr-extract/index.ts:162-164 | The collected files are exactly the non-empty file entries, in form order. |
| OcrExtract.CollectFilesAppend | supabase/functions/ocr-extract/index.ts:162-164 | Collection distributes over concatenation of forms. |
| OcrExtract.JobFrom | supabase/functions/ocr-extract/index.ts:165-171 | The job is either the starting value or a parse of some `job_ad_text` text entry. If every such entry fails to parse, the job stays unchanged. |
| OcrExtract.JobFromAppend | supabase/functions/ocr-extract/index.ts:162-172 | Reading the job from `a + b` is reading `b` starting from the job read from `a`. |
| OcrExtract.LastParsedJobWins | supabase/functions/ocr-extract/index.ts:165-171 | A later `job_ad_text` that parses overrides every earlier one. |
| OcrExtract.UnparsableJobIgnored | supabase/functions/ocr-extract/index.ts:165-171 | Appending a `job_ad_text` that does not parse changes nothing about the whole response. |
| OcrExtract.LookupIn | supabase/functions/ocr-extract/index.ts:207-215 | The looked-up type is a table entry for the key, or `application/octet-stream` when the key is absent. |
| OcrExtract.LookupMime | supabase/functions/ocr-extract/index.ts:207-215 | The looked-up type comes from the six-entry extension table, or is `application/octet-stream`. |
| OcrExtract.ResolveMime | supabase/functions/ocr-extract/index.ts:204-216 | A declared type that is non-empty and not `application/octet-stream` is kept. Otherwise the result is a type from the table or `application/octet-stream`. |
| OcrExtract.ResolveByExtension | supabase/functions/ocr-extract/index.ts:204-216 | With no useful declared type, a name ending in `.<ext>` for each of the six table extensions resolves to that extension's MIME type. |
| OcrExtract.ResolveIgnoresCase | supabase/functions/ocr-extract/index.ts:206 | The extension is matched case-insensitively. |
| OcrExtract.ProcessFile | supabase/functions/ocr-extract/index.ts:192-224 | The section starts with `=== name ===` and a newline. An extraction call is made exactly when the file could be read, and it carries the payload and the resolved MIME type. When that call answers with non-empty text, the section is the header followed by exactly that text; when reading or extraction fails, it is the header followed by the failure placeholder. |
| OcrExtract.ProcessAll | supabase/functions/ocr-extract/index.ts:192-225 | There is one section per file, in input order, each depending only on its own file. The extraction calls are exactly the readable files' calls, in input order, each with its own file's payload and type. |
| OcrExtract.CallsOf | supabase/functions/ocr-extract/index.ts:192-224 | The loop's extraction requests are exactly the readable files' requests, in input order. An unreadable file adds none. |
| OcrExtract.CallsFor | supabase/functions/ocr-extract/index.ts:204-219 | One request per readable file, in list order, each carrying that file's payload and resolved MIME type. |
| OcrExtract.Infos | supabase/functions/ocr-extract/index.ts:189-197 | There is one `filesProcessed` entry per file, recording its name, declared type and size. |
| OcrExtract.CombinedTextHoldsEverySection | supabase/functions/ocr-extract/index.ts:219-227 | Each file's section occurs in the combined text at its offset in the blank-line join. |
| OcrExtract.SectionsInFileOrder | supabase/functions/ocr-extract/index.ts:192-227 | The sections of earlier files come before those of later files, with the blank-line separator between them. |
| OcrExtract.NoAllFailedShortCircuit | supabase/functions/ocr-extract/index.ts:221-230 | A file that cannot be read still gets its header plus the placeholder in the combined text, and generation still runs. |
| OcrExtract.ResolvedTypeNotReported | supabase/functions/ocr-extract/index.ts:193-197 | A `cv.pdf` with an empty declared type is sent for extraction as `application/pdf`. Its `filesProcessed` entry still reports the empty declared type. |
| OcrExtract.ReplyText | supabase/functions/ocr-extract/index.ts:64-68 | A reply yields text exactly when it answered with non-empty text, and that text is the answer's own. |
| OcrExtract.JobContext | supabase/functions/ocr-extract/index.ts:72-74 | The general-CV sentence is used exactly when no job was sent. Otherwise the paragraph opens with "The user is applying for: ". The title, company and location follow in that order, behind " at ", " in " and ". Job description: ", and the description ends the paragraph. |
| OcrExtract.BuildPrompt | supabase/functions/ocr-extract/index.ts:71-100 | The prompt holds the combined text and the job context, each at its fixed position. |
| OcrExtract.Generate | supabase/functions/ocr-extract/index.ts:131-146 | A reply value results exactly when the reply had text and the fence-stripped text parsed. A missing text raises the generation error. |
| OcrExtract.Field | supabase/functions/ocr-extract/index.ts:230 | A destructured field is the value of the last entry with its key, as `JSON.parse` keeps the last duplicate. It is absent exactly when no entry has that key. |
| OcrExtract.Destructure | supabase/functions/ocr-extract/index.ts:230 | Destructuring fails exactly on `null`. An object gives its `extractedData` and `generatedContent` fields. Any other value gives both fields undefined. |
| OcrExtract.UnparsableReplyIs500 | supabase/functions/ocr-extract/index.ts:137-142 | A reply whose cleaned text does not parse gives a 500 with the parse-failure details. |
| OcrExtract.NullReplyIs500 | supabase/functions/ocr-extract/index.ts:230-248 | A reply that parses to `null` gives a 500, because destructuring fails. |
| OcrExtract.ThrownGenerationIs500 | supabase/functions/ocr-extract/index.ts:230-248 | A generation call that throws gives a 500 whose details are its message. |
| Fence.StripFences | supabase/functions/ocr-extract/index.ts:135 | The cleaned text contains no "```" and has no whitespace at either end. |
| Fence.NoMarkerAfterRemoval | supabase/functions/ocr-extract/index.ts:135 | After the global "```" pass, no "```" remains. |
| Fence.StripFencesIdempotent | supabase/functions/ocr-extract/index.ts:135 | Cleaning twice is the same as cleaning once. |
| Fence.JsonFencedSameAsUnfenced | supabase/functions/ocr-extract/index.ts:135 | "```json\n" + j + "\n```" cleans to the same text as j, namely trim(j), for backtick-free j. |
| Fence.PlainFencedSameAsUnfenced | supabase/functions/ocr-extract/index.ts:135 | "```\n" + j + "\n```" cleans to trim(j) as well. |
| UploadZone.AddFiles | src/components/resume-builder/file-upload-zone.tsx:55-91 | A null list changes nothing. An oversized file refuses the batch with the too-large notice. The list either stays or becomes the old list plus the whitelisted new files. The invalid-type notice appears exactly when the batch is accepted but some file was dropped. |
| UploadZone.AddKeepsCap | src/components/resume-builder/file-upload-zone.tsx:78-81 | A list of at most five files stays at most five. |
| UploadZone.AcceptedBatchAppends | src/components/resume-builder/file-upload-zone.tsx:76-90 | An accepted batch leaves the old files first. It then appends exactly the whitelisted files, in order, and every whitelisted file is among them. |
| UploadZone.OverflowAddsNothing | src/components/resume-builder/file-upload-zone.tsx:78-81 | Exceeding five files adds nothing and shows the cap notice. |
| UploadZone.SizeCheckFirst | src/components/resume-builder/file-upload-zone.tsx:69-74 | One oversized file refuses the batch, whatever the types and the count. |
| UploadZone.DisabledRefusesAcceptedFiles | src/components/resume-builder/file-upload-zone.tsx:78-81 | At five files the picker is disabled, and any batch with a valid file is refused anyway. |
| UploadZone.PickerDisabled | src/components/resume-builder/file-upload-zone.tsx:165 | The picker is disabled exactly when one more acceptable file would be refused. |
| UploadZone.AddingOneFile | src/components/resume-builder/file-upload-zone.tsx:76-90 | One acceptable file is appended with no notice unless five are already chosen, in which case the cap notice is shown. |
| UploadZone.RemoveFile | src/components/resume-builder/file-upload-zone.tsx:107-111 | Removing clears the notice and, for an existing index, shortens the list by one. |
| UploadZone.RemoveSplices | src/components/resume-builder/file-upload-zone.tsx:107-111 | Removing index i gives the files before i followed by the files after i. |
| UploadZone.RemoveUndoesAdd | src/components/resume-builder/file-upload-zone.tsx:107-111 | Adding one valid file and removing it again restores the list. |
| JobSearch.SearchJobs | src/components/resume-builder/job-search-section.tsx:175-196 | The result is an order-preserving subsequence of the catalogue. A blank query gives the first six jobs. Otherwise a job is shown if and only if the lowercased query occurs in one of its five text fields. |
| JobSearch.InitialPanel | src/components/resume-builder/job-search-section.tsx:172 | The panel opens with an empty query and the first six sample jobs. |
| JobSearch.ClearSearch | src/components/resume-builder/job-search-section.tsx:206-209 | Clearing returns to the initial panel. |
| JobSearch.Settle | src/components/resume-builder/job-search-section.tsx:184-195 | The settled search keeps the query. For a blank query it shows the first six sample jobs. Otherwise a sample job is shown exactly when it matches the lowercased query, in catalogue order. |
| JobSearch.ClearIsStable | src/components/resume-builder/job-search-section.tsx:198-209 | The debounced search after clearing does not change the cleared panel. |
| JobSearch.SearchIgnoresQueryCase | src/components/resume-builder/job-search-section.tsx:185 | The query's case does not matter. |
| JobSearch.QueryIsNotTrimmed | src/components/resume-builder/job-search-section.tsx:176-185 | Only the blank test trims. "teller" finds "Bank Teller", but "teller " does not. |
| JobSearch.MatchIgnoresSalaryAndSource | src/components/resume-builder/job-search-section.tsx:187-191 | Salary, source and posting date never affect a match. |
| JobSearch.SearchIgnoresSalaryAndSource | src/components/resume-builder/job-search-section.tsx:186-192 | Catalogues that differ only in those fields give results of the same size. |
| SkillsAnalyzer.FirstRelated | src/components/resume-builder/skills-analyzer.tsx:61-65 | The result is the first table position whose key is related to the skill in either direction, or none when no key is related. |
| SkillsAnalyzer.GetSkillDemand | src/components/resume-builder/skills-analyzer.tsx:59-67 | The result is "low" if and only if no key relates to the lowercased skill. Any other level belongs to a related key. |
| SkillsAnalyzer.DemandFollowsFirstKey | src/components/resume-builder/skills-analyzer.tsx:39-64 | The level is that of the first related key in declaration order. |
| SkillsAnalyzer.EmptySkillIsHigh | src/components/resume-builder/skills-analyzer.tsx:40-62 | The empty skill relates to the first key, so it rates "high". |
| SkillsAnalyzer.AnalyzedSkills | src/components/resume-builder/skills-analyzer.tsx:85-88 | The first min(8, n) skills are kept, in order, with their names unchanged and each one rated. |
| SkillsAnalyzer.SuggestedSkills | src/components/resume-builder/skills-analyzer.tsx:23-35 | Five suggestions are offered in each language. |
| SkillsAnalyzer.Covered | src/components/resume-builder/skills-analyzer.tsx:91-94 | A suggestion is covered exactly when some user skill relates to it case-insensitively. |
| SkillsAnalyzer.MissingSuggestions | src/components/resume-builder/skills-analyzer.tsx:90-95 | Three suggestions are shown, or all the uncovered ones when there are fewer. They form an order-preserving subsequence of the suggestions, and none relates to any user skill. An uncovered suggestion is left out only when three uncovered ones come before it. |
| Base.FilterPosition | src/components/resume-builder/skills-analyzer.tsx:90-95 | A suggestion that passes the filter sits at the position given by the number of passing suggestions before it. |
| SkillsAnalyzer.EmptySkillHidesSuggestions | src/components/resume-builder/skills-analyzer.tsx:91-94 | An empty user skill covers every suggestion. |
| LivePreview.BandOf | src/components/resume-builder/live-preview-pane.tsx:79-89 | The band is Excellent if and only if s ≥ 90, and Needs Work if and only if s < 70. |
| LivePreview.ColorAndLabelAgree | src/components/resume-builder/live-preview-pane.tsx:79-89 | Colour and label are both functions of the same band. |
| LivePreview.BandColorsDistinct | src/components/resume-builder/live-preview-pane.tsx:79-89 | Two scores share a colour, and likewise a label, exactly when they share a band. |
| LivePreview.DisplayedScore | src/components/resume-builder/live-preview-pane.tsx:126 | A missing or zero score shows as 94. Any other score is shown as it is. |
| LivePreview.DisplayedReferees | src/components/resume-builder/live-preview-pane.tsx:128-134 | A present referee list, even an empty one, is shown as it is. An absent list shows the two defaults. |
| LivePreview.DisplayedCommunity | src/components/resume-builder/live-preview-pane.tsx:135-136 | An absent or empty community text shows the fixed default. A non-empty one is shown as it is. |
| LivePreview.Type | src/components/resume-builder/live-preview-pane.tsx:409 | Typing replaces the edit buffer with the text area's value and keeps the edit mode. |
| LivePreview.ClickEditButton | src/components/resume-builder/live-preview-pane.tsx:374-380 | Opening the editor seeds the buffer with the letter. Saving hands the buffer to the handler, when there is one, and closes the editor. |
| LivePreview.EditThenSaveHandsOverText | src/components/resume-builder/live-preview-pane.tsx:138-143 | Open, type, then save hands exactly the typed text over and leaves edit mode. |
| LivePreview.OpenThenSaveKeepsLetter | src/components/resume-builder/live-preview-pane.tsx:374-380 | Open then save without typing hands back the current letter. |
| BuilderApp.HandleFilesChange | src/components/resume-builder/resume-builder-app.tsx:59-65 | An empty list clears both generated records. A non-empty one leaves them. |
| BuilderApp.FileKeysDistinct | src/components/resume-builder/resume-builder-app.tsx:92-94 | `file_i` names are distinct for distinct positions. |
| BuilderApp.BuildForm | src/components/resume-builder/resume-builder-app.tsx:90-104 | The form has `file_0` … `file_{n-1}` in list order, then `job_ad_text` only when a job is chosen. That entry carries the stringified title, company, location and description. |
| BuilderApp.ServerCollectsClientFiles | src/components/resume-builder/resume-builder-app.tsx:92-94 | The edge function collects exactly the non-empty files of the list, in order. |
| BuilderApp.ServerReadsClientJob | src/components/resume-builder/resume-builder-app.tsx:97-104 | The job the edge function uses is the parse of the sent job object, or none. |
| BuilderApp.Tick | src/components/resume-builder/resume-builder-app.tsx:110 | The step advances by one and never passes 4. |
| BuilderApp.TicksSaturate | src/components/resume-builder/resume-builder-app.tsx:106-111 | n ticks from a step s ≤ 4 reach min(s + n, 4). |
| BuilderApp.StepTrace | src/components/resume-builder/resume-builder-app.tsx:86-151 | The values set as the processing step run 1, 2, the ticks, then 5. They never decrease before the end, and the finally block sets 0. |
| BuilderApp.ClassifyError | src/components/resume-builder/resume-builder-app.tsx:140-146 | A message containing "network" or "fetch" gives the network notice. Any other gives the generic notice. |
| BuilderApp.NetworkNoticeIff | src/components/resume-builder/resume-builder-app.tsx:143-145 | The network notice is shown if and only if the message contains "network" or "fetch". |
| BuilderApp.LowerFetchIsNetwork | src/components/resume-builder/resume-builder-app.tsx:143 | "Failed to fetch" counts as a network problem. |
| BuilderApp.CapitalNetworkIsGeneric | src/components/resume-builder/resume-builder-app.tsx:143 | The test is case-sensitive, so "Network Error" gets the generic notice. |
| BuilderApp.FailureMessage | src/components/resume-builder/resume-builder-app.tsx:120-137 | An error is raised unless the call returned a body whose `success` is true. A transport error raises its own message, or "Failed to process documents" when that is empty. A `null` body raises the runtime's null-read message. A body reporting failure raises its non-empty `error`, or else "Unknown error". The message is never empty. |
| BuilderApp.ClientScore | src/components/resume-builder/resume-builder-app.tsx:129 | The client-side score lies in [85, 99]. |
| BuilderApp.EveryScoreDrawn | src/components/resume-builder/resume-builder-app.tsx:129 | Every score from 85 to 99 is produced by some draw. |
| BuilderApp.ClientScoreShownAboveLowestBand | src/components/resume-builder/resume-builder-app.tsx:129 | The score is displayed unchanged and is never in the Needs Work band. |
| BuilderApp.HandleGenerate | src/components/resume-builder/resume-builder-app.tsx:75-152 | With no files, only the no-files notice is shown and nothing is sent. Otherwise the form is sent and the page ends idle at step 0. Success stores the body's data, and its generated content (empty texts when absent) with the server's score replaced by a client score in [85, 99]. Failure keeps the old documents and shows the classified notice. |
| BuilderApp.NoFilesNoRequest | src/components/resume-builder/resume-builder-app.tsx:76-83 | Without files the outcome does not depend on any answer, and no request is made. |
| BuilderApp.Regenerate | src/components/resume-builder/resume-builder-app.tsx:154-175 | Without extracted data or content nothing changes. Otherwise only the cover letter changes. |
| BuilderApp.RegenerateReplacesFirst | src/components/resume-builder/resume-builder-app.tsx:165-168 | Only the first occurrence of the stock opening is replaced. Text after it, including later occurrences, is kept. |
| BuilderApp.RegenerateWithoutOpening | src/components/resume-builder/resume-builder-app.tsx:165-168 | A letter without the stock opening stays the same. |
| BuilderApp.EditLetter | src/components/resume-builder/resume-builder-app.tsx:177-188 | Only the cover letter changes, and only when content exists. |
| BuilderApp.EditWithSameLetterIsIdentity | src/components/resume-builder/resume-builder-app.tsx:177-182 | Saving the current letter changes nothing. |
| BuilderApp.ExportName | src/components/resume-builder/resume-builder-app.tsx:198 | The file name has no whitespace: the whitespace-collapsed name, followed by exactly `_CV.txt` for plain text or `_CV.doc` for Word. |
| BuilderApp.ExportNameCollapsesRun | src/components/resume-builder/resume-builder-app.tsx:198 | Two whitespace-free words separated by any run of whitespace are joined by a single underscore, followed by `_CV.txt` or `_CV.doc`. |
| Text.CollapseWsRun | src/components/resume-builder/resume-builder-app.tsx:198 | `replace(/\s+/g, '_')` turns a whole whitespace run into one underscore and leaves the text before it unchanged. |
| BuilderApp.ClearingFilesShowsPlaceholder | src/components/resume-builder/resume-builder-app.tsx:59-65 | Clearing the file list brings the preview back to its empty-state placeholder. |
| BuilderApp.SuccessLeavesPlaceholder | src/components/resume-builder/live-preview-pane.tsx:145 | After a successful generation the placeholder is gone. The letter view is shown exactly when the body's letter is non-empty. |
| BuilderApp.SavedLetterDecidesEditor | src/components/resume-builder/live-preview-pane.tsx:359-370 | Saving an empty letter hides the letter with its edit and regenerate buttons. A non-empty one keeps them, the regenerate button only with a handler. |
| BuilderApp.PlainNameKept | src/components/resume-builder/resume-builder-app.tsx:218 | A name without whitespace is used verbatim before `_CV.txt` / `_CV.doc`. |
| BuilderApp.DownloadFor | src/components/resume-builder/resume-builder-app.tsx:190-228 | There is a download exactly when both records exist. Its file name is the format's export name and its MIME type is `text/plain` for plain text or `application/msword` for Word. The content is the résumé, then `\n\n---\n\n`, then the letter, and both parts can be recovered by position. |
| BuilderApp.FormatsShareContent | src/components/resume-builder/resume-builder-app.tsx:193-213 | Both formats carry the same content and the same base name; the plain download ends in `_CV.txt` under `text/plain`, the Word download in `_CV.doc` under `application/msword`. |
| DocumentSummary.FileIcon | src/components/resume-builder/document-summary.tsx:44-49 | The icon is given by the first passing test, in the order pdf, then image/png/jpg, then word/doc, else the default. |
| DocumentSummary.AcceptedTypesHaveIcons | src/components/resume-builder/document-summary.tsx:44-49 | Every type the upload widget accepts gets a specific icon. |
| DocumentSummary.PdfTestComesFirst | src/components/resume-builder/document-summary.tsx:45 | A type mentioning "pdf" gets the PDF icon, whatever else it holds. |
| DocumentSummary.FormatFileSize | src/components/resume-builder/document-summary.tsx:51-55 | The unit is B if and only if the size is below 1024, KB if and only if it is in [1024, 1024²), and MB if and only if it is at least 1024². Scaled amounts lie in their unit's range. |
| DocumentSummary.BytesPrintedExactly | src/components/resume-builder/document-summary.tsx:52 | A byte size is printed as its exact decimal digits plus " B". |
| DocumentSummary.ScaledAmountIsExact | src/components/resume-builder/document-summary.tsx:53-54 | The scaled amount times its unit gives the size. |
| DocumentSummary.SummaryView | src/components/resume-builder/document-summary.tsx:116-128 | No block is shown for an absent or empty summary. Otherwise the first min(500, len) characters are shown, with "..." appended if and only if len > 500. |
| DocumentSummary.SummaryViewIsPrefix | src/components/resume-builder/document-summary.tsx:127-128 | The shown text begins with a prefix of the summary and is at most 503 characters long. |
| DocumentSummary.CountMatchesCollectedFiles | src/components/resume-builder/document-summary.tsx:92 | If a caller passed a successful response's `filesProcessed` to the card, the count would equal the number of files the edge function collected, failed extractions included. |
| ProcessingProgress.StepLabels | src/components/resume-builder/processing-progress.tsx:13-37 | There are six step labels in each language. |
| ProcessingProgress.EveryStepHasIcon | src/components/resume-builder/processing-progress.tsx:40 | There are as many icons as labels. |
| ProcessingProgress.Progress | src/components/resume-builder/processing-progress.tsx:48 | Progress never exceeds 100, is 100 from step 5 on, and is not negative for a non-negative step. |
| ProcessingProgress.ProgressInTwenties | src/components/resume-builder/processing-progress.tsx:48 | For a whole step k ≥ 0, progress is min(20·k, 100). |
| ProcessingProgress.StateOf | src/components/resume-builder/processing-progress.tsx:94-95 | A step is complete if and only if it lies before the current step, and active if and only if it is the current step. No step is both. |
| ProcessingProgress.OneActiveStep | src/components/resume-builder/processing-progress.tsx:92-95 | At most one of the six steps is active. One is active if and only if the current step is in 0..5. |
| ProcessingProgress.StatesAreOrdered | src/components/resume-builder/processing-progress.tsx:94-95 | Completed steps precede the active one, and pending steps follow it. |

## Left out

- Network and transport: the Gemini HTTP requests, `fetch`, `Deno.serve` and `req.formData()` are abstracted. The form arrives already parsed, or as the error it raised. Each AI call is an oracle that throws or answers with optional text.
- File bytes: `arrayBuffer` and `btoa(String.fromCharCode(...))` form one oracle, which yields the base64 payload or fails.
- JSON: `JSON.parse` of the job advert and of the reply, and the client's `JSON.stringify`, are abstract functions. JSON numbers are kept integral.
- Prompt wording: the long prompt strings appear as constants, and the lemmas state only where the combined text and the job context sit inside the prompt.
- Logging, CORS header contents and response headers are left out. Each response's status and body fields follow its variant.
- Timers: the 300 ms debounce, the 500 ms simulated search delay, the 1500 ms progress interval and the regenerate delay are left out. A search is applied as one step (`JobSearch.Settle`), and the progress ticks are counted by `BuilderApp.StepTrace`.
- Browser and React: state hooks, animations, toasts and the Blob/URL/anchor mechanics of the download are left out. A download is modelled as the name, content and MIME type that would be saved.
- `Math.random` is a parameter `draw` in [0, 1).
- Strings: `toLowerCase` is ASCII only. `\s` and `trim` use the ECMAScript white-space and line-terminator set. There is no Unicode case mapping or normalisation.
- DocumentSummary: no page of the app mounts the card. The builder page renders only the search, upload, action, preview and progress components, and it reads only `extractedData` and `generatedContent` from the response, so `filesProcessed` is never displayed. The card is modelled on its own props.
- DocumentSummary.SummaryView: lengths are counted in Unicode code points, while the component's `length` and `substring(0, 500)` count UTF-16 code units. A summary with characters outside the Basic Multilingual Plane (emoji, say) is therefore cut later by the model than by the component, and the component's cut can split a surrogate pair, which a `string` here cannot represent.
- DocumentSummary.FormatFileSize: the `toFixed(1)` rendering of the KB and MB amounts is floating-point formatting. The model keeps the exact quotient and the unit only.
- BuilderApp.HandleGenerate: a success body without `generatedContent` is modelled as empty résumé and letter text. JavaScript would spread `undefined` into an object holding only the score.
- BuilderApp.Regenerate: the toast and the 1500 ms delay are left out, and the update is applied at once to the content current at the click.
- OcrExtract.JobFrom: the job advert parser yields only an object with four text fields, `null`, or a parse failure. `JSON.parse` can also return a number, `true`, a non-empty string or an array. Such a value would reach the prompt as "undefined at undefined in undefined" and be echoed in `jobAdData`. A falsy value (`0`, `false`, `""`) would select the general sentence. An object missing a field would print `undefined` in its place. None of this is modelled.
- OcrExtract.LookupMime: the lookup is modelled as a search of the six-entry table. The source indexes a JavaScript object literal, which also finds inherited members. A file named `cv.constructor` would get the `Object` constructor as its MIME type instead of `application/octet-stream`.
- BuilderApp.StepTrace: the trace lists the values passed to `setProcessingStep`, not the frames drawn. React batches the updates made in one event or task, so steps 1 and 5 are each overwritten before a render and are never on screen.
- JobSearch.ClearIsStable: this holds only for the model, where a search settles in one step. In the page the 500 ms timeout that applies a search is never cancelled (job-search-section.tsx:184-195). Clear (job-search-section.tsx:206-209) resets the list at once, and the cleared query resets it again 300 ms later. A search that started less than 200 ms before Clear lands after both resets. Its results then stay on screen under an empty query.
- ProcessingProgress.Progress: no property is stated for negative steps, which the page never sets.
- Markup-only parts of the components are not modelled: translations other than the notices, labels and suggestions used here, the skills colour chips, the job-card badges and the tips panels.
