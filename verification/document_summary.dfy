/**
 The document summary card (src/components/resume-builder/document-summary.tsx):
 the icon and size label of each processed file, the document count and the
 truncated extracted text. No page of the app mounts the card; it is modelled
 as the component would render the props a caller passes it.
 */
module DocumentSummary {
  import opened Base
  import opened Text
  import OcrExtract
  import UploadZone

  /** The four icons, by meaning. */
  datatype Icon = PdfIcon | ImageIcon | WordIcon | OtherIcon

  predicate IsPdfType(t: string) { Contains(t, "pdf") }
  predicate IsImageType(t: string) { Contains(t, "image") || Contains(t, "png") || Contains(t, "jpg") }
  predicate IsWordType(t: string) { Contains(t, "word") || Contains(t, "doc") }

  /** `getFileIcon`: the first test that passes, in the order pdf, image,
      word; the generic icon when none does. */
  function FileIcon(t: string): (icon: Icon)
    ensures icon == PdfIcon <==> IsPdfType(t)
    ensures icon == ImageIcon <==> !IsPdfType(t) && IsImageType(t)
    ensures icon == WordIcon <==> !IsPdfType(t) && !IsImageType(t) && IsWordType(t)
    ensures icon == OtherIcon <==> !IsPdfType(t) && !IsImageType(t) && !IsWordType(t)
  {
    if IsPdfType(t) then PdfIcon
    else if IsImageType(t) then ImageIcon
    else if IsWordType(t) then WordIcon
    else OtherIcon
  }

  /** A pattern found at a known position is contained. */
  lemma FoundAt(s: string, p: string, i: nat)
    requires OccursAt(s, p, i)
    ensures Contains(s, p)
  {
    ContainsIff(s, p);
  }

  /** Every type the upload widget accepts gets a specific icon, never the
      generic one. */
  lemma AcceptedTypesHaveIcons(t: string)
    requires t in UploadZone.ValidTypes
    ensures FileIcon(t) != OtherIcon
  {
    var v := UploadZone.ValidTypes;
    if t == v[0] {
      assert OccursAt(t, "pdf", 12);
      FoundAt(t, "pdf", 12);
    } else if t == v[1] {
      assert OccursAt(t, "word", 14);
      FoundAt(t, "word", 14);
    } else if t == v[2] {
      assert t[46] == 'w' && t[47] == 'o' && t[48] == 'r' && t[49] == 'd';
      assert t[46..50] == "word";
      FoundAt(t, "word", 46);
    } else {
      assert OccursAt(t, "image", 0);
      FoundAt(t, "image", 0);
    }
  }

  /** A PDF mentioned anywhere in the type wins over every other test. */
  lemma PdfTestComesFirst(a: string, b: string)
    ensures FileIcon(a + "pdf" + b) == PdfIcon
  {
    assert OccursAt(a + "pdf" + b, "pdf", |a|);
    FoundAt(a + "pdf" + b, "pdf", |a|);
  }

  /** A size label: the exact byte count as text, or a scaled amount in
      kilobytes or megabytes (the one-decimal rendering is not modelled). */
  datatype SizeLabel = InBytes(text: string) | InKilobytes(amount: real) | InMegabytes(amount: real)

  const Kibi: nat := 1024
  const Mebi: nat := 1024 * 1024

  /** `formatFileSize`: the unit follows the size range. */
  function FormatFileSize(bytes: nat): (shown: SizeLabel)
    ensures shown.InBytes? <==> bytes < Kibi
    ensures shown.InKilobytes? <==> Kibi <= bytes < Mebi
    ensures shown.InMegabytes? <==> Mebi <= bytes
    ensures shown.InBytes? ==> |shown.text| >= 3 && shown.text[|shown.text| - 2..] == " B"
    ensures shown.InKilobytes? ==> 1.0 <= shown.amount < 1024.0
    ensures shown.InMegabytes? ==> 1.0 <= shown.amount
  {
    if bytes < Kibi then InBytes(NatToString(bytes) + " B")
    else if bytes < Mebi then InKilobytes(bytes as real / 1024.0)
    else InMegabytes(bytes as real / (1024.0 * 1024.0))
  }

  /** The byte count is printed exactly: its digits read back as the size. */
  lemma BytesPrintedExactly(bytes: nat)
    requires bytes < Kibi
    ensures var text := FormatFileSize(bytes).text;
            DecimalValue(text[..|text| - 2]) == bytes
  {
    var text := FormatFileSize(bytes).text;
    assert text[..|text| - 2] == NatToString(bytes);
    NatToStringRoundTrip(bytes);
  }

  /** A scaled amount times its unit gives the size back. */
  lemma ScaledAmountIsExact(bytes: nat)
    requires Kibi <= bytes
    ensures FormatFileSize(bytes).InKilobytes? ==> FormatFileSize(bytes).amount * 1024.0 == bytes as real
    ensures FormatFileSize(bytes).InMegabytes? ==> FormatFileSize(bytes).amount * 1048576.0 == bytes as real
  {
  }

  /** The limit on shown summary characters. */
  const SummaryLimit: nat := 500
  const Ellipsis: string := "..."

  /** The summary block: not shown for an absent or empty summary;
      otherwise the first 500 characters, with "..." when more exist. */
  function SummaryView(summary: Option<string>): (view: Option<string>)
    ensures view.None? <==> summary.None? || summary.value == ""
    ensures view.Some? ==> |view.value| == (if |summary.value| > SummaryLimit then SummaryLimit + 3 else |summary.value|)
    ensures view.Some? && |summary.value| <= SummaryLimit ==> view.value == summary.value
    ensures view.Some? && |summary.value| > SummaryLimit ==>
              view.value[..SummaryLimit] == summary.value[..SummaryLimit] && view.value[SummaryLimit..] == Ellipsis
  {
    match summary
    case None => None
    case Some(s) =>
      if s == "" then None
      else if |s| > SummaryLimit then Some(s[..SummaryLimit] + Ellipsis)
      else Some(s)
  }

  /** The shown text is always a prefix of the summary, possibly followed
      by the ellipsis, and never longer than 503 characters. */
  lemma SummaryViewIsPrefix(s: string)
    requires s != ""
    ensures var v := SummaryView(Some(s)).value;
            |v| <= SummaryLimit + 3
            && exists n :: 0 <= n <= |s| && n <= |v| && v[..n] == s[..n] && (n == |s| || n == SummaryLimit)
  {
    var v := SummaryView(Some(s)).value;
    if |s| > SummaryLimit {
      assert v[..SummaryLimit] == s[..SummaryLimit];
    } else {
      assert v[..|s|] == s[..|s|];
    }
  }

  /** The heading's count: one per entry of `filesProcessed`. */
  function DocumentCount(filesProcessed: seq<OcrExtract.FileInfo>): nat {
    |filesProcessed|
  }

  /** If a caller passed a successful response's `filesProcessed` to the
      card, the count would equal the number of files the edge function
      collected, failed extractions included. */
  lemma CountMatchesCollectedFiles(files: seq<File>, job: Option<OcrExtract.JobAd>, o: OcrExtract.Oracles)
    requires |files| > 0
    ensures OcrExtract.Pipeline(files, job, o).response.Success? ==>
              DocumentCount(OcrExtract.Pipeline(files, job, o).response.filesProcessed) == |files|
  {
  }
}
