/**
 The upload widget (src/components/resume-builder/file-upload-zone.tsx):
 checking a dropped or picked batch of files and adding it to the list,
 removing a file, and the rule that disables the file picker.
 */
module UploadZone {
  import opened Base

  /** At most this many files are accepted in all. */
  const MaxFiles: nat := 5

  /** 10 MiB: a file strictly larger than this rejects its whole batch. */
  const MaxFileSize: nat := 10 * 1024 * 1024

  /** The five accepted MIME types. */
  const ValidTypes: seq<string> := [
    "application/pdf",
    "application/msword",
    "application/vnd.openxmlformats-officedocument.wordprocessingml.document",
    "image/jpeg",
    "image/png"
  ]

  /** The message the widget shows, by meaning; the wording depends on the
      interface language only. */
  datatype Notice = NoNotice | TooLarge | TooMany | SomeInvalid

  /** The list of chosen files (owned by the parent component) and the
      widget's message. */
  datatype Zone = Zone(files: seq<File>, notice: Notice)

  predicate IsOversized(f: File) { f.size > MaxFileSize }

  predicate HasValidType(f: File) { f.mimeType in ValidTypes }

  /** `validateAndAddFiles`: a missing list does nothing; an oversized file
      refuses the batch before types are looked at; a batch that would
      take the list past five files is refused; otherwise the files of an
      accepted type are appended in order and the others dropped with a
      message. */
  function AddFiles(z: Zone, incoming: Option<seq<File>>): (r: Zone)
    ensures incoming.None? ==> r == z
    ensures incoming.Some? && Count(IsOversized, incoming.value) > 0 ==> r == z.(notice := TooLarge)
    ensures r.files == z.files || (incoming.Some? && r.files == z.files + Filter(HasValidType, incoming.value))
    ensures r.files != z.files ==> r.notice == NoNotice || r.notice == SomeInvalid
    ensures incoming.Some? ==> (r.notice == SomeInvalid <==>
      Count(IsOversized, incoming.value) == 0
      && |z.files| + Count(HasValidType, incoming.value) <= MaxFiles
      && Count(HasValidType, incoming.value) < |incoming.value|)
  {
    match incoming
    case None => z
    case Some(batch) =>
      if |Filter(IsOversized, batch)| > 0 then z.(notice := TooLarge)
      else
        var valid := Filter(HasValidType, batch);
        if |valid| + |z.files| > MaxFiles then z.(notice := TooMany)
        else
          var notice := if |valid| != |batch| then SomeInvalid else NoNotice;
          CountAtMostLength(HasValidType, batch);
          Zone(z.files + valid, notice)
  }

  /** `removeFile(index)`: drops the file at `index` and clears the message. */
  function RemoveFile(z: Zone, index: int): (r: Zone)
    ensures r.notice == NoNotice
    ensures 0 <= index < |z.files| ==> |r.files| == |z.files| - 1
  {
    Zone(RemoveAt(z.files, index), NoNotice)
  }

  /** The file picker is disabled once five files are chosen (dropping
      files onto the zone is not): exactly when one more acceptable file
      would be refused. */
  function PickerDisabled(z: Zone): (disabled: bool)
    ensures forall f :: HasValidType(f) && !IsOversized(f) ==> (disabled <==> AddFiles(z, Some([f])).files == z.files)
  {
    AddingOneFile(z);
    |z.files| >= MaxFiles
  }

  /** A single acceptable file is appended unless the list is full. */
  lemma AddingOneFile(z: Zone)
    ensures forall f :: HasValidType(f) && !IsOversized(f) ==>
      AddFiles(z, Some([f])) == if |z.files| >= MaxFiles then z.(notice := TooMany) else Zone(z.files + [f], NoNotice)
  {
    forall f | HasValidType(f) && !IsOversized(f)
      ensures AddFiles(z, Some([f])) == if |z.files| >= MaxFiles then z.(notice := TooMany) else Zone(z.files + [f], NoNotice)
    {
      assert [f][1..] == [];
      assert Filter(HasValidType, [f]) == [f];
      assert Filter(IsOversized, [f]) == [];
    }
  }

  /** Adding keeps the list within five files. */
  lemma AddKeepsCap(z: Zone, incoming: Option<seq<File>>)
    requires |z.files| <= MaxFiles
    ensures |AddFiles(z, incoming).files| <= MaxFiles
  {
  }

  /** When the batch is accepted, the old list is kept as a prefix and
      exactly the files of an accepted type follow it, in batch order;
      files of other types never block those of accepted types. */
  lemma AcceptedBatchAppends(z: Zone, batch: seq<File>)
    requires Count(IsOversized, batch) == 0
    requires |z.files| + Count(HasValidType, batch) <= MaxFiles
    ensures var r := AddFiles(z, Some(batch));
            r.files[..|z.files|] == z.files
            && r.files[|z.files|..] == Filter(HasValidType, batch)
            && (forall i :: |z.files| <= i < |r.files| ==> HasValidType(r.files[i]))
            && (forall i :: 0 <= i < |batch| && HasValidType(batch[i]) ==> batch[i] in r.files[|z.files|..])
  {
    var r := AddFiles(z, Some(batch));
    assert r.files == z.files + Filter(HasValidType, batch);
  }

  /** A batch that would take the list past five files adds nothing, even
      if some of its files are fine. */
  lemma OverflowAddsNothing(z: Zone, batch: seq<File>)
    requires Count(IsOversized, batch) == 0
    requires |z.files| + Count(HasValidType, batch) > MaxFiles
    ensures AddFiles(z, Some(batch)) == z.(notice := TooMany)
  {
  }

  /** The size check comes first: an oversized file refuses the batch with
      the size message whatever the types and the list length. */
  lemma SizeCheckFirst(z: Zone, batch: seq<File>, i: nat)
    requires i < |batch| && IsOversized(batch[i])
    ensures AddFiles(z, Some(batch)) == z.(notice := TooLarge)
  {
    assert batch[i] in Filter(IsOversized, batch);
  }

  /** With the picker disabled, a dropped batch with an accepted file is
      still checked, and refused. */
  lemma DisabledRefusesAcceptedFiles(z: Zone, batch: seq<File>, i: nat)
    requires PickerDisabled(z)
    requires Count(IsOversized, batch) == 0
    requires i < |batch| && HasValidType(batch[i])
    ensures AddFiles(z, Some(batch)) == z.(notice := TooMany)
  {
    assert batch[i] in Filter(HasValidType, batch);
  }

  /** Removing a file keeps the others in order. */
  lemma RemoveSplices(z: Zone, index: int)
    requires 0 <= index < |z.files|
    ensures RemoveFile(z, index).files == z.files[..index] + z.files[index + 1..]
  {
    RemoveAtSplices(z.files, index);
  }

  /** Adding one accepted file and then removing it restores the list. */
  lemma RemoveUndoesAdd(z: Zone, f: File)
    requires |z.files| < MaxFiles && HasValidType(f) && !IsOversized(f)
    ensures RemoveFile(AddFiles(z, Some([f])), |z.files|).files == z.files
  {
    assert Filter(IsOversized, [f]) == [];
    assert Filter(HasValidType, [f]) == [f];
    var grown := z.files + [f];
    assert AddFiles(z, Some([f])).files == grown;
    RemoveAtSplices(grown, |z.files|);
    assert grown[..|z.files|] == z.files;
  }
}
