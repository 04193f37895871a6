/** The upload zone of the chat screen: classification of a file by its
    MIME type, the selection loop that skips files over 50 MB, and the
    `isDragging` / `uploading` flags the drag handlers consult. */
module FileUpload {
  import opened JsText

  datatype FileType = File | Image | Video | Audio

  /** The fields of a `File` the zone reads. */
  datatype FileInfo = FileInfo(name: JsString, mimeType: JsString, size: nat)

  /** One call `onFileUpload(file, type)`. */
  datatype Upload = Upload(file: FileInfo, fileType: FileType)

  /** `50 * 1024 * 1024`. */
  const MaxFileSize: nat := 52428800

  function ImagePrefix(): JsString { Units("image/") }
  function VideoPrefix(): JsString { Units("video/") }
  function AudioPrefix(): JsString { Units("audio/") }

  /** `getFileType`: the first of the three prefixes the MIME type starts
      with, `File` when it has none of them. */
  function GetFileType(mimeType: JsString): (r: FileType)
    ensures r == Image <==> StartsWith(mimeType, ImagePrefix())
    ensures r == Video <==> !StartsWith(mimeType, ImagePrefix()) && StartsWith(mimeType, VideoPrefix())
    ensures r == Audio <==>
              !StartsWith(mimeType, ImagePrefix()) && !StartsWith(mimeType, VideoPrefix()) && StartsWith(mimeType, AudioPrefix())
    ensures r == File <==>
              !StartsWith(mimeType, ImagePrefix()) && !StartsWith(mimeType, VideoPrefix()) && !StartsWith(mimeType, AudioPrefix())
  {
    if StartsWith(mimeType, ImagePrefix()) then Image
    else if StartsWith(mimeType, VideoPrefix()) then Video
    else if StartsWith(mimeType, AudioPrefix()) then Audio
    else File
  }

  /** The three prefixes start with different letters, so at most one of
      them matches and the order of the tests never decides the result. */
  lemma PrefixesExclusive(mimeType: JsString)
    ensures !(StartsWith(mimeType, ImagePrefix()) && StartsWith(mimeType, VideoPrefix()))
    ensures !(StartsWith(mimeType, ImagePrefix()) && StartsWith(mimeType, AudioPrefix()))
    ensures !(StartsWith(mimeType, VideoPrefix()) && StartsWith(mimeType, AudioPrefix()))
    ensures StartsWith(mimeType, VideoPrefix()) ==> GetFileType(mimeType) == Video
    ensures StartsWith(mimeType, AudioPrefix()) ==> GetFileType(mimeType) == Audio
  {
    if StartsWith(mimeType, ImagePrefix()) {
      assert mimeType[0] == ImagePrefix()[0];
    }
    if StartsWith(mimeType, VideoPrefix()) {
      assert mimeType[0] == VideoPrefix()[0];
    }
    if StartsWith(mimeType, AudioPrefix()) {
      assert mimeType[0] == AudioPrefix()[0];
    }
  }

  /** Whether the upload with call number `c` rejects: it does when `c` is
      below `|fails|` and `fails[c]` holds. */
  predicate Rejects(fails: seq<bool>, c: nat)
  {
    c < |fails| && fails[c]
  }

  /** The files the size check lets through, in list order, with their types. */
  function Eligible(files: seq<FileInfo>): (r: seq<Upload>)
    ensures |r| <= |files|
  {
    if files == [] then []
    else
      var f := files[|files| - 1];
      var prior := Eligible(files[..|files| - 1]);
      if f.size > MaxFileSize then prior else prior + [Upload(f, GetFileType(f.mimeType))]
  }

  /** Exactly the files within the limit are eligible, each with its type. */
  lemma {:induction false} EligibleMembers(files: seq<FileInfo>)
    ensures forall u | u in Eligible(files) ::
              u.file in files && u.file.size <= MaxFileSize && u.fileType == GetFileType(u.file.mimeType)
    ensures forall f | f in files && f.size <= MaxFileSize :: Upload(f, GetFileType(f.mimeType)) in Eligible(files)
  {
    if files != [] {
      var init := files[..|files| - 1];
      EligibleMembers(init);
      assert forall g | g in init :: g in files;
      assert files == init + [files[|files| - 1]];
    }
  }

  /** The calls the loop of `handleFileSelect` makes from position `i` on,
      `made` calls having been made before: a file over the limit is
      skipped, any other is uploaded, and a rejected upload ends the loop. */
  function CallsFrom(files: seq<FileInfo>, fails: seq<bool>, i: nat, made: nat): seq<Upload>
    requires i <= |files|
    decreases |files| - i
  {
    if i == |files| then []
    else if files[i].size > MaxFileSize then CallsFrom(files, fails, i + 1, made)
    else
      var u := Upload(files[i], GetFileType(files[i].mimeType));
      if Rejects(fails, made) then [u] else [u] + CallsFrom(files, fails, i + 1, made + 1)
  }

  /** The calls one selection makes. */
  function Calls(files: seq<FileInfo>, fails: seq<bool>): seq<Upload>
  {
    CallsFrom(files, fails, 0, 0)
  }

  /** `calls` is `planned` cut just after the first rejected call, the
      first of them having call number `made`: a prefix of it, with no
      rejection before its last call, ending early only on a rejection, and
      complete when none of the planned calls is rejected. */
  predicate CutAtRejection(calls: seq<Upload>, planned: seq<Upload>, fails: seq<bool>, made: nat)
  {
    |calls| <= |planned| && calls == planned[..|calls|] &&
    (forall c | made <= c < made + |calls| - 1 :: !Rejects(fails, c)) &&
    (|calls| < |planned| ==> |calls| > 0 && Rejects(fails, made + |calls| - 1)) &&
    ((forall c | made <= c < made + |planned| :: !Rejects(fails, c)) ==> calls == planned)
  }

  /** A rejected first call ends the selection with that call alone. */
  lemma CutAtFirst(u: Upload, tail: seq<Upload>, fails: seq<bool>, made: nat)
    requires Rejects(fails, made)
    ensures CutAtRejection([u], [u] + tail, fails, made)
  {
    assert ([u] + tail)[..1] == [u];
  }

  /** An accepted first call is followed by the cut of the rest. */
  lemma CutAfterFirst(u: Upload, later: seq<Upload>, tail: seq<Upload>, fails: seq<bool>, made: nat)
    requires !Rejects(fails, made)
    requires CutAtRejection(later, tail, fails, made + 1)
    ensures CutAtRejection([u] + later, [u] + tail, fails, made)
  {
    assert ([u] + tail)[..|later| + 1] == [u] + tail[..|later|];
  }

  /** From position `i`, the calls are the eligible files of the rest in
      order, cut just after the first rejected one. */
  lemma {:induction false} CallsFromEligible(files: seq<FileInfo>, fails: seq<bool>, i: nat, made: nat)
    requires i <= |files|
    ensures CutAtRejection(CallsFrom(files, fails, i, made), Eligible(files[i..]), fails, made)
    decreases |files| - i
  {
    if i < |files| {
      var tail := files[i + 1..];
      assert files[i..] == [files[i]] + tail;
      EligibleCons(files[i], tail);
      if files[i].size > MaxFileSize {
        CallsFromEligible(files, fails, i + 1, made);
      } else {
        var u := Upload(files[i], GetFileType(files[i].mimeType));
        if Rejects(fails, made) {
          CutAtFirst(u, Eligible(tail), fails, made);
        } else {
          CallsFromEligible(files, fails, i + 1, made + 1);
          CutAfterFirst(u, CallsFrom(files, fails, i + 1, made + 1), Eligible(tail), fails, made);
        }
      }
    } else {
      assert files[i..] == [];
    }
  }

  /** `Eligible` read from the front. */
  lemma {:induction false} EligibleCons(f: FileInfo, tail: seq<FileInfo>)
    ensures Eligible([f] + tail) ==
              (if f.size > MaxFileSize then [] else [Upload(f, GetFileType(f.mimeType))]) + Eligible(tail)
    decreases |tail|
  {
    if tail != [] {
      var init := tail[..|tail| - 1];
      assert ([f] + tail)[..|tail|] == [f] + init;
      EligibleCons(f, init);
    } else {
      assert [f] + tail == [f];
      assert [f][..0] == [];
    }
  }

  /** A selection with no rejected upload sends every file within the limit,
      in list order, and nothing else; with a rejection it sends a prefix of
      them ending with the rejected one. */
  lemma CallsSpec(files: seq<FileInfo>, fails: seq<bool>)
    ensures |Calls(files, fails)| <= |Eligible(files)|
    ensures Calls(files, fails) == Eligible(files)[..|Calls(files, fails)|]
    ensures forall c | 0 <= c < |Calls(files, fails)| - 1 :: !Rejects(fails, c)
    ensures |Calls(files, fails)| < |Eligible(files)| ==> |Calls(files, fails)| > 0 && Rejects(fails, |Calls(files, fails)| - 1)
    ensures (forall c | 0 <= c < |Eligible(files)| :: !Rejects(fails, c)) ==> Calls(files, fails) == Eligible(files)
  {
    CallsFromEligible(files, fails, 0, 0);
    assert files[0..] == files;
  }

  /** The component's state: its two flags, the `disabled` prop, and every
      call made to `onFileUpload` so far. */
  class UploadZone {
    const disabled: bool
    var isDragging: bool
    var uploading: bool
    var uploads: seq<Upload>

    constructor (disabled: bool)
      ensures this.disabled == disabled
      ensures !isDragging && !uploading && uploads == []
    {
      this.disabled := disabled;
      isDragging, uploading, uploads := false, false, [];
    }

    /** `handleFileSelect(files)`, where `null` is `None`: the `for` loop
        skips a file over the limit with `continue`, and a rejected upload
        leaves the loop through the `catch` outside it; `finally` clears
        `uploading`. */
    method HandleFileSelect(files: Option<seq<FileInfo>>, fails: seq<bool>)
      modifies this
      ensures files.None? || files.value == [] ==> uploads == old(uploads) && uploading == old(uploading)
      ensures files.Some? && files.value != [] ==> uploads == old(uploads) + Calls(files.value, fails) && !uploading
      ensures isDragging == old(isDragging)
    {
      if files.None? || |files.value| == 0 {
        return;
      }
      var fs := files.value;
      uploading := true;
      var i := 0;
      var made := 0;
      ghost var before := uploads;
      while i < |fs|
        invariant 0 <= i <= |fs|
        invariant uploading && isDragging == old(isDragging)
        invariant uploads + CallsFrom(fs, fails, i, made) == before + Calls(fs, fails)
        decreases |fs| - i
      {
        var file := fs[i];
        var fileType := GetFileType(file.mimeType);
        if file.size > MaxFileSize {
          i := i + 1;
          continue;
        }
        uploads := uploads + [Upload(file, fileType)];
        if Rejects(fails, made) {
          break;
        }
        made := made + 1;
        i := i + 1;
      }
      uploading := false;
    }

    /** `handleDrop`: always clears `isDragging`; selects the dropped files
        only when neither disabled nor uploading. */
    method HandleDrop(files: Option<seq<FileInfo>>, fails: seq<bool>)
      modifies this
      ensures !isDragging
      ensures disabled || old(uploading) ==> uploads == old(uploads) && uploading == old(uploading)
      ensures files.None? || files.value == [] ==> uploads == old(uploads) && uploading == old(uploading)
      ensures !disabled && !old(uploading) && files.Some? && files.value != [] ==>
                uploads == old(uploads) + Calls(files.value, fails) && !uploading
    {
      isDragging := false;
      if disabled || uploading {
        return;
      }
      HandleFileSelect(files, fails);
    }

    /** `handleDragOver`. */
    method HandleDragOver()
      modifies this
      ensures isDragging == (old(isDragging) || (!disabled && !uploading))
      ensures uploading == old(uploading) && uploads == old(uploads)
    {
      if !disabled && !uploading {
        isDragging := true;
      }
    }

    /** `handleDragLeave`. */
    method HandleDragLeave()
      modifies this
      ensures !isDragging
      ensures uploading == old(uploading) && uploads == old(uploads)
    {
      isDragging := false;
    }
  }
}
