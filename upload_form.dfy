/**
 * The upload form's state and handlers: the current file type, the selection
 * `selectedFiles` that the file-input and drop handlers rebuild, and the
 * deployment counters that the submit handler updates.
 */
module UploadForm {
  import opened Wrappers
  import opened JsText
  import opened FileValidation

  /** The files of `files` that pass `validateFile`, in their original order. */
  function ValidFiles(files: seq<File>, t: FileType): (r: seq<File>)
    ensures |r| <= |files|
    ensures forall i :: 0 <= i < |r| ==> IsValid(r[i], t)
  {
    if files == [] then []
    else
      var last := files[|files| - 1];
      ValidFiles(files[..|files| - 1], t) + (if IsValid(last, t) then [last] else [])
  }

  /** `a` is `b` with some elements left out and the rest in the same order. */
  ghost predicate IsSubsequence(a: seq<File>, b: seq<File>)
    decreases |b|
  {
    if a == [] then true
    else if b == [] then false
    else if a[|a| - 1] == b[|b| - 1] then IsSubsequence(a[..|a| - 1], b[..|b| - 1])
    else IsSubsequence(a, b[..|b| - 1])
  }

  /** Every valid file is kept as often as it occurs, and no invalid file is kept. */
  lemma {:induction false} ValidFilesKeepsExactlyValid(files: seq<File>, t: FileType, f: File)
    ensures multiset(ValidFiles(files, t))[f] == if IsValid(f, t) then multiset(files)[f] else 0
  {
    if files != [] {
      var init, last := files[..|files| - 1], files[|files| - 1];
      SplitLast(files);
      CountAppend(init, last, f);
      ValidFilesKeepsExactlyValid(init, t, f);
      if IsValid(last, t) {
        assert ValidFiles(files, t) == ValidFiles(init, t) + [last];
        CountAppend(ValidFiles(init, t), last, f);
      } else {
        assert ValidFiles(files, t) == ValidFiles(init, t);
      }
    }
  }

  lemma SplitLast(s: seq<File>)
    requires s != []
    ensures s == s[..|s| - 1] + [s[|s| - 1]]
  {
  }

  /** Appending one file adds one occurrence of that file and of no other. */
  lemma CountAppend(s: seq<File>, x: File, f: File)
    ensures multiset(s + [x])[f] == multiset(s)[f] + (if x == f then 1 else 0)
  {
    assert multiset(s + [x]) == multiset(s) + multiset{x};
  }

  /** The kept files appear in the order they were chosen. */
  lemma {:induction false} ValidFilesKeepsOrder(files: seq<File>, t: FileType)
    ensures IsSubsequence(ValidFiles(files, t), files)
  {
    if files != [] {
      var init, last := files[..|files| - 1], files[|files| - 1];
      var r := ValidFiles(files, t);
      ValidFilesKeepsOrder(init, t);
      if IsValid(last, t) {
        assert r[..|r| - 1] == ValidFiles(init, t);
      } else {
        assert r == ValidFiles(init, t);
        if r != [] {
          assert IsValid(r[|r| - 1], t);
          assert r[|r| - 1] != files[|files| - 1];
        }
      }
    }
  }

  /** Filtering what was already filtered changes nothing. */
  lemma {:induction false} ValidFilesIdempotent(files: seq<File>, t: FileType)
    ensures ValidFiles(ValidFiles(files, t), t) == ValidFiles(files, t)
  {
    if files != [] {
      var init, last := files[..|files| - 1], files[|files| - 1];
      var r := ValidFiles(files, t);
      ValidFilesIdempotent(init, t);
      if IsValid(last, t) {
        assert r == ValidFiles(init, t) + [last];
        assert r[..|r| - 1] == ValidFiles(init, t);
      } else {
        assert r == ValidFiles(init, t);
      }
    }
  }

  /** One more file of the loop: the filter of the longer prefix extends the shorter one. */
  lemma ValidFilesStep(files: seq<File>, i: nat, t: FileType)
    requires i < |files|
    ensures ValidFiles(files[..i + 1], t) == ValidFiles(files[..i], t) + (if IsValid(files[i], t) then [files[i]] else [])
  {
    assert files[..i + 1][..i] == files[..i];
  }

  /** Some file of `files` fails validation. */
  predicate SomeInvalid(files: seq<File>, t: FileType)
  {
    exists i :: 0 <= i < |files| && !IsValid(files[i], t)
  }

  lemma SomeInvalidStep(files: seq<File>, i: nat, t: FileType)
    requires i < |files|
    ensures SomeInvalid(files[..i + 1], t) <==> SomeInvalid(files[..i], t) || !IsValid(files[i], t)
  {
    var p, q := files[..i], files[..i + 1];
    assert q == p + [files[i]];
    if SomeInvalid(q, t) && IsValid(files[i], t) {
      var j :| 0 <= j < |q| && !IsValid(q[j], t);
      assert j < i && p[j] == q[j];
    }
    if SomeInvalid(p, t) {
      var j :| 0 <= j < |p| && !IsValid(p[j], t);
      assert q[j] == p[j];
    }
    if !IsValid(files[i], t) {
      assert q[i] == files[i];
    }
  }

  /** The selection the file-input change handler leaves behind. */
  function SelectionAfterChange(files: seq<File>, t: FileType): seq<File>
  {
    if !AllowsMultiple(t) && |files| > 1 then [] else ValidFiles(files, t)
  }

  /** The selection the drop handler leaves behind, given the selection before the drop. */
  function SelectionAfterDrop(before: seq<File>, files: seq<File>, t: FileType): seq<File>
  {
    if (!AllowsMultiple(t) && |files| > 1) || ValidFiles(files, t) == [] then before
    else ValidFiles(files, t)
  }

  /** Handing the accepted files of an allowed drop to the change handler keeps all of them. */
  lemma ChangeAfterDrop(files: seq<File>, t: FileType)
    requires AllowsMultiple(t) || |files| <= 1
    ensures SelectionAfterChange(ValidFiles(files, t), t) == ValidFiles(files, t)
  {
    ValidFilesIdempotent(files, t);
  }

  /** A drop that is accepted ends in the same selection as choosing those files in the input. */
  lemma DropAgreesWithChange(before: seq<File>, files: seq<File>, t: FileType)
    requires (AllowsMultiple(t) || |files| <= 1) && ValidFiles(files, t) != []
    ensures SelectionAfterDrop(before, files, t) == SelectionAfterChange(files, t)
  {
  }

  /** The form fields the submit handler posts to `/api/deploy`. */
  datatype FormRequest = FormRequest(siteName: string, fileType: string, files: seq<File>)

  /** The backend's decoded JSON reply, or a failure to reach it or decode it. */
  datatype ServerReply =
    | ServerJson(success: bool, url: Option<string>, error: Option<string>)
    | ConnectionFailed(message: string)

  /** `data.success && data.url` */
  predicate DeploySucceeded(reply: ServerReply)
  {
    reply.ServerJson? && reply.success && Truthy(reply.url)
  }

  /** The drop handler's loop: the dropped files that pass validation, in order, and how many. */
  method FilterDropped(files: seq<File>, t: FileType) returns (accepted: seq<File>, validFilesCount: nat)
    ensures accepted == ValidFiles(files, t)
    ensures validFilesCount == |accepted|
  {
    accepted := [];
    validFilesCount := 0;
    for i := 0 to |files|
      invariant accepted == ValidFiles(files[..i], t)
      invariant validFilesCount == |accepted|
    {
      ValidFilesStep(files, i, t);
      if IsValid(files[i], t) {
        accepted := accepted + [files[i]];
        validFilesCount := validFilesCount + 1;
      }
    }
    assert files[..|files|] == files;
  }

  class DeployForm {
    /** `fileTypeSelect.value` */
    var fileType: FileType
    var selectedFiles: seq<File>
    /** `deploymentStats` */
    var total: nat
    var succeeded: nat
    var failed: nat

    /** Every attempted deployment is counted once, as a success or as a failure. */
    ghost predicate Valid()
      reads this
    {
      total == succeeded + failed
    }

    constructor (initialType: FileType)
      ensures Valid()
      ensures fileType == initialType && selectedFiles == []
      ensures total == 0 && succeeded == 0 && failed == 0
    {
      fileType := initialType;
      selectedFiles := [];
      total, succeeded, failed := 0, 0, 0;
    }

    /** The type selector's change handler: switch type and clear the selection. */
    method ChangeFileType(t: FileType)
      modifies this
      ensures fileType == t && selectedFiles == []
      ensures total == old(total) && succeeded == old(succeeded) && failed == old(failed)
    {
      fileType := t;
      selectedFiles := [];
    }

    /** The file input's change handler. Reports whether some chosen file was rejected. */
    method ChooseFiles(files: seq<File>) returns (hasInvalidFiles: bool)
      modifies this
      ensures selectedFiles == SelectionAfterChange(files, fileType)
      ensures hasInvalidFiles <==> (AllowsMultiple(fileType) || |files| <= 1) && SomeInvalid(files, fileType)
      ensures fileType == old(fileType)
      ensures total == old(total) && succeeded == old(succeeded) && failed == old(failed)
    {
      var t := fileType;
      selectedFiles := [];
      hasInvalidFiles := false;
      if |files| > 0 {
        if !AllowsMultiple(t) && |files| > 1 {
          return;
        }
        for i := 0 to |files|
          modifies this`selectedFiles
          invariant selectedFiles == ValidFiles(files[..i], t)
          invariant hasInvalidFiles <==> SomeInvalid(files[..i], t)
        {
          ValidFilesStep(files, i, t);
          SomeInvalidStep(files, i, t);
          if IsValid(files[i], t) {
            selectedFiles := selectedFiles + [files[i]];
          } else {
            hasInvalidFiles := true;
          }
        }
        assert files[..|files|] == files;
      }
    }

    /** The drop handler: filter the dropped files and, if any pass, hand them to the input. */
    method DropFiles(files: seq<File>)
      modifies this
      ensures selectedFiles == SelectionAfterDrop(old(selectedFiles), files, fileType)
      ensures fileType == old(fileType)
      ensures total == old(total) && succeeded == old(succeeded) && failed == old(failed)
    {
      if |files| == 0 {
        return;
      }
      var t := fileType;
      if !AllowsMultiple(t) && |files| > 1 {
        return;
      }
      var accepted, validFilesCount := FilterDropped(files, t);
      if validFilesCount > 0 {
        ChangeAfterDrop(files, t);
        var _ := ChooseFiles(accepted);
      }
    }

    /** The submit handler: the two guards, the request, and the counters. */
    method Submit(siteNameInput: string, reply: ServerReply) returns (request: Option<FormRequest>)
      requires Valid()
      modifies this
      ensures Valid()
      ensures request.None? <==> Trim(siteNameInput) == "" || old(selectedFiles) == []
      ensures request.Some? ==> request.value == FormRequest(Trim(siteNameInput), fileType.Name(), selectedFiles)
      ensures fileType == old(fileType) && selectedFiles == old(selectedFiles)
      ensures request.None? ==> total == old(total) && succeeded == old(succeeded) && failed == old(failed)
      ensures request.Some? ==> total == old(total) + 1
      ensures request.Some? && DeploySucceeded(reply) ==> succeeded == old(succeeded) + 1 && failed == old(failed)
      ensures request.Some? && !DeploySucceeded(reply) ==> failed == old(failed) + 1 && succeeded == old(succeeded)
    {
      var siteName := Trim(siteNameInput);
      if siteName == "" {
        return None;
      }
      if |selectedFiles| == 0 {
        return None;
      }
      request := Some(FormRequest(siteName, fileType.Name(), selectedFiles));
      match reply
      case ConnectionFailed(_) =>
        failed := failed + 1;
        total := total + 1;
      case ServerJson(success, url, _) =>
        if success && Truthy(url) {
          succeeded := succeeded + 1;
          total := total + 1;
        } else {
          failed := failed + 1;
          total := total + 1;
        }
    }
  }
}
