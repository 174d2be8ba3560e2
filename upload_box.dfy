/**
 * The upload box of the dashboard: a file chosen in the file dialog, dropped
 * on the box or pasted while the box has focus is validated (one of three
 * image types, at most 10 MiB) and, when valid, handed to the `onFileUpload`
 * callback. The box keeps its error message, focus and drag-over state.
 */
module UploadBoxComponent {
  import opened Common
  import opened Text

  /** What the handlers read of a browser `File`. */
  datatype UploadFile = UploadFile(name: string, fileType: string, size: nat)

  /** A clipboard item: its MIME type and what `getAsFile()` returns (`null` as `None`). */
  datatype ClipboardItem = ClipboardItem(itemType: string, file: Option<UploadFile>)

  const AllowedTypes: seq<string> := ["image/jpeg", "image/png", "image/webp"]
  const MaxFileSize: nat := 10 * 1024 * 1024

  /** `t.split('/')[1]`, or the whole string when there is no `/` (where JavaScript would give `undefined`). */
  function Subtype(t: string): string
  {
    var parts := SplitOn(t, {'/'});
    if |parts| >= 2 then parts[1] else t
  }

  /** The message for a file of the wrong type, built from the allowed types. */
  function TypeErrorMessage(): string
  {
    var subtypes := seq(|AllowedTypes|, i requires 0 <= i < |AllowedTypes| => Subtype(AllowedTypes[i]));
    "Invalid file type. Please upload " + JoinWith(subtypes, ", ") + " images only."
  }

  const SizeErrorMessage := "File size too large. Please upload files smaller than 10MB."

  /** The error `validateFile` leaves for `file`, or `None` when the file is accepted. */
  function ValidationError(file: UploadFile): (r: Option<string>)
    ensures r.None? <==> file.fileType in AllowedTypes && file.size <= MaxFileSize
    ensures file.fileType !in AllowedTypes ==> r == Some(TypeErrorMessage())
    ensures file.fileType in AllowedTypes && file.size > MaxFileSize ==> r == Some(SizeErrorMessage)
  {
    if file.fileType !in AllowedTypes then Some(TypeErrorMessage())
    else if file.size > MaxFileSize then Some(SizeErrorMessage)
    else None
  }

  lemma SubtypeOfImageType(sub: string)
    requires '/' !in sub
    ensures Subtype("image/" + sub) == sub
  {
    SplitJoinWith(["image", sub], '/');
    assert JoinWith(["image", sub], "/") == "image/" + sub by {
      assert JoinWith(["image", sub][1..], "/") == sub;
    }
  }

  lemma SubtypeAt(i: nat)
    requires i < |AllowedTypes|
    ensures Subtype(AllowedTypes[i]) == ["jpeg", "png", "webp"][i]
  {
    var sub := ["jpeg", "png", "webp"][i];
    assert AllowedTypes[i] == "image/" + sub;
    SubtypeOfImageType(sub);
  }

  lemma AllowedSubtypes()
    ensures seq(|AllowedTypes|, i requires 0 <= i < |AllowedTypes| => Subtype(AllowedTypes[i])) == ["jpeg", "png", "webp"]
  {
    var subtypes := seq(|AllowedTypes|, i requires 0 <= i < |AllowedTypes| => Subtype(AllowedTypes[i]));
    forall i | 0 <= i < 3 ensures subtypes[i] == ["jpeg", "png", "webp"][i] {
      SubtypeAt(i);
    }
  }

  lemma JoinedSubtypes()
    ensures JoinWith(["jpeg", "png", "webp"], ", ") == "jpeg, png, webp"
  {
    var xs := ["jpeg", "png", "webp"];
    assert xs[1..][1..] == ["webp"];
    assert JoinWith(xs[1..], ", ") == "png, webp";
  }

  /** The type error names the three allowed subtypes. */
  lemma TypeErrorMessageText()
    ensures TypeErrorMessage() == "Invalid file type. Please upload " + "jpeg, png, webp" + " images only."
  {
    AllowedSubtypes();
    JoinedSubtypes();
  }

  /** The size limit is inclusive: exactly 10 MiB passes, one byte more does not. */
  lemma SizeLimitInclusive(name: string, fileType: string)
    requires fileType in AllowedTypes
    ensures ValidationError(UploadFile(name, fileType, 10485760)).None?
    ensures ValidationError(UploadFile(name, fileType, 10485761)) == Some(SizeErrorMessage)
  {
  }

  /** A file of the wrong type reports the type error even when it is also too large. */
  lemma TypeCheckedFirst(file: UploadFile)
    requires file.fileType !in AllowedTypes && file.size > MaxFileSize
    ensures ValidationError(file) == Some(TypeErrorMessage())
  {
  }

  /** Other image types, such as GIF, are refused. */
  lemma OnlyThreeTypes(file: UploadFile)
    ensures ValidationError(file).None? ==>
      file.fileType == "image/jpeg" || file.fileType == "image/png" || file.fileType == "image/webp"
    ensures file.fileType == "image/gif" ==> ValidationError(file).Some?
  {
  }

  /** The position of the first clipboard item whose type is allowed. */
  function FirstAllowedItem(items: seq<ClipboardItem>): (k: Option<nat>)
    ensures k.Some? ==>
      (k.value < |items| && items[k.value].itemType in AllowedTypes
       && forall j :: 0 <= j < k.value ==> items[j].itemType !in AllowedTypes)
    ensures k.None? ==> forall j :: 0 <= j < |items| ==> items[j].itemType !in AllowedTypes
  {
    if items == [] then None
    else if items[0].itemType in AllowedTypes then Some(0)
    else match FirstAllowedItem(items[1..])
      case None => None
      case Some(k) => Some(k + 1)
  }

  /**
   * The file a paste hands to validation: none unless the box has focus and
   * the clipboard has items; otherwise the file of the first item of an
   * allowed type, which may be missing, and later items are never looked at.
   */
  function PastedFile(focused: bool, items: Option<seq<ClipboardItem>>): Option<UploadFile>
  {
    if !focused || items.None? then None
    else match FirstAllowedItem(items.value)
      case None => None
      case Some(k) => items.value[k].file
  }

  /** Paste stops at the first allowed item even when it yields no file and a later one would. */
  lemma PasteStopsAtFirstAllowed(f: UploadFile)
    ensures PastedFile(true, Some([ClipboardItem("image/png", None), ClipboardItem("image/jpeg", Some(f))])) == None
  {
    assert "image/png" == AllowedTypes[1];
  }

  /** Paste does nothing while the box does not have focus. */
  lemma PasteNeedsFocus(items: Option<seq<ClipboardItem>>)
    ensures PastedFile(false, items) == None
  {
  }

  /** Items of other types are skipped until one of an allowed type. */
  lemma PasteSkipsOtherTypes(f: UploadFile)
    ensures PastedFile(true, Some([ClipboardItem("text/plain", None), ClipboardItem("image/png", Some(f))])) == Some(f)
  {
    var a := [ClipboardItem("text/plain", None), ClipboardItem("image/png", Some(f))];
    assert "text/plain" != AllowedTypes[0] && "text/plain" != AllowedTypes[1] && "text/plain" != AllowedTypes[2];
    assert a[0].itemType !in AllowedTypes && a[1].itemType == AllowedTypes[1];
    FirstAllowedIsUnique(a, 1);
  }

  /** The files handed to `onFileUpload` after `file` is selected: it is added exactly when it is valid. */
  function Selected(uploads: seq<UploadFile>, file: UploadFile): (r: seq<UploadFile>)
    ensures ValidationError(file).None? ==> r == uploads + [file]
    ensures ValidationError(file).Some? ==> r == uploads
  {
    uploads + (if ValidationError(file).None? then [file] else [])
  }

  class UploadBox {
    var dragOver: bool
    var error: Option<string>
    var isFocused: bool
    /** The files handed to `onFileUpload`, in order. */
    var uploads: seq<UploadFile>

    constructor()
      ensures !dragOver && error.None? && !isFocused && uploads == []
    {
      dragOver := false;
      error := None;
      isFocused := false;
      uploads := [];
    }

    /** `validateFile`: clears the previous error, then checks the type and after it the size. */
    method ValidateFile(file: UploadFile) returns (ok: bool)
      modifies this
      ensures ok <==> ValidationError(file).None?
      ensures error == ValidationError(file)
      ensures dragOver == old(dragOver) && isFocused == old(isFocused) && uploads == old(uploads)
    {
      error := None;
      if file.fileType !in AllowedTypes {
        error := Some(TypeErrorMessage());
        return false;
      }
      if file.size > MaxFileSize {
        error := Some(SizeErrorMessage);
        return false;
      }
      return true;
    }

    /** `handleFileSelect`: the file goes to `onFileUpload` exactly when it is valid. */
    method HandleFileSelect(file: UploadFile)
      modifies this
      ensures error == ValidationError(file)
      ensures uploads == Selected(old(uploads), file)
      ensures dragOver == old(dragOver) && isFocused == old(isFocused)
    {
      var ok := ValidateFile(file);
      if ok {
        uploads := uploads + [file];
      }
    }

    /** `handleFileUpload`: only the first chosen file is considered. */
    method HandleFileUpload(files: Option<seq<UploadFile>>)
      modifies this
      ensures files.None? || files.value == [] ==> error == old(error) && uploads == old(uploads)
      ensures files.Some? && files.value != [] ==>
        error == ValidationError(files.value[0])
        && uploads == Selected(old(uploads), files.value[0])
      ensures dragOver == old(dragOver) && isFocused == old(isFocused)
    {
      if files.Some? && files.value != [] {
        HandleFileSelect(files.value[0]);
      }
    }

    /** `handleDrop`: the highlight goes off, and only the first dropped file is considered. */
    method HandleDrop(files: Option<seq<UploadFile>>)
      modifies this
      ensures !dragOver
      ensures files.None? || files.value == [] ==> error == old(error) && uploads == old(uploads)
      ensures files.Some? && files.value != [] ==>
        error == ValidationError(files.value[0])
        && uploads == Selected(old(uploads), files.value[0])
      ensures isFocused == old(isFocused)
    {
      dragOver := false;
      if files.Some? && files.value != [] {
        HandleFileSelect(files.value[0]);
      }
    }

    method HandleDragOver()
      modifies this
      ensures dragOver
      ensures error == old(error) && isFocused == old(isFocused) && uploads == old(uploads)
    {
      dragOver := true;
    }

    /** `handleDragLeave`: the highlight goes off only when the pointer leaves the box itself. */
    method HandleDragLeave(leavesBox: bool)
      modifies this
      ensures dragOver == (old(dragOver) && !leavesBox)
      ensures error == old(error) && isFocused == old(isFocused) && uploads == old(uploads)
    {
      if leavesBox {
        dragOver := false;
      }
    }

    /** `handlePaste`: ignored without focus; otherwise the first item of an allowed type decides. */
    method HandlePaste(items: Option<seq<ClipboardItem>>)
      modifies this
      ensures PastedFile(old(isFocused), items).None? ==> error == old(error) && uploads == old(uploads)
      ensures PastedFile(old(isFocused), items).Some? ==>
        error == ValidationError(PastedFile(old(isFocused), items).value)
        && uploads == Selected(old(uploads), PastedFile(old(isFocused), items).value)
      ensures dragOver == old(dragOver) && isFocused == old(isFocused)
    {
      if !isFocused {
        return;
      }
      if items.Some? {
        var list := items.value;
        var i := 0;
        while i < |list|
          invariant 0 <= i <= |list|
          invariant forall k :: 0 <= k < i ==> list[k].itemType !in AllowedTypes
          invariant error == old(error) && uploads == old(uploads)
          invariant dragOver == old(dragOver) && isFocused == old(isFocused)
        {
          if list[i].itemType in AllowedTypes {
            FirstAllowedIsUnique(list, i);
            var file := list[i].file;
            if file.Some? {
              HandleFileSelect(file.value);
            }
            break;
          }
          i := i + 1;
        }
      }
    }

    method Focus()
      modifies this
      ensures isFocused
      ensures dragOver == old(dragOver) && error == old(error) && uploads == old(uploads)
    {
      isFocused := true;
    }

    method Blur()
      modifies this
      ensures !isFocused
      ensures dragOver == old(dragOver) && error == old(error) && uploads == old(uploads)
    {
      isFocused := false;
    }
  }

  /** An allowed item with no allowed item before it is the one `FirstAllowedItem` finds. */
  lemma {:induction false} FirstAllowedIsUnique(items: seq<ClipboardItem>, i: nat)
    requires i < |items| && items[i].itemType in AllowedTypes
    requires forall k :: 0 <= k < i ==> items[k].itemType !in AllowedTypes
    ensures FirstAllowedItem(items) == Some(i)
  {
    if i > 0 {
      assert items[0].itemType !in AllowedTypes;
      FirstAllowedIsUnique(items[1..], i - 1);
    }
  }
}
