/** The image uploader: validates a chosen or dropped file (image type
    first, then the 10 MiB bound), shows the reason of a rejection, mints a
    preview URL for an accepted file and revokes the selected file's URL when
    the selection is cleared. The browser's object-URL registry is
    represented by a counter of URLs minted so far, a ghost set of every URL
    handed out and a ghost set of the URLs that are still live. */
module FileUploader {

  import opened Types
  import opened Strings

  /** The size bound: 10 MiB, inclusive. */
  const MaxFileSize: nat := 10 * 1024 * 1024

  const ImagePrefix := "image/"
  const TypeErrorMessage := "Please upload an image file (JPG, PNG, WEBP)."
  const SizeErrorMessage := "File size too large. Maximum size is 10MB."

  /** The error `handleFile` leaves displayed for `file`; `None` when the
      file is accepted. */
  function Validate(file: File): (e: Option<string>)
    ensures e.None? <==> StartsWith(file.fileType, ImagePrefix) && file.size <= MaxFileSize
    ensures !StartsWith(file.fileType, ImagePrefix) ==> e == Some(TypeErrorMessage)
    ensures StartsWith(file.fileType, ImagePrefix) && file.size > MaxFileSize
            ==> e == Some(SizeErrorMessage)
  {
    if !StartsWith(file.fileType, ImagePrefix) then Some(TypeErrorMessage)
    else if file.size > MaxFileSize then Some(SizeErrorMessage)
    else None
  }

  /** The bound is inclusive: an image of exactly 10485760 bytes passes and
      one byte more is too large. */
  lemma SizeBoundary(fileType: string, name: string)
    requires StartsWith(fileType, ImagePrefix)
    ensures Validate(File(name, fileType, 10485760)) == None
    ensures Validate(File(name, fileType, 10485761)) == Some(SizeErrorMessage)
  {
  }

  /** A file that is neither an image nor small enough reports the type
      error: the type check comes first. */
  lemma TypeCheckedFirst(file: File)
    requires !StartsWith(file.fileType, ImagePrefix) && file.size > MaxFileSize
    ensures Validate(file) == Some(TypeErrorMessage)
  {
  }

  /** A `text/plain` file is rejected as the wrong type, whatever its size. */
  lemma PlainTextRejected(name: string, size: nat)
    ensures Validate(File(name, "text/plain", size)) == Some(TypeErrorMessage)
  {
    assert "text/plain"[..|ImagePrefix|] != ImagePrefix by {
      assert "text/plain"[0] != ImagePrefix[0];
    }
  }

  /** Whether the uploader called its `onFileSelect` prop, and with what. */
  datatype Callback = NoCall | OnFileSelect(selection: Option<FileData>)

  class Uploader {
    /** The displayed error message, if any. */
    var error: Option<string>
    /** How many object URLs have been minted; the next one gets this id. */
    var minted: nat
    /** Every preview URL handed out so far. */
    ghost var issued: set<Url>
    /** The preview URLs minted and not yet revoked. */
    ghost var live: set<Url>

    ghost predicate Valid()
      reads this
    {
      && live <= issued
      && forall u :: u in issued ==> u.id < minted
    }

    constructor ()
      ensures Valid()
      ensures error == None && minted == 0 && issued == {} && live == {}
    {
      error := None;
      minted := 0;
      issued := {};
      live := {};
    }

    /** `URL.createObjectURL`: a URL never handed out before, now live. */
    method CreateObjectUrl() returns (u: Url)
      requires Valid()
      modifies this
      ensures Valid()
      ensures u !in old(issued) && issued == old(issued) + {u}
      ensures live == old(live) + {u}
      ensures minted == old(minted) + 1 && error == old(error)
    {
      u := BlobUrl(minted);
      minted := minted + 1;
      issued := issued + {u};
      live := live + {u};
    }

    /** `URL.revokeObjectURL`: the URL is no longer live. */
    method RevokeObjectUrl(u: Url)
      requires Valid()
      modifies this
      ensures Valid()
      ensures live == old(live) - {u}
      ensures issued == old(issued) && minted == old(minted) && error == old(error)
    {
      live := live - {u};
    }

    /** What `handleFile(file)` did, between the state before and after. */
    twostate predicate Handled(file: File, cb: Callback)
      reads this
    {
      && error == Validate(file)
      && minted >= old(minted)
      && (Validate(file).Some? ==>
            cb == NoCall && live == old(live) && issued == old(issued) && minted == old(minted))
      && (Validate(file).None? ==>
            && cb.OnFileSelect? && cb.selection.Some?
            && cb.selection.value.file == file
            && cb.selection.value.previewUrl !in old(issued)
            && issued == old(issued) + {cb.selection.value.previewUrl}
            && live == old(live) + {cb.selection.value.previewUrl})
    }

    /** `handleFile`: clear the error, reject a non-image, then reject an
        oversized file; otherwise mint one preview URL and report the file
        with it to `onFileSelect`. */
    method HandleFile(file: File) returns (cb: Callback)
      requires Valid()
      modifies this
      ensures Valid()
      ensures Handled(file, cb)
    {
      error := None;
      if !StartsWith(file.fileType, ImagePrefix) {
        error := Some(TypeErrorMessage);
        return NoCall;
      }
      if file.size > MaxFileSize {
        error := Some(SizeErrorMessage);
        return NoCall;
      }
      var previewUrl := CreateObjectUrl();
      cb := OnFileSelect(Some(FileData(file, previewUrl)));
    }

    /** `onDrop`: ignored while disabled or when nothing was dropped; only
        the first dropped file is handled. */
    method OnDrop(files: seq<File>, disabled: bool) returns (cb: Callback)
      requires Valid()
      modifies this
      ensures Valid()
      ensures disabled || files == [] ==> cb == NoCall && unchanged(this)
      ensures !disabled && files != [] ==> Handled(files[0], cb)
    {
      if disabled {
        return NoCall;
      }
      if |files| > 0 {
        cb := HandleFile(files[0]);
      } else {
        cb := NoCall;
      }
    }

    /** The file input's change handler: the first chosen file, if any, is
        handled. */
    method OnInputChange(files: seq<File>) returns (cb: Callback)
      requires Valid()
      modifies this
      ensures Valid()
      ensures files == [] ==> cb == NoCall && unchanged(this)
      ensures files != [] ==> Handled(files[0], cb)
    {
      if |files| > 0 {
        cb := HandleFile(files[0]);
      } else {
        cb := NoCall;
      }
    }

    /** `clearFile`: revoke the selected file's preview URL if a file is
        selected, then always report "no file". The error stays. */
    method ClearFile(selected: Option<FileData>) returns (cb: Callback)
      requires Valid()
      modifies this
      ensures Valid()
      ensures cb == OnFileSelect(None)
      ensures live == if selected.Some? then old(live) - {selected.value.previewUrl} else old(live)
      ensures issued == old(issued) && error == old(error) && minted == old(minted)
    {
      if selected.Some? {
        RevokeObjectUrl(selected.value.previewUrl);
      }
      cb := OnFileSelect(None);
    }
  }

  /** A client of the registry: a URL minted after another was revoked is
      still a new URL. */
  method RevokedUrlNotReissued(up: Uploader) returns (first: Url, second: Url)
    requires up.Valid()
    modifies up
    ensures up.Valid()
    ensures first != second && first !in up.live && second in up.live
  {
    first := up.CreateObjectUrl();
    up.RevokeObjectUrl(first);
    second := up.CreateObjectUrl();
  }
}
