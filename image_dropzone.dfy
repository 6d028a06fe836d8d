/**
 * The multi-image picker of the project editor: a list of image URLs
 * (data URLs for uploaded files) capped at `maxImages`, grown by typing a
 * URL or dropping files, shrunk by removing one, and reordered by dragging
 * one image over another.
 */
module ImageDropzone {
  import opened Wrappers
  import Text

  /** `maxImages = 10` */
  const DefaultMaxImages := 10

  // ------------------------------------------------------------- removal

  /** `images.filter((_, i) => i !== index)`: the list without position
      `index`; an index outside the list removes nothing. */
  function RemoveAt<T>(s: seq<T>, index: int): (r: seq<T>)
    ensures !(0 <= index < |s|) ==> r == s
    ensures 0 <= index < |s| ==>
              |r| == |s| - 1 && forall k :: 0 <= k < |r| ==> r[k] == if k < index then s[k] else s[k + 1]
  {
    if 0 <= index < |s| then s[..index] + s[index + 1..] else s
  }

  /** `newImages.splice(index, 0, x)`: `x` put at `index`, the rest shifted. */
  function InsertAt<T>(s: seq<T>, index: int, x: T): (r: seq<T>)
    requires 0 <= index <= |s|
    ensures |r| == |s| + 1 && r[index] == x
    ensures forall k :: 0 <= k < |r| && k != index ==> r[k] == if k < index then s[k] else s[k - 1]
  {
    s[..index] + [x] + s[index..]
  }

  /** Putting a removed element back where it was restores the list. */
  lemma InsertRemoved<T>(s: seq<T>, index: int)
    requires 0 <= index < |s|
    ensures InsertAt(RemoveAt(s, index), index, s[index]) == s
  {
    var r := InsertAt(RemoveAt(s, index), index, s[index]);
    assert forall k :: 0 <= k < |s| ==> r[k] == s[k];
  }

  /** Removing what was just inserted gives the list back. */
  lemma RemoveInserted<T>(s: seq<T>, index: int, x: T)
    requires 0 <= index <= |s|
    ensures RemoveAt(InsertAt(s, index, x), index) == s
  {
    var r := RemoveAt(InsertAt(s, index, x), index);
    assert forall k :: 0 <= k < |s| ==> r[k] == s[k];
  }

  // ------------------------------------------------------------- reorder

  /** The reorder of `handleImageDragOver`: the image at `from` is taken
      out and put back at `to`. */
  function Move<T>(s: seq<T>, from: int, to: int): (r: seq<T>)
    requires 0 <= from < |s| && 0 <= to < |s|
    ensures |r| == |s| && r[to] == s[from]
  {
    InsertAt(RemoveAt(s, from), to, s[from])
  }

  /** Removing a position takes exactly its element out of the multiset. */
  lemma RemoveAtMultiset<T>(s: seq<T>, index: int)
    requires 0 <= index < |s|
    ensures multiset(RemoveAt(s, index)) + multiset{s[index]} == multiset(s)
  {
    assert s == s[..index] + [s[index]] + s[index + 1..];
  }

  /** Inserting adds exactly the inserted element to the multiset. */
  lemma InsertAtMultiset<T>(s: seq<T>, index: int, x: T)
    requires 0 <= index <= |s|
    ensures multiset(InsertAt(s, index, x)) == multiset(s) + multiset{x}
  {
    assert s == s[..index] + s[index..];
  }

  /** A move reorders and neither loses nor duplicates an image. */
  lemma MoveIsPermutation<T>(s: seq<T>, from: int, to: int)
    requires 0 <= from < |s| && 0 <= to < |s|
    ensures multiset(Move(s, from, to)) == multiset(s)
  {
    RemoveAtMultiset(s, from);
    InsertAtMultiset(RemoveAt(s, from), to, s[from]);
  }

  /** Dragging the image back to where it came from undoes the move. */
  lemma MoveBack<T>(s: seq<T>, from: int, to: int)
    requires 0 <= from < |s| && 0 <= to < |s|
    ensures Move(Move(s, from, to), to, from) == s
  {
    RemoveInserted(RemoveAt(s, from), to, s[from]);
    InsertRemoved(s, from);
  }

  // --------------------------------------------------------------- files

  /** A dropped or chosen file: its MIME type and the data URL the reader
      produces for it. */
  datatype File = File(mimeType: string, dataUrl: string)

  /** `file.type.startsWith("image/")` */
  predicate IsImage(f: File)
  {
    |f.mimeType| >= 6 && f.mimeType[..6] == "image/"
  }

  /** The data URLs of the image files among `files`, in order. */
  function ImageUrls(files: seq<File>): (r: seq<string>)
    ensures |r| <= |files|
    ensures forall u :: u in r ==> exists f :: f in files && IsImage(f) && f.dataUrl == u
  {
    if |files| == 0 then []
    else
      var init := ImageUrls(files[..|files| - 1]);
      var last := files[|files| - 1];
      assert forall f :: f in files[..|files| - 1] ==> f in files;
      if IsImage(last) then init + [last.dataUrl] else init
  }

  /** The end `Array.prototype.slice(0, end)` stops at on a list of length
      `n`: a negative end counts back from the end of the list. */
  function JsSliceEnd(n: nat, end: int): (r: nat)
    ensures r <= n
    ensures end >= 0 ==> r == if end < n then end else n
  {
    if end < 0 then (if n + end < 0 then 0 else n + end)
    else if end < n then end
    else n
  }

  /** `files.slice(0, maxImages - images.length)`: a prefix of the files,
      as many as there are free slots when there are fewer files than that. */
  function FilesToProcess(files: seq<File>, remainingSlots: int): (r: seq<File>)
    ensures |r| <= |files| && r == files[..|r|]
    ensures remainingSlots >= 0 ==> |r| == if remainingSlots < |files| then remainingSlots else |files|
  {
    files[..JsSliceEnd(|files|, remainingSlots)]
  }

  /** Every `reader.onload` of one batch calls `onImagesChange` with the
      list captured when the batch started plus its own URL, so the batch
      leaves the captured list plus the last URL read. */
  function StaleBatch(captured: seq<string>, urls: seq<string>): (r: seq<string>)
    ensures |r| <= |captured| + 1
  {
    if |urls| == 0 then captured else captured + [urls[|urls| - 1]]
  }

  /** Two image files in one drop keep only the second. */
  lemma StaleBatchDropsImages(captured: seq<string>, a: string, b: string)
    ensures StaleBatch(captured, [a, b]) == captured + [b]
    ensures StaleBatch(captured, [a, b]) != captured + [a, b]
  {
    assert |captured + [b]| != |captured + [a, b]|;
  }

  // --------------------------------------------------------------- state

  /** The picker's state; `images` is the parent's list, which
      `onImagesChange` replaces. */
  class Dropzone {
    const maxImages: int
    var images: seq<string>
    var isDragging: bool
    var urlInput: string
    var draggedIndex: Option<int>

    constructor(initial: seq<string>, max: int)
      ensures images == initial && maxImages == max
      ensures !isDragging && urlInput == "" && draggedIndex == None
    {
      maxImages := max;
      images := initial;
      isDragging := false;
      urlInput := "";
      draggedIndex := None;
    }

    /** `canAddMore`: the URL field and the file picker are enabled. */
    predicate CanAddMore()
      reads this
    {
      |images| < maxImages
    }

    /** `handleUrlAdd`: the trimmed URL is appended when it is not blank and
        there is room, and the field is then cleared; otherwise nothing
        changes. An append never takes the list past the cap. */
    method HandleUrlAdd()
      modifies this
      ensures if Text.Trim(old(urlInput)) != "" && old(CanAddMore()) then
                images == old(images) + [Text.Trim(old(urlInput))] && urlInput == ""
              else
                images == old(images) && urlInput == old(urlInput)
      ensures |images| > old(|images|) ==> |images| <= maxImages
      ensures isDragging == old(isDragging) && draggedIndex == old(draggedIndex)
    {
      var url := Text.Trim(urlInput);
      if url != "" && |images| < maxImages {
        images := images + [url];
        urlInput := "";
      }
    }

    /** `handleRemoveImage` */
    method HandleRemoveImage(index: int)
      modifies this
      ensures images == RemoveAt(old(images), index)
      ensures isDragging == old(isDragging) && urlInput == old(urlInput) && draggedIndex == old(draggedIndex)
    {
      images := RemoveAt(images, index);
    }

    /** `handleImageDragStart` */
    method HandleImageDragStart(index: int)
      modifies this
      ensures draggedIndex == Some(index)
      ensures images == old(images) && isDragging == old(isDragging) && urlInput == old(urlInput)
    {
      draggedIndex := Some(index);
    }

    /** `handleImageDragEnd` */
    method HandleImageDragEnd()
      modifies this
      ensures draggedIndex == None
      ensures images == old(images) && isDragging == old(isDragging) && urlInput == old(urlInput)
    {
      draggedIndex := None;
    }

    /** `handleImageDragOver`: with no drag under way, or over the dragged
        image itself, nothing happens; otherwise the dragged image moves to
        `index` and the drag continues from there. Both positions are
        positions of rendered images. */
    method HandleImageDragOver(index: int)
      requires 0 <= index < |images|
      requires draggedIndex.Some? ==> 0 <= draggedIndex.value < |images|
      modifies this
      ensures if old(draggedIndex).None? || old(draggedIndex) == Some(index) then
                images == old(images) && draggedIndex == old(draggedIndex)
              else
                images == Move(old(images), old(draggedIndex).value, index) && draggedIndex == Some(index)
      ensures multiset(images) == multiset(old(images))
      ensures isDragging == old(isDragging) && urlInput == old(urlInput)
    {
      if draggedIndex.None? || draggedIndex == Some(index) {
        return;
      }
      var from := draggedIndex.value;
      MoveIsPermutation(images, from, index);
      var newImages := images;
      var draggedImage := newImages[from];
      newImages := RemoveAt(newImages, from);
      newImages := InsertAt(newImages, index, draggedImage);
      draggedIndex := Some(index);
      images := newImages;
    }

    /** `handleFiles` as written: every reader completes against the list
        captured when the batch started; readers are taken to complete in
        file order. The drop zone and the file input that call it are only
        rendered while `canAddMore` holds. */
    method HandleFilesAsWritten(files: seq<File>)
      requires CanAddMore()
      modifies this
      ensures images == StaleBatch(old(images), ImageUrls(FilesToProcess(files, maxImages - |old(images)|)))
      ensures |images| <= maxImages
      ensures isDragging == old(isDragging) && urlInput == old(urlInput) && draggedIndex == old(draggedIndex)
    {
      var captured := images;
      var filesToProcess := FilesToProcess(files, maxImages - |images|);
      var latest := captured;
      ghost var urls: seq<string> := [];
      var i := 0;
      while i < |filesToProcess|
        invariant 0 <= i <= |filesToProcess|
        invariant urls == ImageUrls(filesToProcess[..i])
        invariant latest == StaleBatch(captured, urls)
      {
        assert filesToProcess[..i + 1][..i] == filesToProcess[..i];
        var file := filesToProcess[i];
        if IsImage(file) {
          latest := captured + [file.dataUrl];
          urls := urls + [file.dataUrl];
        }
        i := i + 1;
      }
      assert filesToProcess[..i] == filesToProcess;
      images := latest;
    }

    /** `handleFiles` as intended: the image files among the free slots'
        worth of files are all appended, in order, and the list never grows
        past the cap. Called, like the version above, only while
        `canAddMore` holds. */
    method HandleFiles(files: seq<File>)
      requires CanAddMore()
      modifies this
      ensures images == old(images) + ImageUrls(FilesToProcess(files, maxImages - |old(images)|))
      ensures |images| <= maxImages
      ensures isDragging == old(isDragging) && urlInput == old(urlInput) && draggedIndex == old(draggedIndex)
    {
      var filesToProcess := FilesToProcess(files, maxImages - |images|);
      var newImages := images;
      var i := 0;
      while i < |filesToProcess|
        invariant 0 <= i <= |filesToProcess|
        invariant newImages == images + ImageUrls(filesToProcess[..i])
      {
        assert filesToProcess[..i + 1][..i] == filesToProcess[..i];
        var file := filesToProcess[i];
        if IsImage(file) {
          newImages := newImages + [file.dataUrl];
        }
        i := i + 1;
      }
      assert filesToProcess[..i] == filesToProcess;
      images := newImages;
    }
  }
}
