/**
 * The gallery editor of the admin client: the files picked for upload,
 * the existing images marked for removal, the images on display and the
 * current removal selection (a JavaScript `Set`, kept here as a sequence
 * without duplicates in insertion order). The upload request itself is
 * an oracle: the caller says whether it succeeded.
 */
module AddGallery {
  import opened Wrappers

  /** At most this many images per product. */
  const MaxImages: nat := 5

  const TooManyImages: string := "You can upload a maximum of 5 images."
  const NothingToSave: string := "Please select at least one image or remove an existing image."

  /** What is posted: the picked files and the list of images to remove. */
  datatype GalleryRequest = GalleryRequest(images: seq<string>, imagesToRemove: seq<string>)

  predicate NoDuplicates(s: seq<string>) {
    forall i, j :: 0 <= i < j < |s| ==> s[i] != s[j]
  }

  /** The number of images of the loaded product; 0 while it is not loaded. */
  function ExistingCount(product: Option<seq<string>>): nat {
    if product.Some? then |product.value| else 0
  }

  /** `s` without the element at `index`; unchanged when the index is out of range. */
  function RemoveAt(s: seq<string>, index: int): (r: seq<string>)
    ensures 0 <= index < |s| ==> r == s[..index] + s[index + 1..]
    ensures !(0 <= index < |s|) ==> r == s
  {
    if |s| == 0 then []
    else if index == 0 then s[1..]
    else [s[0]] + RemoveAt(s[1..], index - 1)
  }

  /** The elements of `s` that are not in `excluded`, in their order in `s`. */
  function FilterOut(s: seq<string>, excluded: seq<string>): (r: seq<string>)
    ensures |r| <= |s|
    ensures forall y :: y in r <==> y in s && y !in excluded
    ensures NoDuplicates(s) ==> NoDuplicates(r)
    ensures (forall y :: y in s ==> y !in excluded) ==> r == s
  {
    if |s| == 0 then []
    else if s[0] in excluded then FilterOut(s[1..], excluded)
    else [s[0]] + FilterOut(s[1..], excluded)
  }

  /**
   * Filtering keeps the order and the multiplicity of what stays: one more
   * element at the end is kept at the end unless it is excluded.
   */
  lemma {:induction false} FilterOutSnoc(s: seq<string>, x: string, excluded: seq<string>)
    ensures FilterOut(s + [x], excluded) == FilterOut(s, excluded) + (if x in excluded then [] else [x])
  {
    if |s| == 0 {
      assert s + [x] == [x];
      assert FilterOut([x], excluded) == (if x in excluded then [] else [x]) + FilterOut([], excluded);
    } else {
      assert (s + [x])[0] == s[0];
      assert (s + [x])[1..] == s[1..] + [x];
      FilterOutSnoc(s[1..], x, excluded);
    }
  }

  /** Filtering an appended excluded element drops exactly it. */
  lemma {:induction false} FilterOutAppend(s: seq<string>, x: string)
    requires x !in s
    ensures FilterOut(s + [x], [x]) == s
  {
    if |s| == 0 {
    } else {
      assert (s + [x])[0] == s[0];
      assert (s + [x])[1..] == s[1..] + [x];
      FilterOutAppend(s[1..], x);
    }
  }

  /** The removal selection after clicking an image: removed when selected, appended otherwise. */
  function Toggled(selection: seq<string>, image: string): (r: seq<string>)
    ensures forall y :: y in r <==> (y in selection) != (y == image)
    ensures NoDuplicates(selection) ==> NoDuplicates(r)
  {
    if image in selection then FilterOut(selection, [image]) else selection + [image]
  }

  /**
   * Clicking the same image twice restores the selection as a set, and
   * restores it exactly when the image was not selected before.
   */
  lemma {:induction false} ToggleTwice(selection: seq<string>, image: string)
    ensures forall y :: y in Toggled(Toggled(selection, image), image) <==> y in selection
    ensures image !in selection ==> Toggled(Toggled(selection, image), image) == selection
  {
    if image !in selection {
      FilterOutAppend(selection, image);
    }
  }

  /**
   * The save button is disabled when nothing is picked, nothing is
   * pending removal and the display holds no more images than the
   * product; a comparison with a product not yet loaded is false.
   */
  function SaveDisabled(selected: seq<string>, toRemove: seq<string>, display: seq<string>,
                        product: Option<seq<string>>): (disabled: bool)
    ensures disabled <==>
      |selected| == 0 && |toRemove| == 0 && !(product.Some? && |display| > |product.value|)
    ensures disabled ==> |selected| == 0 && |toRemove| == 0
  {
    !(|selected| > 0 || |toRemove| > 0 || (product.Some? && |display| > |product.value|)
      || |toRemove| > 0)
  }

  /**
   * While the display shows no more images than the product has, the
   * button is enabled exactly when an upload would pass its own guard.
   */
  lemma SaveEnabledIffUploadGuard(selected: seq<string>, toRemove: seq<string>, display: seq<string>,
                                  product: Option<seq<string>>)
    requires product.None? || |display| <= |product.value|
    ensures !SaveDisabled(selected, toRemove, display, product) <==> !(|selected| == 0 && |toRemove| == 0)
  {
  }

  class GalleryForm {
    /** The images of the loaded product, `None` until it has loaded. */
    var product: Option<seq<string>>
    var selectedImages: seq<string>
    var imagesToRemove: seq<string>
    var displayImages: seq<string>
    /** The images marked for removal, in the order they were marked. */
    var selection: seq<string>
    var errors: map<string, string>
    var notice: Notice

    /** The selection is a set. */
    ghost predicate Valid()
      reads this
    {
      NoDuplicates(selection)
    }

    /** Picked files plus existing images minus pending removals stay within the bound. */
    ghost predicate Bounded()
      reads this
    {
      |selectedImages| + ExistingCount(product) - |imagesToRemove| <= MaxImages
    }

    constructor (product: Option<seq<string>>)
      ensures Valid()
      ensures this.product == product && selectedImages == [] && imagesToRemove == [] && selection == []
      ensures displayImages == (if product.Some? then product.value else [])
      ensures errors == map[] && notice == Closed
    {
      this.product := product;
      selectedImages := [];
      imagesToRemove := [];
      displayImages := if product.Some? then product.value else [];
      selection := [];
      errors := map[];
      notice := Closed;
    }

    /** The product (re)loads: the display follows its images. */
    method Load(images: seq<string>)
      modifies this
      ensures product == Some(images) && displayImages == images
      ensures selectedImages == old(selectedImages) && imagesToRemove == old(imagesToRemove)
      ensures selection == old(selection) && errors == old(errors) && notice == old(notice)
    {
      product := Some(images);
      displayImages := images;
    }

    /** Files are picked: refused with an error when they would exceed the bound, appended otherwise. */
    method ImageChange(files: seq<string>)
      modifies this
      ensures |files| + |old(selectedImages)| + ExistingCount(product) - |imagesToRemove| > MaxImages ==>
        errors == map["image" := TooManyImages] && selectedImages == old(selectedImages)
      ensures |files| + |old(selectedImages)| + ExistingCount(product) - |imagesToRemove| <= MaxImages ==>
        errors == map[] && selectedImages == old(selectedImages) + files && Bounded()
      ensures old(Bounded()) ==> Bounded()
      ensures product == old(product) && imagesToRemove == old(imagesToRemove)
      ensures displayImages == old(displayImages) && selection == old(selection) && notice == old(notice)
    {
      if |files| + |selectedImages| + ExistingCount(product) - |imagesToRemove| > MaxImages {
        errors := map["image" := TooManyImages];
        return;
      }
      errors := map[];
      selectedImages := selectedImages + files;
    }

    /** A picked file is dropped by its position. */
    method RemoveImage(index: int)
      modifies this
      ensures selectedImages == RemoveAt(old(selectedImages), index)
      ensures old(Bounded()) ==> Bounded()
      ensures product == old(product) && imagesToRemove == old(imagesToRemove) && errors == old(errors)
      ensures displayImages == old(displayImages) && selection == old(selection) && notice == old(notice)
    {
      selectedImages := RemoveAt(selectedImages, index);
    }

    /** An existing image is marked or unmarked for removal. */
    method ToggleSelect(image: string)
      requires Valid()
      modifies this
      ensures Valid()
      ensures selection == Toggled(old(selection), image)
      ensures product == old(product) && selectedImages == old(selectedImages)
      ensures imagesToRemove == old(imagesToRemove) && displayImages == old(displayImages)
      ensures errors == old(errors) && notice == old(notice)
    {
      selection := Toggled(selection, image);
    }

    /** The marked images move to the pending removals and leave the display; the selection empties. */
    method RemoveSelected()
      requires Valid()
      modifies this
      ensures Valid() && selection == []
      ensures imagesToRemove == old(imagesToRemove) + old(selection)
      ensures displayImages == FilterOut(old(displayImages), old(selection))
      ensures forall y :: y in displayImages <==> y in old(displayImages) && y !in old(selection)
      ensures old(Bounded()) ==> Bounded()
      ensures product == old(product) && selectedImages == old(selectedImages)
      ensures errors == old(errors) && notice == old(notice)
    {
      imagesToRemove := imagesToRemove + selection;
      displayImages := FilterOut(displayImages, selection);
      selection := [];
    }

    /**
     * Save: refused with an error when nothing is picked and nothing is
     * pending removal; otherwise the request is sent and, when it
     * succeeds, the picked files and the pending removals are cleared and
     * the removed images leave the display.
     */
    method ImageUpload(succeeded: bool) returns (request: Option<GalleryRequest>)
      requires Valid()
      modifies this
      ensures Valid()
      ensures old(selectedImages) == [] && old(imagesToRemove) == [] ==>
        request.None? && errors == map["image" := NothingToSave]
        && selectedImages == old(selectedImages) && imagesToRemove == old(imagesToRemove)
        && displayImages == old(displayImages) && notice == old(notice)
      ensures !(old(selectedImages) == [] && old(imagesToRemove) == []) ==>
        request == Some(GalleryRequest(old(selectedImages), old(imagesToRemove))) && errors == old(errors)
      ensures request.Some? && succeeded ==>
        selectedImages == [] && imagesToRemove == []
        && displayImages == FilterOut(old(displayImages), old(imagesToRemove))
        && notice == Open("Images successfully uploaded.", true)
      ensures request.Some? && !succeeded ==>
        selectedImages == old(selectedImages) && imagesToRemove == old(imagesToRemove)
        && displayImages == old(displayImages)
        && notice == Open("An error occurred while uploading images.", false)
      ensures product == old(product) && selection == old(selection)
    {
      if |selectedImages| == 0 && |imagesToRemove| == 0 {
        errors := map["image" := NothingToSave];
        return None;
      }
      request := Some(GalleryRequest(selectedImages, imagesToRemove));
      if succeeded {
        notice := Open("Images successfully uploaded.", true);
        var removed := imagesToRemove;
        selectedImages := [];
        imagesToRemove := [];
        displayImages := FilterOut(displayImages, removed);
      } else {
        notice := Open("An error occurred while uploading images.", false);
      }
    }

    /** The save button's state for the current form. */
    function SaveButtonDisabled(): (disabled: bool)
      reads this
      ensures disabled ==> selectedImages == [] && imagesToRemove == []
    {
      SaveDisabled(selectedImages, imagesToRemove, displayImages, product)
    }
  }
}
