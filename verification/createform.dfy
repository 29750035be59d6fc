/** The batch creation dialog: its initial form, the image list it builds from uploads and
    removals, and the request body it submits. */
module CreateForm {
  import opened Wrappers
  import opened Seqs
  import opened Batches
  import opened Upload

  /** The text fields of the dialog. */
  datatype Form = Form(title: string, variety: string, quantity: string, unit: string, harvestDate: string, location: string)

  /** The dialog opens with every field empty except the unit, which is `kg`, and with no images. */
  const InitialForm := Form("", "", "", "kg", "", "")
  const InitialImages: seq<string> := []

  /** `removeImage`: keep every image whose position differs from `index`. */
  function RemoveImage(images: seq<string>, index: int): (r: seq<string>)
    ensures 0 <= index < |images| ==> |r| == |images| - 1
    ensures 0 <= index < |images| ==>
      (forall j :: 0 <= j < index ==> r[j] == images[j]) &&
      (forall j :: index <= j < |r| ==> r[j] == images[j + 1])
    ensures !(0 <= index < |images|) ==> r == images
  {
    WithoutIndex(images, index)
  }

  /** The position filter as the dialog writes it: walk the list, comparing each position with
      `index`. */
  function KeepOtherPositions(images: seq<string>, index: int, position: int): seq<string>
    decreases |images|
  {
    if |images| == 0 then []
    else (if position == index then [] else [images[0]]) + KeepOtherPositions(images[1..], index, position + 1)
  }

  /** Removing by slicing agrees with the position filter. */
  lemma {:induction false} RemoveImageIsPositionFilter(images: seq<string>, index: int)
    ensures RemoveImage(images, index) == KeepOtherPositions(images, index, 0)
  {
    ShiftedFilter(images, index, 0);
  }

  lemma {:induction false} ShiftedFilter(images: seq<string>, index: int, position: int)
    ensures KeepOtherPositions(images, index, position) == WithoutIndex(images, index - position)
    decreases |images|
  {
    if |images| > 0 {
      ShiftedFilter(images[1..], index, position + 1);
      var k := index - position;
      if 0 <= k < |images| {
        if k == 0 {
          assert WithoutIndex(images, k) == images[1..];
          assert WithoutIndex(images[1..], k - 1) == images[1..];
        } else {
          assert WithoutIndex(images[1..], k - 1) == images[1..][..k - 1] + images[1..][k..];
          assert images[..k] == [images[0]] + images[1..][..k - 1];
          assert images[k + 1..] == images[1..][k..];
        }
      } else {
        assert WithoutIndex(images[1..], k - 1) == images[1..];
        assert images == [images[0]] + images[1..];
      }
    }
  }

  /** The URLs the upload route reported, in order. */
  function Urls(stored: seq<Stored>): (r: seq<string>)
    ensures |r| == |stored| && forall i :: 0 <= i < |stored| ==> r[i] == stored[i].url
  {
    seq(|stored|, i requires 0 <= i < |stored| => stored[i].url)
  }

  /** A finished upload appends its URLs after the images already chosen. */
  function AppendUploaded(images: seq<string>, stored: seq<Stored>): (r: seq<string>)
    ensures |r| == |images| + |stored|
    ensures r[..|images|] == images
    ensures forall i :: 0 <= i < |stored| ==> r[|images| + i] == stored[i].url
  {
    images + Urls(stored)
  }

  /** The body the dialog submits: the form fields as they are, the parsed quantity, and the
      current image list. */
  function CreateBody(form: Form, images: seq<string>, quantity: int): (req: CreateRequest)
    ensures req.images == Some(images)
    ensures req.title == Some(form.title) && req.unit == Some(form.unit) && req.quantity == Some(quantity as real)
    ensures req.variety == Some(form.variety) && req.harvestDate == Some(form.harvestDate) && req.location == Some(form.location)
  {
    CreateRequest(Some(form.title), Some(form.variety), Some(quantity as real), Some(form.unit), Some(form.harvestDate),
                  Some(form.location), Some(images))
  }

  /** Submitting the untouched dialog fails on the empty title. */
  lemma UntouchedFormRejected(quantity: int)
    ensures CreateSchemaError(CreateBody(InitialForm, InitialImages, quantity)) == Some("Title is required")
  {
  }
}
