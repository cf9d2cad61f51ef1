/**
 * The four-step product-creation wizard of
 * src/app/dashboard/products/new/page.tsx: the step counter, the collected
 * form data, the uploaded images and the error banner, updated in place by
 * the page's handlers. What the step forms hold when a handler reads them,
 * and what each upload request returns, are parameters.
 */
module NewProductPage {
  import opened Common
  import Validations

  /** A value of the collected form data. */
  datatype Value = Str(s: string) | Cents(n: int) | Number(x: real) | Pictures(images: seq<Validations.ImageInput>)

  type Fields = map<string, Value>

  /** The values the basic-information form hands over. */
  function BasicInfoValues(b: Validations.BasicInfoInput): Fields
  {
    map["name" := Str(b.name), "description" := Str(b.description), "category" := Str(b.category)]
  }

  /** The values the pricing form hands over. */
  function PricingValues(p: Validations.PricingInput): Fields
  {
    map["price" := Cents(p.priceCents), "stock" := Number(p.stock), "sku" := Str(p.sku)]
  }

  /** `{ ...base, ...values }`: the later object's keys win. */
  function Merge(base: Fields, values: Fields): (r: Fields)
    ensures r.Keys == base.Keys + values.Keys
    ensures forall k :: k in values ==> r[k] == values[k]
    ensures forall k :: k in base && k !in values ==> r[k] == base[k]
  {
    base + values
  }

  /**
   * The images the upload loop keeps: the returned images of the files
   * before the first failed upload, in file order.
   */
  function Uploaded(results: seq<Option<Validations.ImageInput>>): (r: seq<Validations.ImageInput>)
    ensures |r| <= |results|
    ensures forall i :: 0 <= i < |r| ==> results[i] == Some(r[i])
    ensures |r| < |results| ==> results[|r|].None?
  {
    if results == [] || results[0].None? then []
    else [results[0].value] + Uploaded(results[1..])
  }

  /** Every upload succeeded. */
  predicate AllUploaded(results: seq<Option<Validations.ImageInput>>)
  {
    forall i :: 0 <= i < |results| ==> results[i].Some?
  }

  /** `images.filter(img => img.publicId !== publicId)`. */
  function Without(images: seq<Validations.ImageInput>, publicId: string): (r: seq<Validations.ImageInput>)
    ensures |r| <= |images|
    ensures forall i :: 0 <= i < |r| ==> r[i].publicId != publicId && r[i] in images
    ensures forall i :: 0 <= i < |images| && images[i].publicId != publicId ==> images[i] in r
  {
    if images == [] then []
    else if images[0].publicId == publicId then Without(images[1..], publicId)
    else [images[0]] + Without(images[1..], publicId)
  }

  /** Removal keeps the remaining images in their order: it works piece by piece. */
  lemma {:induction false} WithoutAppend(a: seq<Validations.ImageInput>, b: seq<Validations.ImageInput>, publicId: string)
    ensures Without(a + b, publicId) == Without(a, publicId) + Without(b, publicId)
  {
    if a == [] {
      assert a + b == b;
    } else {
      assert (a + b)[0] == a[0] && (a + b)[1..] == a[1..] + b;
      WithoutAppend(a[1..], b, publicId);
    }
  }

  /** Removing an image that is not there changes nothing. */
  lemma {:induction false} WithoutAbsent(images: seq<Validations.ImageInput>, publicId: string)
    requires forall i :: 0 <= i < |images| ==> images[i].publicId != publicId
    ensures Without(images, publicId) == images
  {
    if images != [] {
      WithoutAbsent(images[1..], publicId);
    }
  }

  const UploadError: string := "Failed to upload image"

  class Wizard {
    var currentStep: int
    var formData: Fields
    var images: seq<Validations.ImageInput>
    var uploading: bool
    var error: string

    /** The Back and Next buttons keep the step among the four steps. */
    ghost predicate Valid()
      reads this
    {
      1 <= currentStep <= 4
    }

    constructor ()
      ensures Valid()
      ensures currentStep == 1 && formData == map[] && images == [] && !uploading && error == ""
    {
      currentStep := 1;
      formData := map[];
      images := [];
      uploading := false;
      error := "";
    }

    /**
     * `handleNext`, offered below step 4. Steps 1 and 2 advance only when
     * their form validates, merging its values into the form data; step 3
     * (images, optional) always advances.
     */
    method HandleNext(basic: Validations.BasicInfoInput, pricing: Validations.PricingInput)
      requires Valid() && currentStep < 4
      modifies this
      ensures Valid()
      ensures old(currentStep) == 1 && Validations.BasicInfoIssues(basic) == []
              ==> currentStep == 2 && formData == Merge(old(formData), BasicInfoValues(basic))
      ensures old(currentStep) == 2 && Validations.PricingIssues(pricing) == []
              ==> currentStep == 3 && formData == Merge(old(formData), PricingValues(pricing))
      ensures old(currentStep) == 3 ==> currentStep == 4 && formData == old(formData)
      ensures old(currentStep) == 1 && Validations.BasicInfoIssues(basic) != []
              ==> currentStep == 1 && formData == old(formData)
      ensures old(currentStep) == 2 && Validations.PricingIssues(pricing) != []
              ==> currentStep == 2 && formData == old(formData)
      ensures images == old(images) && uploading == old(uploading) && error == old(error)
    {
      if currentStep == 1 {
        if Validations.BasicInfoIssues(basic) == [] {
          formData := Merge(formData, BasicInfoValues(basic));
          currentStep := 2;
        }
      } else if currentStep == 2 {
        if Validations.PricingIssues(pricing) == [] {
          formData := Merge(formData, PricingValues(pricing));
          currentStep := 3;
        }
      } else if currentStep == 3 {
        currentStep := 4;
      }
    }

    /** `handleBack`, disabled at step 1. */
    method HandleBack()
      requires Valid() && currentStep != 1
      modifies this
      ensures Valid()
      ensures currentStep == old(currentStep) - 1
      ensures formData == old(formData) && images == old(images) && uploading == old(uploading) && error == old(error)
    {
      currentStep := currentStep - 1;
    }

    /**
     * `handleSubmit`, offered at step 4: the payload is sent only when the
     * status validates, and it is the form data with the status and the
     * image list laid over it.
     */
    method HandleSubmit(details: Validations.DetailsInput) returns (sent: Option<Fields>)
      requires Valid() && currentStep == 4
      ensures sent.Some? <==> details.status in Validations.Statuses
      ensures sent.Some? ==>
                && sent.value.Keys == formData.Keys + {"status", "images"}
                && sent.value["status"] == Str(details.status)
                && sent.value["images"] == Pictures(images)
                && (forall k :: k in formData && k != "status" && k != "images" ==> sent.value[k] == formData[k])
    {
      if Validations.DetailsIssues(details) == [] {
        var payload := Merge(Merge(formData, map["status" := Str(details.status)]), map["images" := Pictures(images)]);
        sent := Some(payload);
      } else {
        sent := None;
      }
    }

    /** The create request failed: its message is shown. */
    method ReportSubmitError(message: string)
      modifies this
      ensures error == message
      ensures currentStep == old(currentStep) && formData == old(formData) && images == old(images) && uploading == old(uploading)
    {
      error := message;
    }

    /**
     * `handleImageUpload`: `results[i]` is what the upload of the i-th
     * selected file returned, `None` for a failed request. The images come
     * in file order; the first failure stops the loop, sets the error and
     * keeps what was already appended. An empty selection does nothing.
     */
    method HandleImageUpload(results: seq<Option<Validations.ImageInput>>)
      modifies this
      ensures images == old(images) + Uploaded(results)
      ensures results == [] ==> error == old(error) && uploading == old(uploading)
      ensures results != [] ==> !uploading && (error == "" <==> AllUploaded(results))
      ensures results != [] && !AllUploaded(results) ==> error == UploadError
      ensures currentStep == old(currentStep) && formData == old(formData)
    {
      if results == [] {
        return;
      }
      uploading := true;
      error := "";
      var i := 0;
      while i < |results|
        invariant 0 <= i <= |results|
        invariant forall k :: 0 <= k < i ==> results[k].Some?
        invariant images == old(images) + Uploaded(results[..i])
        invariant error == "" && uploading
        invariant currentStep == old(currentStep) && formData == old(formData)
      {
        if results[i].None? {
          error := UploadError;
          break;
        }
        UploadedExtend(results, i);
        images := images + [results[i].value];
        i := i + 1;
      }
      if i < |results| {
        UploadedStops(results, i);
      } else {
        assert results[..i] == results;
      }
      uploading := false;
    }

    /** `removeImage`: every image with that public id goes, the rest keep their order. */
    method RemoveImage(publicId: string)
      modifies this
      ensures images == Without(old(images), publicId)
      ensures currentStep == old(currentStep) && formData == old(formData) && uploading == old(uploading) && error == old(error)
    {
      images := Without(images, publicId);
    }
  }

  /** One more successful upload extends the kept images by its image. */
  lemma {:induction false} UploadedExtend(results: seq<Option<Validations.ImageInput>>, i: nat)
    requires i < |results| && results[i].Some?
    requires forall k :: 0 <= k < i ==> results[k].Some?
    ensures Uploaded(results[..i + 1]) == Uploaded(results[..i]) + [results[i].value]
  {
    if i > 0 {
      assert results[..i + 1][1..] == results[1..][..i];
      assert results[..i][1..] == results[1..][..i - 1];
      UploadedExtend(results[1..], i - 1);
    }
  }

  /** The first failure ends the kept images. */
  lemma {:induction false} UploadedStops(results: seq<Option<Validations.ImageInput>>, i: nat)
    requires i < |results| && results[i].None?
    requires forall k :: 0 <= k < i ==> results[k].Some?
    ensures Uploaded(results) == Uploaded(results[..i])
  {
    if i > 0 {
      assert results[..i][1..] == results[1..][..i - 1];
      UploadedStops(results[1..], i - 1);
    }
  }
}
