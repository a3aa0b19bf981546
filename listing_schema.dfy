/** The listing form's values and the `listingFormSchema` validation rule. */
module ListingSchema {
  import opened Common

  /**
   * The form values. Every text field is optional in the schema; an absent text field is
   * modelled as the empty string, which every handler treats the same way.
   */
  datatype ListingForm = ListingForm(
    images: seq<string>,
    brand: string,
    model: string,
    size: string,
    style: string,
    color: string,
    gender: string,
    condition: string,
    targetPrice: Option<real>,
    title: string,
    description: string,
    disclaimer: string)

  const ImagesMessage := "Please upload at least one image."
  const PriceMessage := "Price must be a positive number."

  /** The issues the schema reports, in field order; only images and targetPrice have rules. */
  function Issues(v: ListingForm): seq<string>
  {
    (if |v.images| < 1 then [ImagesMessage] else [])
    + (if v.targetPrice.Some? && !(v.targetPrice.value > 0.0) then [PriceMessage] else [])
  }

  /** The form passes the schema. */
  predicate IsValid(v: ListingForm)
  {
    Issues(v) == []
  }

  /** The schema accepts exactly the forms with an image and, if a price is given, a positive one. */
  lemma ValidIff(v: ListingForm)
    ensures IsValid(v) <==> |v.images| >= 1 && (v.targetPrice.None? || v.targetPrice.value > 0.0)
  {
  }

  /** A form with no images is rejected with the images message. */
  lemma NoImagesInvalid(v: ListingForm)
    requires v.images == []
    ensures !IsValid(v) && Issues(v)[0] == ImagesMessage
  {
  }

  /** A present price that is not positive is rejected with the price message. */
  lemma NonPositivePriceInvalid(v: ListingForm)
    requires v.targetPrice.Some? && v.targetPrice.value <= 0.0
    ensures !IsValid(v) && Issues(v)[|Issues(v)| - 1] == PriceMessage
  {
  }

  /** An absent price never causes an issue. */
  lemma AbsentPriceValid(v: ListingForm)
    requires v.targetPrice.None?
    ensures IsValid(v) <==> |v.images| >= 1
    ensures PriceMessage !in Issues(v)
  {
  }

  /** No text field can change the verdict: only images and targetPrice matter. */
  lemma TextFieldsIrrelevant(v: ListingForm, w: ListingForm)
    requires v.images == w.images && v.targetPrice == w.targetPrice
    ensures Issues(v) == Issues(w)
  {
  }
}
