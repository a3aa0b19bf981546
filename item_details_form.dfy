/**
 * The item-details form component: a form that replaces its images on every upload and, when
 * the new list is non-empty, analyses it at once. Fields the component leaves undefined
 * (size, title, description, disclaimer) are modelled as ''.
 */
module ItemDetailsForm {
  import opened Common
  import opened FlowTypes
  import opened ListingSchema
  import opened FormEdits

  /** The component's default values: no images, blank attributes and condition 'Used'. */
  function InitialForm(): ListingForm
  {
    ListingForm([], "", "", "", "", "", "", DefaultCondition, None, "", "", "")
  }

  /** The component's form differs from the pages' defaults only in its empty disclaimer. */
  lemma InitialFormIsPageDefaultWithoutDisclaimer()
    ensures InitialForm() == DefaultForm().(disclaimer := "")
    ensures InitialForm().disclaimer != DefaultForm().disclaimer
    ensures !IsValid(InitialForm())
  {
  }

  class DetailsForm {
    var form: ListingForm
    var isAnalyzing: bool

    constructor ()
      ensures form == InitialForm() && !isAnalyzing
    {
      form := InitialForm();
      isAnalyzing := false;
    }

    /**
     * `handleImageUpload`: the uploader's list replaces the images; a non-empty list is sent to
     * the analyser and a successful response is applied as on the pages.
     */
    method HandleImageUpload(images: seq<string>, response: Outcome<Option<ImageAnalysis>>)
      returns (sent: Option<seq<string>>, notice: Option<Notice>)
      modifies this
      ensures |images| == 0 ==>
        sent == None && notice == None && form == old(form).(images := [])
        && isAnalyzing == old(isAnalyzing)
      ensures |images| > 0 ==>
        && sent == Some(images) && !isAnalyzing
        && (response.Ok? && response.value.Some? ==>
              form == ApplyAnalysis(old(form).(images := images), response.value.value)
              && notice == Some(Notice(false, "Analysis Complete", "Item details have been pre-filled by AI.")))
        && (response.Ok? && response.value.None? ==> form == old(form).(images := images) && notice == None)
        && (response.Err? ==>
              form == old(form).(images := images)
              && notice == Some(Notice(true, "Analysis Failed", response.message)))
    {
      form := form.(images := images);
      sent, notice := None, None;
      if |images| > 0 {
        isAnalyzing := true;
        sent := Some(images);
        match response {
          case Ok(Some(a)) =>
            form := ApplyAnalysis(form, a);
            notice := Some(Notice(false, "Analysis Complete", "Item details have been pre-filled by AI."));
          case Ok(None) =>
          case Err(m) =>
            notice := Some(Notice(true, "Analysis Failed", m));
        }
        isAnalyzing := false;
      }
    }
  }
}
