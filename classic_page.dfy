/**
 * The original listing page (`/`). It holds the same form as the newer page, four busy
 * flags, the text-search queries, the visual-search results and the generated draft; it has
 * no item id and no save. Unlike the newer page, its pricing buttons only change the tab.
 */
module ClassicPage {
  import opened Common
  import opened FlowTypes
  import opened ListingSchema
  import opened FormEdits
  import Actions

  const MissingImageNotice := Notice(true, "Missing Image", "Please upload at least one image for visual search.")

  /** The input this page passes to `visualSearchAction`. */
  function VisualInputOf(f: ListingForm): VisualSearchInput
  {
    VisualSearchInput(Some(f.images), OrText(f.condition, DefaultCondition))
  }

  /**
   * The page's own guard and the action's guard together: with images present the action is
   * reached, and it consults the flow exactly when the first image is non-empty, asking about
   * that image and the condition (or 'Used').
   */
  lemma VisualSearchConsultsFirstImage(f: ListingForm, flow: VisualSearchRequest -> Outcome<VisualSearchResult>)
    requires |f.images| > 0
    ensures f.images[0] == "" ==> Actions.VisualSearchAction(VisualInputOf(f), flow) == Err(Actions.NoImageMessage)
    ensures f.images[0] != "" ==>
      Actions.VisualSearchAction(VisualInputOf(f), flow)
        == flow(VisualSearchRequest(f.images[0], if f.condition == "" then "Used" else f.condition))
  {
  }

  class ClassicSession {
    var form: ListingForm
    var activeTab: Tab
    var analysisBusy: bool
    var textSearchBusy: bool
    var visualSearchBusy: bool
    var draftBusy: bool
    var textQueries: seq<string>
    var visualQueries: seq<string>
    var listingDraft: Option<DraftResult>

    constructor ()
      ensures form == DefaultForm() && activeTab == Upload
      ensures !analysisBusy && !textSearchBusy && !visualSearchBusy && !draftBusy
      ensures textQueries == [] && visualQueries == [] && listingDraft == None
    {
      form := DefaultForm();
      activeTab := Upload;
      analysisBusy, textSearchBusy, visualSearchBusy, draftBusy := false, false, false, false;
      textQueries, visualQueries, listingDraft := [], [], None;
    }

    /** `handleImageUpload`: appends the images and drops all three cached results. */
    method ImageUpload(newImages: seq<string>)
      modifies this
      ensures form == AppendImages(old(form), newImages)
      ensures form.images == old(form.images) + newImages
      ensures textQueries == [] && visualQueries == [] && listingDraft == None
      ensures activeTab == old(activeTab)
      ensures analysisBusy == old(analysisBusy) && textSearchBusy == old(textSearchBusy)
      ensures visualSearchBusy == old(visualSearchBusy) && draftBusy == old(draftBusy)
    {
      form := AppendImages(form, newImages);
      listingDraft := None;
      textQueries := [];
      visualQueries := [];
    }

    /** `handleImageRemove`: removes the image at `index`, if there is one; the caches stay. */
    method ImageRemove(index: int) returns (notice: Notice)
      modifies this
      ensures form == old(form).(images := WithoutIndex(old(form.images), index))
      ensures 0 <= index < |old(form.images)| ==>
        form.images == old(form.images)[..index] + old(form.images)[index + 1..]
      ensures !(0 <= index < |old(form.images)|) ==> form == old(form)
      ensures notice == RemovedNotice(index)
      ensures textQueries == old(textQueries) && visualQueries == old(visualQueries)
      ensures listingDraft == old(listingDraft) && activeTab == old(activeTab)
      ensures analysisBusy == old(analysisBusy) && textSearchBusy == old(textSearchBusy)
      ensures visualSearchBusy == old(visualSearchBusy) && draftBusy == old(draftBusy)
    {
      WithoutIndexRemovesOne(form.images, index);
      form := form.(images := WithoutIndex(form.images, index));
      notice := RemovedNotice(index);
    }

    /** `handleClearImages`: the form back to its defaults and all caches dropped. */
    method ClearImages()
      modifies this
      ensures form == DefaultForm()
      ensures form.images == [] && form.targetPrice.None? && form.disclaimer == DefaultDisclaimer
      ensures textQueries == [] && visualQueries == [] && listingDraft == None
      ensures activeTab == old(activeTab)
      ensures analysisBusy == old(analysisBusy) && textSearchBusy == old(textSearchBusy)
      ensures visualSearchBusy == old(visualSearchBusy) && draftBusy == old(draftBusy)
    {
      form := DefaultForm();
      listingDraft := None;
      textQueries := [];
      visualQueries := [];
    }

    /** `handleAnalyze`: refuses without images; otherwise opens details and applies a response. */
    method Analyze(response: Outcome<Option<ImageAnalysis>>)
      returns (sent: Option<seq<string>>, notice: Option<Notice>)
      modifies this
      ensures |old(form.images)| == 0 ==>
        && sent == None && form == old(form) && activeTab == old(activeTab)
        && analysisBusy == old(analysisBusy)
        && notice == Some(Notice(true, "No Images", "Please upload images before analyzing."))
      ensures |old(form.images)| > 0 ==>
        && sent == Some(old(form.images)) && activeTab == Details && !analysisBusy
        && (response.Ok? && response.value.Some? ==>
              form == ApplyAnalysis(old(form), response.value.value)
              && notice == Some(Notice(false, "Analysis Complete", "Item details have been pre-filled by AI.")))
        && (response.Ok? && response.value.None? ==> form == old(form) && notice == None)
        && (response.Err? ==>
              form == old(form) && notice == Some(Notice(true, "Analysis Failed", response.message)))
      ensures textSearchBusy == old(textSearchBusy) && visualSearchBusy == old(visualSearchBusy)
      ensures draftBusy == old(draftBusy)
      ensures textQueries == old(textQueries) && visualQueries == old(visualQueries)
      ensures listingDraft == old(listingDraft)
    {
      if |form.images| == 0 {
        return None, Some(Notice(true, "No Images", "Please upload images before analyzing."));
      }
      analysisBusy := true;
      activeTab := Details;
      sent := Some(form.images);
      match response {
        case Ok(Some(a)) =>
          form := ApplyAnalysis(form, a);
          notice := Some(Notice(false, "Analysis Complete", "Item details have been pre-filled by AI."));
        case Ok(None) =>
          notice := None;
        case Err(m) =>
          notice := Some(Notice(true, "Analysis Failed", m));
      }
      analysisBusy := false;
    }

    /**
     * `handleTextSearch`: needs brand and model and sends only those two; the queries are
     * cleared first and replaced by the response's queries. The suggested price is not used.
     */
    method TextSearch(response: Outcome<PricingResult>) returns (sent: Option<PricingRequest>, notice: Notice)
      modifies this
      ensures old(form.brand) == "" || old(form.model) == "" ==>
        && sent == None && textQueries == old(textQueries) && textSearchBusy == old(textSearchBusy)
        && notice == Notice(true, "Missing Information", "Please provide both Brand and Model for text search.")
      ensures old(form.brand) != "" && old(form.model) != "" ==>
        && sent == Some(PricingRequest(old(form.brand), old(form.model), None, None))
        && !textSearchBusy
        && (response.Ok? ==>
              textQueries == response.value.searchQueries && notice == Notice(false, "Text Search Complete", ""))
        && (response.Err? ==>
              textQueries == [] && notice == Notice(true, "Text Search Failed", response.message))
      ensures form == old(form) && activeTab == old(activeTab)
      ensures analysisBusy == old(analysisBusy) && visualSearchBusy == old(visualSearchBusy)
      ensures draftBusy == old(draftBusy)
      ensures visualQueries == old(visualQueries) && listingDraft == old(listingDraft)
    {
      if form.brand == "" || form.model == "" {
        return None, Notice(true, "Missing Information", "Please provide both Brand and Model for text search.");
      }
      textSearchBusy := true;
      textQueries := [];
      sent := Some(PricingRequest(form.brand, form.model, None, None));
      match response {
        case Ok(result) =>
          textQueries := result.searchQueries;
          notice := Notice(false, "Text Search Complete", "");
        case Err(m) =>
          notice := Notice(true, "Text Search Failed", m);
      }
      textSearchBusy := false;
    }

    /**
     * `handleVisualSearch`: refuses without images; otherwise clears the results, calls
     * `visualSearchAction` and stores the result list, or reports the action's error (which is
     * the action's own refusal when the first image is empty).
     */
    method VisualSearch(flow: VisualSearchRequest -> Outcome<VisualSearchResult>) returns (notice: Notice)
      modifies this
      ensures |old(form.images)| == 0 ==>
        visualQueries == old(visualQueries) && visualSearchBusy == old(visualSearchBusy)
        && notice == MissingImageNotice
      ensures |old(form.images)| > 0 && old(form.images)[0] == "" ==>
        visualQueries == [] && !visualSearchBusy
        && notice == Notice(true, "Visual Search Failed", Actions.NoImageMessage)
      ensures |old(form.images)| > 0 && old(form.images)[0] != "" ==>
        var request := VisualSearchRequest(old(form.images)[0], OrText(old(form.condition), DefaultCondition));
        && !visualSearchBusy
        && (flow(request).Ok? ==>
              visualQueries == flow(request).value.searchResults
              && notice == Notice(false, "Visual Search Complete", ""))
        && (flow(request).Err? ==>
              visualQueries == [] && notice == Notice(true, "Visual Search Failed", flow(request).message))
      ensures form == old(form) && activeTab == old(activeTab)
      ensures analysisBusy == old(analysisBusy) && textSearchBusy == old(textSearchBusy)
      ensures draftBusy == old(draftBusy)
      ensures textQueries == old(textQueries) && listingDraft == old(listingDraft)
    {
      if |form.images| == 0 {
        return MissingImageNotice;
      }
      visualSearchBusy := true;
      visualQueries := [];
      var result := Actions.VisualSearchAction(VisualInputOf(form), flow);
      match result {
        case Ok(r) =>
          visualQueries := r.searchResults;
          notice := Notice(false, "Visual Search Complete", "");
        case Err(m) =>
          notice := Notice(true, "Visual Search Failed", m);
      }
      visualSearchBusy := false;
    }

    /**
     * `handleDraftGeneration`: reports the first empty required field and makes no call;
     * otherwise sends the six attributes and applies the generated title and description.
     */
    method DraftGeneration(response: Outcome<DraftResult>) returns (sent: Option<DraftRequest>, notice: Notice)
      modifies this
      ensures var fields := RequiredFields(old(form));
        (exists i :: 0 <= i < |fields| && fields[i].1 == "") ==>
        && sent == None && form == old(form) && listingDraft == old(listingDraft)
        && draftBusy == old(draftBusy)
        && exists i :: 0 <= i < |fields| && fields[i].1 == ""
             && (forall j :: 0 <= j < i ==> fields[j].1 != "")
             && notice == Notice(true, "Missing Information", MissingFieldMessage(fields[i].0))
      ensures var fields := RequiredFields(old(form));
        (forall i :: 0 <= i < |fields| ==> fields[i].1 != "") ==>
        && sent == Some(DraftRequestOf(old(form))) && !draftBusy
        && (response.Ok? ==>
              && form == ApplyDraft(old(form), response.value)
              && listingDraft == Some(response.value)
              && notice == Notice(false, "Draft Generated", "Your listing title and description are ready."))
        && (response.Err? ==>
              && form == old(form) && listingDraft == old(listingDraft)
              && notice == Notice(true, "Draft Generation Failed", response.message))
      ensures activeTab == old(activeTab)
      ensures analysisBusy == old(analysisBusy) && textSearchBusy == old(textSearchBusy)
      ensures visualSearchBusy == old(visualSearchBusy)
      ensures textQueries == old(textQueries) && visualQueries == old(visualQueries)
    {
      var missing := FirstMissingField(RequiredFields(form));
      if missing.Some? {
        return None, Notice(true, "Missing Information", MissingFieldMessage(missing.value));
      }
      draftBusy := true;
      sent := Some(DraftRequestOf(form));
      match response {
        case Ok(result) =>
          form := ApplyDraft(form, result);
          listingDraft := Some(result);
          notice := Notice(false, "Draft Generated", "Your listing title and description are ready.");
        case Err(m) =>
          notice := Notice(true, "Draft Generation Failed", m);
      }
      draftBusy := false;
    }

    /**
     * Clicking a tab, "Skip Pricing & Generate Listing", "Continue to AI Price Comparison" and
     * "I have my price, go to Final Step": on this page all of them only set the tab.
     */
    method SelectTab(tab: Tab)
      modifies this`activeTab
      ensures activeTab == tab
    {
      activeTab := tab;
    }
  }
}
