/**
 * The newer listing page (`/new-listing`): one editing session over a listing form, the
 * active tab, three busy flags and two cached results. Each handler is a method; an AI call
 * is a parameter holding its outcome, and each method returns the request it sent (None when
 * it made no call) and the toast it showed.
 */
module NewListingPage {
  import opened Common
  import opened FlowTypes
  import opened ListingSchema
  import opened FormEdits
  import Inventory

  /** An item as `getItemById` returns it; its text columns may be null. */
  datatype LoadedItem = LoadedItem(
    images: seq<string>,
    brand: Option<string>,
    model: Option<string>,
    size: Option<string>,
    style: Option<string>,
    color: Option<string>,
    gender: Option<string>,
    condition: Option<string>,
    title: Option<string>,
    description: Option<string>,
    price: Option<real>)

  /** The form an existing item is loaded into. */
  function FormOfItem(item: LoadedItem): ListingForm
  {
    ListingForm(
      item.images,
      OptOr(item.brand, ""), OptOr(item.model, ""), OptOr(item.size, ""), OptOr(item.style, ""),
      OptOr(item.color, ""), OptOr(item.gender, ""), OptOr(item.condition, DefaultCondition),
      if IsTruthyNumber(item.price) then item.price else None,
      OptOr(item.title, ""), OptOr(item.description, ""),
      DefaultDisclaimer)
  }

  /**
   * Loading keeps the images, turns missing text into '' and a missing condition into
   * 'Used', maps a zero or missing price to no price, and resets the disclaimer.
   */
  lemma LoadedFormDefaults(item: LoadedItem)
    ensures var f := FormOfItem(item);
      && f.images == item.images
      && (IsTruthyText(item.brand) ==> f.brand == item.brand.value) && (!IsTruthyText(item.brand) ==> f.brand == "")
      && (IsTruthyText(item.model) ==> f.model == item.model.value) && (!IsTruthyText(item.model) ==> f.model == "")
      && (IsTruthyText(item.size) ==> f.size == item.size.value) && (!IsTruthyText(item.size) ==> f.size == "")
      && (IsTruthyText(item.style) ==> f.style == item.style.value) && (!IsTruthyText(item.style) ==> f.style == "")
      && (IsTruthyText(item.color) ==> f.color == item.color.value) && (!IsTruthyText(item.color) ==> f.color == "")
      && (IsTruthyText(item.gender) ==> f.gender == item.gender.value) && (!IsTruthyText(item.gender) ==> f.gender == "")
      && (IsTruthyText(item.title) ==> f.title == item.title.value) && (!IsTruthyText(item.title) ==> f.title == "")
      && (IsTruthyText(item.description) ==> f.description == item.description.value) && (!IsTruthyText(item.description) ==> f.description == "")
      && (IsTruthyText(item.condition) ==> f.condition == item.condition.value)
      && (!IsTruthyText(item.condition) ==> f.condition == "Used")
      && (f.targetPrice.None? <==> item.price.None? || item.price.value == 0.0)
      && (f.targetPrice.Some? ==> f.targetPrice == item.price)
      && f.disclaimer == DefaultDisclaimer
  {
  }

  /**
   * The data `handleSaveDraft` passes to `saveItemDraft`: the form values, the page's id when
   * it is truthy, price = targetPrice and status 'DRAFT'.
   */
  function SaveRequestOf(f: ListingForm, itemId: Option<string>): Inventory.SaveRequest
  {
    Inventory.SaveRequest(
      if IsTruthyText(itemId) then itemId else None,
      Some(f.images),
      Inventory.ItemFields(f.brand, f.model, f.size, f.style, f.color, f.gender, f.condition,
                           f.title, f.description, f.disclaimer, f.targetPrice, f.targetPrice, "DRAFT"))
  }

  /** Every save request is a draft priced at the target price, carrying the form's images. */
  lemma SaveRequestIsDraft(f: ListingForm, itemId: Option<string>)
    ensures var d := SaveRequestOf(f, itemId);
      && d.fields.status == "DRAFT"
      && d.fields.price == f.targetPrice
      && d.images == Some(f.images)
      && (d.id.Some? <==> IsTruthyText(itemId))
      && (d.id.Some? ==> d.id == itemId)
  {
  }

  /**
   * The page never learns the id of a row it created, so saving a new listing twice creates two
   * rows with the same content.
   */
  lemma RepeatedSaveOfNewListingDuplicates(t: Inventory.Table, f: ListingForm, id1: string, id2: string)
    requires Inventory.WellFormed(t)
    requires id1 !in t.rows && id2 !in t.rows && id1 != id2
    ensures var d := SaveRequestOf(f, None);
      var r1 := Inventory.ApplySave(t, d, id1, false);
      && r1.Saved?
      && var r2 := Inventory.ApplySave(r1.table, d, id2, false);
      && r2.Saved?
      && r2.table.rows.Keys == t.rows.Keys + {id1, id2}
      && |r2.table.rows| == |t.rows| + 2
      && r2.table.rows[id1].fields == r2.table.rows[id2].fields
  {
    var d := SaveRequestOf(f, None);
    Inventory.SaveCreatesOne(t, d, id1);
    var r1 := Inventory.ApplySave(t, d, id1, false);
    Inventory.SaveCreatesOne(r1.table, d, id2);
  }

  /**
   * Clearing the form on an item's page and saving keeps the item's stored price: the cleared
   * form has no target price, so the update leaves the price columns out.
   */
  lemma ClearedSaveKeepsStoredPrice(t: Inventory.Table, id: string, generatedId: string)
    requires id != "" && id in t.rows
    ensures var r := Inventory.ApplySave(t, SaveRequestOf(DefaultForm(), Some(id)), generatedId, false);
      && r.Saved?
      && r.table.rows[id].fields.price == t.rows[id].fields.price
      && r.table.rows[id].fields.targetPrice == t.rows[id].fields.targetPrice
      && r.table.rows[id].fields.title == ""
  {
    Inventory.SaveUpdatesInPlace(t, SaveRequestOf(DefaultForm(), Some(id)), generatedId);
  }

  class ListingSession {
    /** The `id` search parameter of the page. */
    const itemId: Option<string>
    var form: ListingForm
    var activeTab: Tab
    var isInitialLoading: bool
    var analysisBusy: bool
    var textSearchBusy: bool
    var draftBusy: bool
    var textSearchResults: Option<PricingResult>
    var listingDraft: Option<DraftResult>

    constructor (itemId: Option<string>)
      ensures this.itemId == itemId && form == DefaultForm() && activeTab == Upload
      ensures isInitialLoading == IsTruthyText(itemId)
      ensures !analysisBusy && !textSearchBusy && !draftBusy
      ensures textSearchResults == None && listingDraft == None
    {
      this.itemId := itemId;
      form := DefaultForm();
      activeTab := Upload;
      isInitialLoading := IsTruthyText(itemId);
      analysisBusy, textSearchBusy, draftBusy := false, false, false;
      textSearchResults, listingDraft := None, None;
    }

    /** `loadItem`: only with a truthy id; found items fill the form and open the details tab. */
    method LoadItem(fetched: Outcome<Option<LoadedItem>>) returns (notice: Option<Notice>)
      modifies this
      ensures !IsTruthyText(itemId) ==>
        notice == None && form == old(form) && activeTab == old(activeTab)
        && isInitialLoading == old(isInitialLoading)
      ensures IsTruthyText(itemId) ==> !isInitialLoading
      ensures IsTruthyText(itemId) && fetched.Ok? && fetched.value.Some? ==>
        form == FormOfItem(fetched.value.value) && activeTab == Details && notice == None
      ensures IsTruthyText(itemId) && fetched.Ok? && fetched.value.None? ==>
        form == old(form) && activeTab == old(activeTab)
        && notice == Some(Notice(true, "Error", "Item not found."))
      ensures IsTruthyText(itemId) && fetched.Err? ==>
        form == old(form) && activeTab == old(activeTab)
        && notice == Some(Notice(true, "Error", "Failed to load item."))
      ensures analysisBusy == old(analysisBusy) && textSearchBusy == old(textSearchBusy)
      ensures draftBusy == old(draftBusy)
      ensures textSearchResults == old(textSearchResults) && listingDraft == old(listingDraft)
    {
      notice := None;
      if IsTruthyText(itemId) {
        match fetched {
          case Ok(Some(item)) =>
            form := FormOfItem(item);
            activeTab := Details;
          case Ok(None) =>
            notice := Some(Notice(true, "Error", "Item not found."));
          case Err(_) =>
            notice := Some(Notice(true, "Error", "Failed to load item."));
        }
        isInitialLoading := false;
      }
    }

    /** `handleSaveDraft`: saves the form through the store; the session itself does not change. */
    method SaveDraft(store: Inventory.InventoryStore, generatedId: string, failure: bool) returns (notice: Notice)
      requires store.Valid()
      modifies store
      ensures store.Valid()
      ensures var d := SaveRequestOf(form, itemId);
        match Inventory.ApplySave(old(store.Snapshot()), d, generatedId, failure)
        case Saved(t, _) =>
          store.Snapshot() == t
          && notice == Notice(false, if IsTruthyText(itemId) then "Item Updated" else "Draft Saved",
                              "Your item has been saved to the database.")
        case SaveFailed(_) =>
          store.Snapshot() == old(store.Snapshot())
          && notice == Notice(true, "Save Failed", "Could not save to database.")
    {
      var r := store.SaveItemDraft(SaveRequestOf(form, itemId), generatedId, failure);
      if r.Ok? {
        notice := Notice(false, if IsTruthyText(itemId) then "Item Updated" else "Draft Saved",
                         "Your item has been saved to the database.");
      } else {
        notice := Notice(true, "Save Failed", "Could not save to database.");
      }
    }

    /** `handleImageUpload`: appends the images and drops both cached results. */
    method ImageUpload(newImages: seq<string>)
      modifies this
      ensures form == AppendImages(old(form), newImages)
      ensures form.images == old(form.images) + newImages
      ensures textSearchResults == None && listingDraft == None
      ensures activeTab == old(activeTab) && isInitialLoading == old(isInitialLoading)
      ensures analysisBusy == old(analysisBusy) && textSearchBusy == old(textSearchBusy)
      ensures draftBusy == old(draftBusy)
    {
      form := AppendImages(form, newImages);
      listingDraft := None;
      textSearchResults := None;
    }

    /** `handleImageRemove`: removes the image at `index`, if there is one; the caches stay. */
    method ImageRemove(index: int) returns (notice: Notice)
      modifies this
      ensures form == old(form).(images := WithoutIndex(old(form.images), index))
      ensures 0 <= index < |old(form.images)| ==>
        form.images == old(form.images)[..index] + old(form.images)[index + 1..]
      ensures !(0 <= index < |old(form.images)|) ==> form == old(form)
      ensures notice == RemovedNotice(index)
      ensures textSearchResults == old(textSearchResults) && listingDraft == old(listingDraft)
      ensures activeTab == old(activeTab) && isInitialLoading == old(isInitialLoading)
      ensures analysisBusy == old(analysisBusy) && textSearchBusy == old(textSearchBusy)
      ensures draftBusy == old(draftBusy)
    {
      WithoutIndexRemovesOne(form.images, index);
      form := form.(images := WithoutIndex(form.images, index));
      notice := RemovedNotice(index);
    }

    /** `handleClearImages`: the form back to its defaults and both caches dropped. */
    method ClearImages()
      modifies this
      ensures form == DefaultForm()
      ensures form.disclaimer == DefaultDisclaimer && form.targetPrice.None? && form.images == []
      ensures textSearchResults == None && listingDraft == None
      ensures activeTab == old(activeTab) && isInitialLoading == old(isInitialLoading)
      ensures analysisBusy == old(analysisBusy) && textSearchBusy == old(textSearchBusy)
      ensures draftBusy == old(draftBusy)
    {
      form := DefaultForm();
      listingDraft := None;
      textSearchResults := None;
    }

    /** `handleAnalyze`: refuses without images; otherwise opens details and applies a response. */
    method Analyze(response: Outcome<Option<ImageAnalysis>>)
      returns (sent: Option<seq<string>>, notice: Option<Notice>)
      modifies this
      ensures |old(form.images)| == 0 ==>
        && sent == None && form == old(form) && activeTab == old(activeTab)
        && analysisBusy == old(analysisBusy)
        && notice == Some(Notice(true, "No Images", "Please upload images before analyzing."))
      ensures |old(form.images)| > 0 ==>
        && sent == Some(old(form.images)) && activeTab == Details && !analysisBusy
        && (response.Ok? && response.value.Some? ==>
              form == ApplyAnalysis(old(form), response.value.value)
              && notice == Some(Notice(false, "Analysis Complete", "Item details have been pre-filled by AI.")))
        && (response.Ok? && response.value.None? ==> form == old(form) && notice == None)
        && (response.Err? ==>
              form == old(form) && notice == Some(Notice(true, "Analysis Failed", response.message)))
      ensures textSearchBusy == old(textSearchBusy) && draftBusy == old(draftBusy)
      ensures textSearchResults == old(textSearchResults) && listingDraft == old(listingDraft)
      ensures isInitialLoading == old(isInitialLoading)
    {
      if |form.images| == 0 {
        return None, Some(Notice(true, "No Images", "Please upload images before analyzing."));
      }
      analysisBusy := true;
      activeTab := Details;
      sent := Some(form.images);
      match response {
        case Ok(Some(a)) =>
          form := ApplyAnalysis(form, a);
          notice := Some(Notice(false, "Analysis Complete", "Item details have been pre-filled by AI."));
        case Ok(None) =>
          notice := None;
        case Err(m) =>
          notice := Some(Notice(true, "Analysis Failed", m));
      }
      analysisBusy := false;
    }

    /**
     * `handleTextSearch`: needs brand and model; clears the cached result, then stores the
     * response and takes its suggested price when that is truthy.
     */
    method TextSearch(response: Outcome<PricingResult>) returns (sent: Option<PricingRequest>, notice: Notice)
      modifies this
      ensures old(form.brand) == "" || old(form.model) == "" ==>
        && sent == None && form == old(form) && textSearchResults == old(textSearchResults)
        && textSearchBusy == old(textSearchBusy)
        && notice == Notice(true, "Missing Information", "Please provide both Brand and Model for text search.")
      ensures old(form.brand) != "" && old(form.model) != "" ==>
        && sent == Some(PricingRequest(old(form.brand), old(form.model), Some(old(form.size)),
                                       Some(OrText(old(form.condition), DefaultCondition))))
        && !textSearchBusy
        && (response.Ok? ==>
              && textSearchResults == Some(response.value)
              && form == (if IsTruthyNumber(response.value.suggestedPrice)
                          then old(form).(targetPrice := response.value.suggestedPrice) else old(form))
              && notice == Notice(false, "Text Search Complete", ""))
        && (response.Err? ==>
              && textSearchResults == None && form == old(form)
              && notice == Notice(true, "Text Search Failed", response.message))
      ensures activeTab == old(activeTab) && isInitialLoading == old(isInitialLoading)
      ensures analysisBusy == old(analysisBusy) && draftBusy == old(draftBusy)
      ensures listingDraft == old(listingDraft)
    {
      if form.brand == "" || form.model == "" {
        return None, Notice(true, "Missing Information", "Please provide both Brand and Model for text search.");
      }
      textSearchBusy := true;
      textSearchResults := None;
      sent := Some(PricingRequest(form.brand, form.model, Some(form.size), Some(OrText(form.condition, DefaultCondition))));
      match response {
        case Ok(result) =>
          textSearchResults := Some(result);
          if IsTruthyNumber(result.suggestedPrice) {
            form := form.(targetPrice := result.suggestedPrice);
          }
          notice := Notice(false, "Text Search Complete", "");
        case Err(m) =>
          notice := Notice(true, "Text Search Failed", m);
      }
      textSearchBusy := false;
    }

    /**
     * `handleDraftGeneration`: reports the first empty required field and makes no call;
     * otherwise sends the six attributes and applies the generated title and description.
     */
    method DraftGeneration(response: Outcome<DraftResult>) returns (sent: Option<DraftRequest>, notice: Notice)
      modifies this
      ensures var fields := RequiredFields(old(form));
        (exists i :: 0 <= i < |fields| && fields[i].1 == "") ==>
        && sent == None && form == old(form) && listingDraft == old(listingDraft)
        && draftBusy == old(draftBusy)
        && exists i :: 0 <= i < |fields| && fields[i].1 == ""
             && (forall j :: 0 <= j < i ==> fields[j].1 != "")
             && notice == Notice(true, "Missing Information", MissingFieldMessage(fields[i].0))
      ensures var fields := RequiredFields(old(form));
        (forall i :: 0 <= i < |fields| ==> fields[i].1 != "") ==>
        && sent == Some(DraftRequestOf(old(form))) && !draftBusy
        && (response.Ok? ==>
              && form == ApplyDraft(old(form), response.value)
              && listingDraft == Some(response.value)
              && notice == Notice(false, "Draft Generated", "Your listing title and description are ready."))
        && (response.Err? ==>
              && form == old(form) && listingDraft == old(listingDraft)
              && notice == Notice(true, "Draft Generation Failed", response.message))
      ensures activeTab == old(activeTab) && isInitialLoading == old(isInitialLoading)
      ensures analysisBusy == old(analysisBusy) && textSearchBusy == old(textSearchBusy)
      ensures textSearchResults == old(textSearchResults)
    {
      var missing := FirstMissingField(RequiredFields(form));
      if missing.Some? {
        return None, Notice(true, "Missing Information", MissingFieldMessage(missing.value));
      }
      draftBusy := true;
      sent := Some(DraftRequestOf(form));
      match response {
        case Ok(result) =>
          form := ApplyDraft(form, result);
          listingDraft := Some(result);
          notice := Notice(false, "Draft Generated", "Your listing title and description are ready.");
        case Err(m) =>
          notice := Notice(true, "Draft Generation Failed", m);
      }
      draftBusy := false;
    }

    /** Clicking a tab. */
    method SelectTab(tab: Tab)
      modifies this`activeTab
      ensures activeTab == tab
    {
      activeTab := tab;
    }

    /** "Skip Pricing & Generate Listing": only opens the draft tab. */
    method SkipPricing()
      modifies this`activeTab
      ensures activeTab == Draft
    {
      activeTab := Draft;
    }

    /** `handleContinueToPricing`: opens the pricing tab and runs the text search. */
    method ContinueToPricing(response: Outcome<PricingResult>) returns (sent: Option<PricingRequest>, notice: Notice)
      modifies this
      ensures activeTab == Pricing
      ensures old(form.brand) == "" || old(form.model) == "" ==>
        && sent == None && form == old(form) && textSearchResults == old(textSearchResults)
        && textSearchBusy == old(textSearchBusy)
        && notice == Notice(true, "Missing Information", "Please provide both Brand and Model for text search.")
      ensures old(form.brand) != "" && old(form.model) != "" ==>
        && sent == Some(PricingRequest(old(form.brand), old(form.model), Some(old(form.size)),
                                       Some(OrText(old(form.condition), DefaultCondition))))
        && !textSearchBusy
        && (response.Ok? ==>
              && textSearchResults == Some(response.value)
              && form == (if IsTruthyNumber(response.value.suggestedPrice)
                          then old(form).(targetPrice := response.value.suggestedPrice) else old(form))
              && notice == Notice(false, "Text Search Complete", ""))
        && (response.Err? ==>
              && textSearchResults == None && form == old(form)
              && notice == Notice(true, "Text Search Failed", response.message))
      ensures isInitialLoading == old(isInitialLoading)
      ensures analysisBusy == old(analysisBusy) && draftBusy == old(draftBusy)
      ensures listingDraft == old(listingDraft)
    {
      activeTab := Pricing;
      sent, notice := TextSearch(response);
    }

    /** "I have my price, go to Final Step": opens the draft tab and runs draft generation. */
    method GoToFinalStep(response: Outcome<DraftResult>) returns (sent: Option<DraftRequest>, notice: Notice)
      modifies this
      ensures activeTab == Draft
      ensures var fields := RequiredFields(old(form));
        (exists i :: 0 <= i < |fields| && fields[i].1 == "") ==>
        && sent == None && form == old(form) && listingDraft == old(listingDraft)
        && draftBusy == old(draftBusy)
        && exists i :: 0 <= i < |fields| && fields[i].1 == ""
             && (forall j :: 0 <= j < i ==> fields[j].1 != "")
             && notice == Notice(true, "Missing Information", MissingFieldMessage(fields[i].0))
      ensures var fields := RequiredFields(old(form));
        (forall i :: 0 <= i < |fields| ==> fields[i].1 != "") ==>
        && sent == Some(DraftRequestOf(old(form))) && !draftBusy
        && (response.Ok? ==>
              && form == ApplyDraft(old(form), response.value)
              && listingDraft == Some(response.value)
              && notice == Notice(false, "Draft Generated", "Your listing title and description are ready."))
        && (response.Err? ==>
              && form == old(form) && listingDraft == old(listingDraft)
              && notice == Notice(true, "Draft Generation Failed", response.message))
      ensures isInitialLoading == old(isInitialLoading)
      ensures analysisBusy == old(analysisBusy) && textSearchBusy == old(textSearchBusy)
      ensures textSearchResults == old(textSearchResults)
    {
      activeTab := Draft;
      sent, notice := DraftGeneration(response);
    }
  }
}
