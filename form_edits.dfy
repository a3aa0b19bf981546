/**
 * The form edits that the listing pages perform. The newer page (new-listing) and the older
 * page write these handlers identically, except that the older page's reset has no `size`
 * (modelled as ''). Each edit is therefore defined once here, and both page classes use it.
 */
module FormEdits {
  import opened Common
  import opened FlowTypes
  import opened ListingSchema

  const DefaultCondition := "Used"

  const DefaultDisclaimer: string :=
    "\n\n**BUYER INFORMATION (Please Read):**\n"
    + "- Photos are of actual sale item and accurately represent its condition. Any marks or imperfections should be in the photos.\n"
    + "- If you have any questions or concerns or want more photos, please ask BEFORE purchase.\n"
    + "- The items color may be slightly different due to your screen settings and lighting.\n"
    + "- Everything comes from a smoke-free, pet-free environment.\n"
    + "- All reasonable offers considered. Bundle 2 or more items for discounted Price and Shipping.\n"
    + "- Item is Cross-listed\n"
    + "- Thanks for looking! Check out my other listings for more great items and prices!!!"

  /** The four tabs of a listing page. */
  datatype Tab = Upload | Details | Pricing | Draft

  /** A toast: whether it is the destructive (error) variant, its title and its description. */
  datatype Notice = Notice(destructive: bool, title: string, description: string)

  /** The default values of the listing pages' form, which is also what "clear" resets to. */
  function DefaultForm(): ListingForm
  {
    ListingForm([], "", "", "", "", "", "", DefaultCondition, None, "", "", DefaultDisclaimer)
  }

  /** Every field of the default form is empty except condition and disclaimer. */
  lemma DefaultFormIsBlank()
    ensures var f := DefaultForm();
      && f.images == [] && f.brand == "" && f.model == "" && f.size == "" && f.style == ""
      && f.color == "" && f.gender == "" && f.title == "" && f.description == ""
      && f.condition == "Used" && f.targetPrice.None? && f.disclaimer == DefaultDisclaimer
    ensures !IsValid(DefaultForm())
  {
  }

  // ---------------------------------------------------------------------------------------
  // Images

  /** Upload on the listing pages: the new images go after the current ones. */
  function AppendImages(f: ListingForm, newImages: seq<string>): ListingForm
  {
    f.(images := f.images + newImages)
  }

  /** `s.filter((_, i) => i !== index)`: keeps each element whose position is not `index`. */
  function WithoutIndex<T>(s: seq<T>, index: int): seq<T>
    decreases |s|
  {
    if s == [] then []
    else WithoutIndex(s[..|s| - 1], index) + (if |s| - 1 != index then [s[|s| - 1]] else [])
  }

  /**
   * Filtering by position removes exactly the element at `index`, keeps the others in order,
   * and changes nothing when `index` is not a position of the sequence.
   */
  lemma {:induction false} WithoutIndexRemovesOne<T>(s: seq<T>, index: int)
    ensures 0 <= index < |s| ==> WithoutIndex(s, index) == s[..index] + s[index + 1..]
    ensures !(0 <= index < |s|) ==> WithoutIndex(s, index) == s
    decreases |s|
  {
    if s != [] {
      var p, last := s[..|s| - 1], s[|s| - 1];
      assert s == p + [last];
      WithoutIndexRemovesOne(p, index);
      if 0 <= index < |s| - 1 {
        assert s[..index] == p[..index];
        assert s[index + 1..] == p[index + 1..] + [last];
      } else if index == |s| - 1 {
        assert s[..index] == p;
      }
    }
  }

  /** Removing a position shortens the list by one exactly when the position exists. */
  lemma WithoutIndexLength<T>(s: seq<T>, index: int)
    ensures |WithoutIndex(s, index)| == if 0 <= index < |s| then |s| - 1 else |s|
  {
    WithoutIndexRemovesOne(s, index);
  }

  /** Decimal digits of a natural number, as a template literal prints it. */
  function DecimalText(n: nat): string
    decreases n
  {
    var d := ['0', '1', '2', '3', '4', '5', '6', '7', '8', '9'][n % 10];
    if n < 10 then [d] else DecimalText(n / 10) + [d]
  }

  /** Decimal text of an integer, with a leading '-' when negative. */
  function IntText(n: int): string
  {
    if n < 0 then "-" + DecimalText(-n) else DecimalText(n)
  }

  /** The toast after a removal names the removed position counting from one. */
  function RemovedNotice(index: int): Notice
  {
    Notice(false, "Image Removed", "Image " + IntText(index + 1) + " has been removed.")
  }

  // ---------------------------------------------------------------------------------------
  // Analysis

  /**
   * A successful analysis overwrites brand, model, style, color, gender, condition and
   * description with the response, putting '' (or 'Used' for condition) where it is missing.
   */
  function ApplyAnalysis(f: ListingForm, a: ImageAnalysis): ListingForm
  {
    f.(brand := OptOr(a.brand, ""),
       model := OptOr(a.model, ""),
       style := OptOr(a.style, ""),
       color := OptOr(a.color, ""),
       gender := OptOr(a.gender, ""),
       condition := OptOr(a.condition, DefaultCondition),
       description := OptOr(a.description, ""))
  }

  /** Each analysed field takes the response value when it is non-empty, and its default otherwise. */
  lemma AnalysisOverwrites(f: ListingForm, a: ImageAnalysis)
    ensures var r := ApplyAnalysis(f, a);
      && (IsTruthyText(a.brand) ==> r.brand == a.brand.value) && (!IsTruthyText(a.brand) ==> r.brand == "")
      && (IsTruthyText(a.model) ==> r.model == a.model.value) && (!IsTruthyText(a.model) ==> r.model == "")
      && (IsTruthyText(a.style) ==> r.style == a.style.value) && (!IsTruthyText(a.style) ==> r.style == "")
      && (IsTruthyText(a.color) ==> r.color == a.color.value) && (!IsTruthyText(a.color) ==> r.color == "")
      && (IsTruthyText(a.gender) ==> r.gender == a.gender.value) && (!IsTruthyText(a.gender) ==> r.gender == "")
      && (IsTruthyText(a.condition) ==> r.condition == a.condition.value)
      && (!IsTruthyText(a.condition) ==> r.condition == "Used")
      && (IsTruthyText(a.description) ==> r.description == a.description.value)
      && (!IsTruthyText(a.description) ==> r.description == "")
    ensures var r := ApplyAnalysis(f, a);
      r.images == f.images && r.size == f.size && r.title == f.title
      && r.targetPrice == f.targetPrice && r.disclaimer == f.disclaimer
  {
  }

  /**
   * The result does not depend on what the analysed fields held before: a response that omits
   * an attribute blanks it even when the user had filled it in.
   */
  lemma AnalysisIgnoresPriorAttributes(f: ListingForm, g: ListingForm, a: ImageAnalysis)
    requires f.images == g.images && f.size == g.size && f.title == g.title
    requires f.targetPrice == g.targetPrice && f.disclaimer == g.disclaimer
    ensures ApplyAnalysis(f, a) == ApplyAnalysis(g, a)
  {
  }

  /** Applying the same response twice is the same as applying it once. */
  lemma AnalysisIdempotent(f: ListingForm, a: ImageAnalysis)
    ensures ApplyAnalysis(ApplyAnalysis(f, a), a) == ApplyAnalysis(f, a)
  {
  }

  /** Analysis never changes whether the form passes the schema. */
  lemma AnalysisKeepsValidity(f: ListingForm, a: ImageAnalysis)
    ensures IsValid(ApplyAnalysis(f, a)) == IsValid(f)
  {
  }

  // ---------------------------------------------------------------------------------------
  // Draft generation

  /** The fields the draft handler checks, in the order it checks them. */
  function RequiredFields(f: ListingForm): seq<(string, string)>
  {
    [("brand", f.brand), ("model", f.model), ("style", f.style),
     ("color", f.color), ("gender", f.gender), ("condition", f.condition)]
  }

  /** The toast text naming the first missing field. */
  function MissingFieldMessage(key: string): string
  {
    "Please provide the '" + key + "' before generating a draft."
  }

  /**
   * The validation loop of the draft handler: the key of the first (key, value) pair whose
   * value is empty, or None when every value is present.
   */
  method FirstMissingField(fields: seq<(string, string)>) returns (missing: Option<string>)
    ensures missing.None? <==> forall i :: 0 <= i < |fields| ==> fields[i].1 != ""
    ensures missing.Some? ==>
      exists i :: 0 <= i < |fields| && fields[i] == (missing.value, "")
        && forall j :: 0 <= j < i ==> fields[j].1 != ""
  {
    var i := 0;
    while i < |fields|
      invariant 0 <= i <= |fields|
      invariant forall j :: 0 <= j < i ==> fields[j].1 != ""
    {
      if fields[i].1 == "" {
        return Some(fields[i].0);
      }
      i := i + 1;
    }
    return None;
  }

  /** All six required fields are present exactly when no entry of RequiredFields is empty. */
  lemma RequiredFieldsPresent(f: ListingForm)
    ensures (forall i :: 0 <= i < |RequiredFields(f)| ==> RequiredFields(f)[i].1 != "")
        <==> f.brand != "" && f.model != "" && f.style != "" && f.color != ""
             && f.gender != "" && f.condition != ""
  {
    var r := RequiredFields(f);
    if f.brand != "" && f.model != "" && f.style != "" && f.color != "" && f.gender != "" && f.condition != "" {
      forall i | 0 <= i < |r| ensures r[i].1 != "" {
      }
    } else {
      assert r[0].1 == "" || r[1].1 == "" || r[2].1 == "" || r[3].1 == "" || r[4].1 == "" || r[5].1 == "";
    }
  }

  /** The request sent to the draft flow: the six required attributes. */
  function DraftRequestOf(f: ListingForm): DraftRequest
  {
    DraftRequest(f.brand, f.model, f.style, f.color, f.gender, f.condition)
  }

  /** A generated draft sets the title, and the description to the generated text plus the disclaimer. */
  function ApplyDraft(f: ListingForm, d: DraftResult): ListingForm
  {
    f.(title := d.title, description := d.description + f.disclaimer)
  }

  /**
   * The new description starts with the generated text and ends with the disclaimer; nothing
   * but title and description changes.
   */
  lemma DraftComposesDescription(f: ListingForm, d: DraftResult)
    ensures var r := ApplyDraft(f, d);
      && r.title == d.title
      && |r.description| == |d.description| + |f.disclaimer|
      && r.description[..|d.description|] == d.description
      && r.description[|d.description|..] == f.disclaimer
      && r == f.(title := r.title, description := r.description)
  {
    var r := ApplyDraft(f, d);
    assert r.description[..|d.description|] == d.description;
    assert r.description[|d.description|..] == f.disclaimer;
  }

  /** Regenerating discards any manual edit of title or description made in between. */
  lemma DraftOverwritesEdits(f: ListingForm, d: DraftResult, title: string, description: string)
    ensures ApplyDraft(f.(title := title, description := description), d) == ApplyDraft(f, d)
  {
  }

  /** Draft generation never changes whether the form passes the schema. */
  lemma DraftKeepsValidity(f: ListingForm, d: DraftResult)
    ensures IsValid(ApplyDraft(f, d)) == IsValid(f)
  {
  }
}
