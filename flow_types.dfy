/**
 * The request and response shapes of the three AI flows and of the visual search.
 * The flows themselves are calls into a language model; the model only sees their outcomes.
 */
module FlowTypes {
  import opened Common

  /** Output of the image-analysis flow: every attribute may be missing. */
  datatype ImageAnalysis = ImageAnalysis(
    brand: Option<string>,
    model: Option<string>,
    style: Option<string>,
    color: Option<string>,
    gender: Option<string>,
    condition: Option<string>,
    description: Option<string>)

  /** Input of the pricing-research flow; the older page sends neither size nor condition. */
  datatype PricingRequest = PricingRequest(
    brand: string,
    model: string,
    size: Option<string>,
    condition: Option<string>)

  /** Output of the pricing-research flow. */
  datatype PricingResult = PricingResult(searchQueries: seq<string>, suggestedPrice: Option<real>)

  /** The six attributes the pages send to the draft-generation flow. */
  datatype DraftRequest = DraftRequest(
    brand: string,
    model: string,
    style: string,
    color: string,
    gender: string,
    condition: string)

  /** Output of the draft-generation flow. */
  datatype DraftResult = DraftResult(title: string, description: string)

  /** What a page passes to the visual-search server action. */
  datatype VisualSearchInput = VisualSearchInput(photoDataUris: Option<seq<string>>, condition: string)

  /** What the visual-search server action passes on to the visual-search flow. */
  datatype VisualSearchRequest = VisualSearchRequest(photoDataUri: string, condition: string)

  /** Output of the visual-search flow. */
  datatype VisualSearchResult = VisualSearchResult(searchResults: seq<string>)
}
