/**
 * The server actions the pages call. Three of them only forward to their flow; the visual
 * search first picks the main image and refuses to call the flow without one.
 * A flow is modelled as a total function from its request to its outcome.
 */
module Actions {
  import opened Common
  import opened FlowTypes

  const NoImageMessage := "No image available for visual search."

  /**
   * The analyse, pricing and draft actions: call the flow and return its result, or rethrow
   * its error unchanged.
   */
  function PassThrough<I, O>(flow: I -> Outcome<O>, data: I): (r: Outcome<O>)
    ensures r.Ok? <==> flow(data).Ok?
    ensures r.Ok? ==> r.value == flow(data).value
    ensures r.Err? ==> r.message == flow(data).message
  {
    match flow(data)
    case Ok(v) => Ok(v)
    case Err(e) => Err(e)
  }

  /**
   * The main image: the first of the list, when the list is present and not empty.
   * The guard then also refuses an empty first image, since `''` is falsy.
   */
  function MainImage(photoDataUris: Option<seq<string>>): Option<string>
  {
    if photoDataUris.Some? && |photoDataUris.value| > 0 then Some(photoDataUris.value[0]) else None
  }

  /**
   * The request `visualSearchAction` hands to the flow, or the error it raises before any
   * call: there is a request exactly when a non-empty first image exists, and it carries that
   * image and the condition unchanged.
   */
  function VisualSearchRequestOf(input: VisualSearchInput): (r: Outcome<VisualSearchRequest>)
    ensures r.Ok? <==>
      input.photoDataUris.Some? && |input.photoDataUris.value| > 0 && input.photoDataUris.value[0] != ""
    ensures r.Ok? ==> r.value == VisualSearchRequest(input.photoDataUris.value[0], input.condition)
    ensures r.Err? ==> r.message == NoImageMessage
  {
    var main := MainImage(input.photoDataUris);
    if main.None? || main.value == "" then Err(NoImageMessage)
    else Ok(VisualSearchRequest(main.value, input.condition))
  }

  /** `visualSearchAction`: the guard's error, or the flow's outcome on the selected request. */
  function VisualSearchAction(input: VisualSearchInput, flow: VisualSearchRequest -> Outcome<VisualSearchResult>)
    : (r: Outcome<VisualSearchResult>)
    ensures VisualSearchRequestOf(input).Err? ==> r == Err(NoImageMessage)
    ensures VisualSearchRequestOf(input).Ok? ==> r == flow(VisualSearchRequestOf(input).value)
  {
    match VisualSearchRequestOf(input)
    case Err(e) => Err(e)
    case Ok(req) => PassThrough(flow, req)
  }

  /** With no image list, or an empty one, the action fails whatever the flow would do. */
  lemma NoImagesNoFlow(input: VisualSearchInput, flow: VisualSearchRequest -> Outcome<VisualSearchResult>)
    requires input.photoDataUris.None? || input.photoDataUris.value == []
    ensures VisualSearchAction(input, flow) == Err("No image available for visual search.")
  {
  }

  /** The flow is consulted only about the first image: later images never change the result. */
  lemma OnlyFirstImageMatters(a: VisualSearchInput, b: VisualSearchInput,
                              flow: VisualSearchRequest -> Outcome<VisualSearchResult>)
    requires a.photoDataUris.Some? && b.photoDataUris.Some?
    requires |a.photoDataUris.value| > 0 && |b.photoDataUris.value| > 0
    requires a.photoDataUris.value[0] == b.photoDataUris.value[0] && a.condition == b.condition
    ensures VisualSearchAction(a, flow) == VisualSearchAction(b, flow)
  {
  }
}
