# Poshmark Pro Lister: listing session, inventory store and sync formatting

This project models the deterministic core of the Poshmark Pro Lister web app in Dafny and
proves properties of that model.

- **Listing sessions.** The four-tab wizard that turns photos into a Poshmark listing is
  modelled as a class per page:
  - `NewListingPage.ListingSession` for the newer `/new-listing` page;
  - `ClassicPage.ClassicSession` for the original `/` page;
  - `ItemDetailsForm.DetailsForm` for the stand-alone details-form component.

  Each React handler is a method that updates the session's fields.
  - The analysis, pricing-research and draft-generation calls are a parameter of type
    `Outcome<T> = Ok(value) | Err(message)`. It stands for what the call returned or threw.
  - The visual search is a parameter `flow: VisualSearchRequest -> Outcome<VisualSearchResult>`.
    The server action, which is modelled, decides whether and with what to call it.
  - Loading an item takes `getItemById`'s answer as an `Outcome` parameter. Saving goes
    through the inventory store object.
  - The handlers that call an AI flow (`Analyze`, `TextSearch`, `DraftGeneration`,
    `ContinueToPricing`, `GoToFinalStep`, `HandleImageUpload`) return the request they sent,
    or `None` when the guard stopped them.
  - The handlers that show a toast return it. `ClassicSession.VisualSearch` returns only its
    toast; what it passes to the flow is stated in its contract.
- **Shared form edits** (`FormEdits`). Both pages implement these identically, except that
  the original page's reset has no `size` field. They are therefore defined once: append, remove by index, reset to defaults, apply an analysis, the
  required-field check in its fixed order, and composing the description from the draft and
  the disclaimer.
- **Form validator** (`ListingSchema`). The `listingFormSchema` rule: at least one image, and
  a positive price when one is given.
- **Inventory store** (`Inventory`, `ImageCodec`).
  - The database is a map from id to row, plus the ids in creation order. A row's
    `createdAt` is its position in that order.
  - `saveItemDraft` is a method on a store object that updates or inserts one row.
  - `getRecentItems` is a function over the table.
  - Image lists are stored as JSON text. `ImageCodec` is the string-list part of JSON: quoting
    with `\"` and `\\` escapes.
- **Server actions** (`Actions`). The analysis, pricing and draft actions pass their flow's
  result through, or rethrow its error. The visual-search action first selects the main
  image and refuses to call the flow without one.
- **Obsidian sync formatting** (`ObsidianSync`).
  - The vault file name is the last `/`-segment plus `.md`.
  - The front-matter header is added, and the code fence is chosen by extension.
  - `syncFile` is modelled over a file system made of two maps. The initial `forEach` is a
    loop.

Behaviours of the code that the model keeps as written:

- Analysis *overwrites* brand, model, style, color, gender, condition and description, with
  `''` (or `'Used'` for condition) where the response omits a field. It does not merge with
  what the user typed (`FormEdits.AnalysisIgnoresPriorAttributes`).
- The newer page never learns the id of a row it created. Saving a new listing twice
  therefore creates two rows (`NewListingPage.RepeatedSaveOfNewListingDuplicates`).
- On the newer page, "I have my price, go to Final Step" opens the draft tab *and* generates
  a draft (`src/app/new-listing/page.tsx:343`). On the original page the same button only
  opens the tab (`src/app/page.tsx:287`).
- The handlers do not check the busy flags. A second click while a call is in flight is not
  prevented by the handler itself.
- `getRecentItems` always takes the 10 newest rows.
- An update skips the keys the request leaves `undefined`, as a Prisma `update` does. After the form is cleared, or after an item priced 0 is loaded, saving keeps the stored price (`NewListingPage.ClearedSaveKeepsStoredPrice`).

## Model

| member | source | states |
|---|---|---|
| ListingSchema.Issues | src/app/schema.ts:3-16 | defines the schema's issues in field order: the images message for an empty list, the price message for a present non-positive price, nothing for any text field |
| ListingSchema.IsValid | src/app/schema.ts:3 | defines validity as having no issue |
| ListingSchema.ValidIff | src/app/schema.ts:3-16 | the form is valid exactly when it has at least one image and its target price is absent or positive |
| ListingSchema.NoImagesInvalid | src/app/schema.ts:4 | a form with no images is invalid, and the first issue is "Please upload at least one image." |
| ListingSchema.NonPositivePriceInvalid | src/app/schema.ts:12 | a present price ≤ 0 makes the form invalid, with "Price must be a positive number." |
| ListingSchema.AbsentPriceValid | src/app/schema.ts:12 | with no price, validity depends only on the images and no price issue is reported |
| ListingSchema.TextFieldsIrrelevant | src/app/schema.ts:5-11 | two forms with the same images and price get the same issues whatever their text fields hold |
| FormEdits.DefaultForm | src/app/new-listing/page.tsx:55-70 | defines the default values, with the page's disclaimer text |
| FormEdits.DefaultFormIsBlank | src/app/new-listing/page.tsx:55-70 | the default form has no images, empty text, condition 'Used', no price and the default disclaimer, and it fails the schema |
| FormEdits.AppendImages | src/app/new-listing/page.tsx:124-125 | defines upload's image list as the current images followed by the new ones |
| FormEdits.WithoutIndex | src/app/new-listing/page.tsx:132 | defines `filter((_, i) => i !== index)` position by position |
| FormEdits.RemovedNotice | src/app/new-listing/page.tsx:134-137 | defines the removal toast, which names `index + 1` |
| FormEdits.WithoutIndexRemovesOne | src/app/new-listing/page.tsx:130-138 | filtering by position removes exactly the element at that index and keeps the rest in order; an index outside the list changes nothing |
| FormEdits.WithoutIndexLength | src/app/page.tsx:69-77 | removal shortens the list by one exactly when the index is a position of the list |
| FormEdits.ApplyAnalysis | src/app/new-listing/page.tsx:173-180 | defines the seven `setValue` calls with their `|| ''` and `|| 'Used'` defaults |
| FormEdits.AnalysisOverwrites | src/app/new-listing/page.tsx:173-180 | each analysed field becomes the response value when non-empty and '' (condition: 'Used') otherwise; images, size, title, price and disclaimer are untouched |
| FormEdits.AnalysisIgnoresPriorAttributes | src/app/page.tsx:112-119 | the analysed fields' previous values do not influence the result (overwrite, not merge) |
| FormEdits.AnalysisIdempotent | src/components/item-details-form.tsx:39-46 | applying the same analysis twice equals applying it once |
| FormEdits.AnalysisKeepsValidity | src/app/schema.ts:3-16 | analysis never changes whether the form passes the schema |
| FormEdits.RequiredFields | src/app/new-listing/page.tsx:227 | defines the required (key, value) pairs in the order of the object literal |
| FormEdits.MissingFieldMessage | src/app/new-listing/page.tsx:234 | defines the toast text naming the missing key |
| FormEdits.DraftRequestOf | src/app/new-listing/page.tsx:241-248 | defines the draft request as the six required attributes |
| FormEdits.FirstMissingField | src/app/new-listing/page.tsx:227-238 | the loop returns nothing exactly when every required field is non-empty, and otherwise the key of the first empty one |
| FormEdits.RequiredFieldsPresent | src/app/new-listing/page.tsx:227-229 | the required fields are checked in the order brand, model, style, color, gender, condition, and all are non-empty exactly when each of the six form fields is |
| FormEdits.ApplyDraft | src/app/new-listing/page.tsx:250-251 | defines the title and the description (generated text + disclaimer) set after a draft |
| FormEdits.DraftComposesDescription | src/app/new-listing/page.tsx:250-251 | after a draft, title is the generated title and description is the generated text followed by the disclaimer; no other field changes |
| FormEdits.DraftOverwritesEdits | src/app/page.tsx:209-210 | a draft replaces whatever title and description the user had written |
| FormEdits.DraftKeepsValidity | src/app/schema.ts:3-16 | applying a draft never changes whether the form passes the schema |
| NewListingPage.FormOfItem | src/app/new-listing/page.tsx:78-91 | defines the `form.reset` values built from a loaded item |
| NewListingPage.LoadedFormDefaults | src/app/new-listing/page.tsx:78-91 | a loaded item keeps its images, turns missing text into '' and a missing condition into 'Used', maps a zero or missing price to no price, and resets the disclaimer |
| NewListingPage.SaveRequestOf | src/app/new-listing/page.tsx:109-114 | defines the object passed to `saveItemDraft` |
| NewListingPage.SaveRequestIsDraft | src/app/new-listing/page.tsx:106-115 | the save request always has status 'DRAFT', price = targetPrice, the form's images, and the page id exactly when that id is truthy |
| NewListingPage.RepeatedSaveOfNewListingDuplicates | src/app/new-listing/page.tsx:106-119 | two saves from a page without an id create two rows with the same fields |
| NewListingPage.ClearedSaveKeepsStoredPrice | src/app/new-listing/page.tsx:140-157 | clearing an item's form and saving leaves the stored price and target price as they were, while the text fields are blanked |
| NewListingPage.ListingSession.constructor | src/app/new-listing/page.tsx:40-70 | a new session has the default form, the upload tab, idle flags, no cached results, and is loading exactly when it has an id |
| NewListingPage.ListingSession.LoadItem | src/app/new-listing/page.tsx:72-104 | without an id nothing happens; a found item fills the form and opens details; a missing item or a failed fetch changes nothing but the toast; loading ends |
| NewListingPage.ListingSession.SaveDraft | src/app/new-listing/page.tsx:106-119 | the store becomes the result of saving the session's request, or stays as it was on failure, with the matching toast; the session is not changed |
| NewListingPage.ListingSession.ImageUpload | src/app/new-listing/page.tsx:123-128 | images become the old ones followed by the new ones, and both cached results are cleared |
| NewListingPage.ListingSession.ImageRemove | src/app/new-listing/page.tsx:130-138 | exactly the image at the index is removed (none when out of range), the caches stay, and the toast names the position from one |
| NewListingPage.ListingSession.ClearImages | src/app/new-listing/page.tsx:140-157 | the form returns to its defaults, including the default disclaimer and no price, and both caches are cleared |
| NewListingPage.ListingSession.Analyze | src/app/new-listing/page.tsx:159-195 | without images there is no call and no change; otherwise the details tab opens, a response is applied by overwriting, an error leaves the form alone, and the analysis flag ends false |
| NewListingPage.ListingSession.TextSearch | src/app/new-listing/page.tsx:197-221 | without brand or model there is no call and no change; otherwise brand, model, size and condition (or 'Used') are sent, the cache is cleared and then set, and the price changes only when the suggestion is truthy |
| NewListingPage.ListingSession.DraftGeneration | src/app/new-listing/page.tsx:223-259 | the first empty required field is reported and no call is made; otherwise the six attributes are sent and the title and description composed from the response |
| NewListingPage.ListingSession.SelectTab | src/app/new-listing/page.tsx:306 | clicking a tab makes it active |
| NewListingPage.ListingSession.SkipPricing | src/app/new-listing/page.tsx:270 | "Skip Pricing" only opens the draft tab |
| NewListingPage.ListingSession.ContinueToPricing | src/app/new-listing/page.tsx:261-264 | opens the pricing tab and has exactly the effect of the text search: the same guard, request, cache update, price update, toast and flags |
| NewListingPage.ListingSession.GoToFinalStep | src/app/new-listing/page.tsx:343 | opens the draft tab and has exactly the effect of draft generation: the same first-missing-field guard, request, composed form, cached draft, toast and flags |
| ClassicPage.VisualInputOf | src/app/page.tsx:172 | defines the action input: all images and the condition or 'Used' |
| ClassicPage.VisualSearchConsultsFirstImage | src/app/page.tsx:172 | with images present, the action fails with its own message when the first image is empty, and otherwise asks the flow about the first image and the condition or 'Used' |
| ClassicPage.ClassicSession.constructor | src/app/page.tsx:29-57 | a new session has the default form, the upload tab, four idle flags and empty result lists |
| ClassicPage.ClassicSession.ImageUpload | src/app/page.tsx:61-67 | images are appended in order, and the draft and both query lists are cleared |
| ClassicPage.ClassicSession.ImageRemove | src/app/page.tsx:69-77 | exactly the image at the index is removed (none when out of range), and the caches stay |
| ClassicPage.ClassicSession.ClearImages | src/app/page.tsx:79-96 | the form returns to its defaults, including the disclaimer, and all three caches are emptied |
| ClassicPage.ClassicSession.Analyze | src/app/page.tsx:98-134 | the same guard and overwrite rule as the newer page, with the analysis flag ending false |
| ClassicPage.ClassicSession.TextSearch | src/app/page.tsx:136-157 | without brand or model there is no call; otherwise only brand and model are sent, only the queries are stored, the list stays empty on failure, and the form is never changed |
| ClassicPage.ClassicSession.VisualSearch | src/app/page.tsx:159-180 | without images there is no call and no change; otherwise the list is cleared and then set to the flow's results, or left empty with the error (the action's own error for an empty first image) |
| ClassicPage.ClassicSession.DraftGeneration | src/app/page.tsx:182-218 | the same first-missing-field rule and description + disclaimer composition as the newer page |
| ClassicPage.ClassicSession.SelectTab | src/app/page.tsx:287 | every tab button, including "go to Final Step", only sets the active tab |
| ItemDetailsForm.InitialForm | src/components/item-details-form.tsx:22-30 | defines the component's `defaultValues`: no images, blank attributes, condition 'Used', and '' for the fields it leaves undefined |
| ItemDetailsForm.InitialFormIsPageDefaultWithoutDisclaimer | src/components/item-details-form.tsx:20-31 | the component's initial form is the pages' default with an empty disclaimer, and it fails the schema |
| ItemDetailsForm.DetailsForm.constructor | src/components/item-details-form.tsx:18-31 | a new form has the initial values and is not analysing |
| ItemDetailsForm.DetailsForm.HandleImageUpload | src/components/item-details-form.tsx:33-62 | the uploaded list replaces the images; analysis is requested only for a non-empty list, applied by overwriting on success, leaves the details alone on failure, and `isAnalyzing` ends false |
| Actions.PassThrough | src/app/actions.ts:22-44 | the action succeeds exactly when the flow does, with the flow's value or the flow's error message |
| Actions.MainImage | src/app/actions.ts:50-53 | defines the main image: the first one when the list is present and non-empty |
| Actions.VisualSearchRequestOf | src/app/actions.ts:50-57 | a request exists exactly when the list is present, non-empty and its first image is non-empty; it carries that image and the condition unchanged; otherwise the error is "No image available for visual search." |
| Actions.VisualSearchAction | src/app/actions.ts:46-69 | the guard's error when there is no main image, otherwise exactly the flow's outcome on the selected request |
| Actions.NoImagesNoFlow | src/app/actions.ts:50-57 | an absent or empty image list fails with the no-image message whatever the flow is |
| Actions.OnlyFirstImageMatters | src/app/actions.ts:51-52 | two inputs with the same first image and condition give the same result |
| ImageCodec.Serialize | src/app/inventory-actions.ts:24 | defines `JSON.stringify` of a string list: quoted, escaped, comma-separated, in brackets |
| ImageCodec.Parse | src/app/inventory-actions.ts:42 | defines `JSON.parse` of a string list, `None` where it would throw |
| ImageCodec.ReadString | src/app/inventory-actions.ts:42 | proof helper: reading a string literal consumes at least one character |
| ImageCodec.ReadEscaped | src/app/inventory-actions.ts:42 | an escaped text followed by a closing quote reads back as that text, leaving the rest |
| ImageCodec.ReadEncoded | src/app/inventory-actions.ts:42 | the encoded elements of a non-empty list read back as the list |
| ImageCodec.RoundTrip | src/app/inventory-actions.ts:17 | parsing the serialisation of any image list gives back that list, the empty list included |
| ImageCodec.SerializeInjective | src/app/inventory-actions.ts:24 | different image lists serialise to different text |
| Inventory.StoredImages | src/app/inventory-actions.ts:17 | defines the stored column `JSON.stringify(data.images || [])` |
| Inventory.ReadImages | src/app/inventory-actions.ts:42 | defines `images ? JSON.parse(images) : []` |
| Inventory.UpdatesExisting | src/app/inventory-actions.ts:8-12 | defines the update case: `data.id` is truthy and `findUnique` finds a row under it |
| Inventory.NewId | src/app/inventory-actions.ts:21-26 | defines the id a create uses: the request's own id when `...data` carries one, otherwise the id the database generates (a parameter) |
| Inventory.UpdatedFields | src/app/inventory-actions.ts:13-18 | defines the row's fields after a Prisma update: the request's fields, except that an undefined price or target price keeps the stored value |
| Inventory.ApplySave | src/app/inventory-actions.ts:6-32 | defines `saveItemDraft` on the table: update a found id, else create under the request's id or a generated one, and fail with the one message on a fault or a taken id |
| Inventory.SaveKeepsWellFormed | src/app/inventory-actions.ts:12-27 | a successful save keeps every row keyed by its id, the creation order duplicate-free and covering exactly the rows, and createdAt equal to the position |
| Inventory.SaveUpdatesInPlace | src/app/inventory-actions.ts:8-19 | saving with an existing id replaces every field the request defines, keeps a stored price or target price the request leaves undefined, keeps the row's createdAt, the key set and the creation order, and leaves every other row as it was |
| Inventory.SaveCreatesOne | src/app/inventory-actions.ts:8-11 | saving without an existing id adds exactly one row, the newest, under the request's id or the generated one, and changes no other row |
| Inventory.SaveFailures | src/app/inventory-actions.ts:28-31 | a save fails exactly on a database fault or a taken new id, always with "Failed to save item draft." |
| Inventory.SavedImagesReadBack | src/app/inventory-actions.ts:16-17 | the stored column is the serialised request list (`[]` when absent), and it reads back as that list |
| Inventory.DistinctCard | src/app/inventory-actions.ts:36-39 | proof helper: a duplicate-free id sequence has as many distinct ids as entries |
| Inventory.RowCount | src/app/inventory-actions.ts:36-39 | proof helper: a table whose creation order indexes its rows has one row per creation-order entry |
| Inventory.RecentRows | src/app/inventory-actions.ts:36-39 | defines `findMany` ordered by createdAt descending, taking 10 |
| Inventory.ParseRows | src/app/inventory-actions.ts:40-43 | defines the `map` that parses each row's images |
| Inventory.GetRecentItems | src/app/inventory-actions.ts:34-48 | defines `getRecentItems`: the parsed recent rows, or [] when the read or a parse fails |
| Inventory.UnparsableRecentRowEmptiesRead | src/app/inventory-actions.ts:42-46 | when one of the recent rows has an image column that does not parse, `JSON.parse` throws inside the `try` and the read returns [] |
| Inventory.RecentRowsAreNewest | src/app/inventory-actions.ts:36-39 | the recent rows number min(10, rows), are rows of the table in strictly descending createdAt, and no omitted row is newer than any returned one |
| Inventory.ParseRowsSpec | src/app/inventory-actions.ts:40-43 | parsing fails exactly when some row's images fail to parse; otherwise each row keeps its fields and gets its parsed list |
| Inventory.RecentItemsReadBack | src/app/inventory-actions.ts:34-48 | a read failure gives []; otherwise every recent row comes back in order with its id, fields and createdAt and the images parsed from its column |
| Inventory.CreatedDraftReadsBackFirst | src/app/inventory-actions.ts:20-27 | after creating a draft, the first recent item is that draft with exactly the images saved |
| Inventory.InventoryStore.constructor | src/app/inventory-actions.ts:3 | a new store is empty and valid |
| Inventory.InventoryStore.SaveItemDraft | src/app/inventory-actions.ts:6-32 | the store becomes the table the save produces and returns the row, or is unchanged and returns the error |
| ObsidianSync.LastSegment | src/scripts/sync-to-obsidian.ts:21 | defines `split(sep).pop()` |
| ObsidianSync.TargetName | src/scripts/sync-to-obsidian.ts:21 | defines the target name rule `includes('/') ? split('/').pop() : fileName` |
| ObsidianSync.OutputPath | src/scripts/sync-to-obsidian.ts:31 | defines the output path in the vault directory |
| ObsidianSync.IsFenced | src/scripts/sync-to-obsidian.ts:27 | defines the fence test: ends in .json, .yml or .prisma, or is Dockerfile |
| ObsidianSync.FenceLanguage | src/scripts/sync-to-obsidian.ts:28 | defines the fence language `split('.').pop() || 'text'` |
| ObsidianSync.Header | src/scripts/sync-to-obsidian.ts:23-26 | defines the front matter, with the time stamp as a parameter |
| ObsidianSync.Render | src/scripts/sync-to-obsidian.ts:23-29 | defines the vault file's text |
| ObsidianSync.SyncFile | src/scripts/sync-to-obsidian.ts:17-37 | defines `syncFile` over the two maps: nothing for a missing or failing file, else the output path is written |
| ObsidianSync.SyncAll | src/scripts/sync-to-obsidian.ts:47 | defines syncing a list of files in order |
| ObsidianSync.LastSegmentIsFinalPart | src/scripts/sync-to-obsidian.ts:21 | the last segment holds no separator, ends the text, and is the whole text or follows a separator |
| ObsidianSync.LastSegmentAfterSep | src/scripts/sync-to-obsidian.ts:28 | proof helper: the last segment of `a + sep + b` is `b` when `b` has no separator |
| ObsidianSync.TargetNameIsLastSegment | src/scripts/sync-to-obsidian.ts:21 | the target name has no '/', ends the file name, is the whole name exactly when there is no '/', and otherwise follows a '/' |
| ObsidianSync.TargetOfPlainName | src/scripts/sync-to-obsidian.ts:21 | a name without '/' is its own target |
| ObsidianSync.TargetOfNestedName | src/scripts/sync-to-obsidian.ts:21 | `dir/base` targets `base` |
| ObsidianSync.OutputPathInVault | src/scripts/sync-to-obsidian.ts:31 | the output starts with the vault directory and '/', and its last segment is the target name plus '.md' |
| ObsidianSync.OutputPathInjective | src/scripts/sync-to-obsidian.ts:31 | two files share an output path only if they share a target name |
| ObsidianSync.FenceLanguageIsExtension | src/scripts/sync-to-obsidian.ts:28 | the fence language of `base.ext` is `ext` |
| ObsidianSync.SplitExtension | src/scripts/sync-to-obsidian.ts:28 | a name ending in '.' + ext has fence language ext |
| ObsidianSync.FenceLanguageOfFenced | src/scripts/sync-to-obsidian.ts:27-28 | .json, .yml and .prisma files are fenced as json, yml and prisma, and Dockerfile as Dockerfile |
| ObsidianSync.RenderKeepsContent | src/scripts/sync-to-obsidian.ts:23-29 | the vault text starts with the header; unfenced content follows it verbatim; fenced content sits unchanged between the opening fence line and the closing fence |
| ObsidianSync.InitialSync | src/scripts/sync-to-obsidian.ts:47 | the loop leaves the vault as syncing each listed file in order does |
| ObsidianSync.SyncWritesOnlyTargets | src/scripts/sync-to-obsidian.ts:17-37 | only output paths of listed files that exist and sync without error are written; every other vault entry is unchanged (a missing file writes nothing) |
| ObsidianSync.SyncIsolatesFailures | src/scripts/sync-to-obsidian.ts:33-35 | a file that exists and syncs without error ends up rendered in the vault whatever happens to the others, if no other listed file shares its output |
| ObsidianSync.PlainConfiguredTargets | src/scripts/sync-to-obsidian.ts:5-15 | the configured names without '/' are their own targets |
| ObsidianSync.NestedConfiguredTargets | src/scripts/sync-to-obsidian.ts:11-14 | `src/app/schema.ts` and `prisma/schema.prisma` target `schema.ts` and `schema.prisma` |
| ObsidianSync.ConfiguredTargetNamesDistinct | src/scripts/sync-to-obsidian.ts:5-15 | the nine target names are pairwise different |
| ObsidianSync.ConfiguredTargetsDistinct | src/scripts/sync-to-obsidian.ts:5-15 | the nine configured files have pairwise different output paths |
| ObsidianSync.InitialSyncOfConfiguredFiles | src/scripts/sync-to-obsidian.ts:46-47 | after the initial sync, every configured file that exists and did not fail is in the vault, rendered |

## Left out

- React rendering, JSX, drag-and-drop and the FileReader in the image uploader are not modelled. A toast is kept as its variant, title and description only.
- Async execution and concurrency are not modelled. Each handler runs from its guard to its `finally` block without interleaving. The busy flags are set and cleared inside one method, so nothing can observe them `true`.
- The AI flows, the prompt text and the search client are not modelled. Each call's result is an arbitrary `Outcome` parameter. `getItemById`, `updateItemStatus`, `deleteItem` and `performVisualSearch` have no bodies to model against: `getItemById`'s answer is a parameter of `LoadItem`, and the other two page actions are not part of this model.
- The database engine is not modelled. A database fault is a `failure` parameter. A new row's generated id is a `generatedId` parameter. `createdAt` is the creation position rather than a clock value, so two rows never share a timestamp. `revalidatePath` has no effect in the model.
- JSON: only string lists with the `\"` and `\\` escapes are modelled. Control-character and `\u` escapes, whitespace between tokens, and non-list JSON are not. Text that is not a serialised string list fails to parse, like `JSON.parse` throwing.
- Prices are `real` rather than floating point. The `z.coerce.number` string coercion and its "Please enter a valid price." message are not modelled.
- Sync: reading, writing and creating directories, the `new Date()` timestamps (one `stamp` parameter for the whole run, where each `syncFile` call takes its own time), the console logs and the file watchers with their mtime comparison are not modelled.
- Logging: the `console.error` calls of the server actions (`src/app/actions.ts:29`, `:41`, `:66`, `:78`) and of the inventory actions (`src/app/inventory-actions.ts:29`, `:45`) have no effect in the model.
- ClassicPage.ClassicSession.SelectTab: covers the original page's "Skip Pricing", "Continue to AI Price Comparison" and "go to Final Step" buttons (`src/app/page.tsx:224`, `:232`, `:287`), each of which only sets the tab.
- The original page has no `size` field in its defaults. The model gives it the shared form with `size` as `''`, which the original page never reads.
- The item-details component leaves size, title, description and disclaimer undefined. They are modelled as `''`.
- The draft-generation flow, which both pages share, declares a `targetPrice` input (`src/ai/flows/draft-generation.ts:20`), but neither page sends one. The model follows the pages and sends only the six attributes.
- The original page's pricing call sends only brand and model (`src/app/page.tsx:149`), although the pricing flow's input schema requires a condition (`src/ai/flows/pricing-research.ts:17`). The model follows the page. What the flow does with the missing field is part of its outcome parameter.
