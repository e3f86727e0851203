# PlateMate ingredient detection and product matching, in Dafny

This project models the core of two related apps.

- **PlateMate detector.** The browser component watches a camera. For each frame
  it takes the Teachable Machine classifier's predictions and does the following:
  - picks the top prediction with a stable descending sort;
  - rejects it when its probability is below 0.7;
  - ignores it when it repeats the last accepted label;
  - records it and redraws the main card;
  - looks the label up, without regard to case, in a fixed table of three recipes;
  - when the minimum-interval gate is open, sends one product query per ingredient.

  Each query fills its own ingredient card. The card shows either the matched products,
  with their sales figure tiered down, or an error message.
- **Product backend** (`/predict`). It normalises the query and matches it against the
  catalogue's unique product descriptions, by substring or by fuzzy match. For each
  variant it builds a record holding:
  - the first catalogue row, or defaults when there is none;
  - a zero-waste flag read from a free-text cell;
  - a popularity count;
  - up to five embedding neighbours.

  It answers 400 on an empty query and 404 when nothing matches.
- **Simpler ingredient-app detector.** It keeps the confident, non-background
  predictions, and logs "No food detected" when there are none. It then shows every
  confident prediction of a sorted copy, "background" included.

Modules:
- `Text`: trimming, lower-casing, hyphen replacement, substring search.
- `Seqs`: filter, unique-in-order, `list(set(...))`.
- `Ranking`: the stable sort and the top pick.
- `FoodData`: the recipe table and its lookup.
- `ProductApi`: the backend route.
- `ProductDisplay`: the sales tiering and the settling of an ingredient card.
- `PlateMateDetector`: the following pieces.
  - The pure decision `Decide` and `Advance` over the two refs, `lastPrediction` and
    `lastAPICall`.
  - The `Session` class. Its fields are these refs, the title, the not-found notice and
    the ingredient cards.
  - The client runs `RunDebounce`, `RunCompletions` and `RunDetach`.
- `TeachableDetector`: the simpler detector.

Three collaborators cannot be seen from the model, so they enter as parameters:
- the classifier's output for a frame;
- the clock, as `now`;
- the backend's fuzzy matcher (`closeMatches`) and its embedding ranking (`ranking`).

In `PlateMateDetector`, `mounted` stands for the label container being present.

Each ingredient card belongs to the query that created it: its products container is
captured by that fetch callback. Cards are therefore keyed by a ticket. `shown` lists the
tickets still attached to the label container, which is emptied on every accepted label.
A completion always writes its own card. When that card is no longer attached, the
write leaves the displayed panel unchanged (`Session.Complete`). The code does not tag
queries with a detection-cycle id and drops no late results; the model does the same.

Three behaviours of the detector code are modelled as written:
- The gate interval is 0 ms: a fan-out needs `now - lastAPICall > 0`
  (`RATE_LIMIT_WINDOW` is 0). The comment at line 141 says the caching is turned off.
- An accepted label always clears the label container first, before the lookup and the
  gate. So when the gate is closed, the earlier ingredient cards are detached and not
  kept. The container is also cleared for a food the table does not know.
- The recipe keys are lower-cased for the lookup but not trimmed. Only the detected
  label is trimmed.

## Model

| member | source | states |
|---|---|---|
| `Text.Strip` | PlateMate/src/IngredientDetector.tsx:108 | the result is no longer than the input and neither starts nor ends with white space |
| `Text.StripIsInnerSlice` | PlateMate/src/IngredientDetector.tsx:108 | the trimmed label is a contiguous slice of the label; only white space precedes and follows it |
| `Text.StripIdempotent` | PlateMate/src/IngredientDetector.tsx:148 | trimming an already trimmed name changes nothing |
| `Text.LowerChar` | my-ingredient-app/backend/api.py:35 | an ASCII upper-case letter becomes the lower-case letter 32 code points above it; every other character is kept |
| `Text.Lower` | my-ingredient-app/backend/api.py:35 | lower-casing keeps the length, lower-cases each character by `LowerChar` and leaves no upper-case ASCII letter |
| `Text.LowerIdempotent` | my-ingredient-app/backend/api.py:38 | lower-casing an already lower-cased description changes nothing |
| `Text.StripLowerNormal` | my-ingredient-app/backend/api.py:19 | a description lower-cased, then stripped, is changed by neither step any more |
| `Text.LowerStripIdempotent` | my-ingredient-app/backend/api.py:56 | a query stripped, then lower-cased, has no white space at either end and is changed by neither step any more |
| `Text.HyphensToSpaces` | my-ingredient-app/backend/api.py:38 | `replace("-", " ")` keeps the length, turns each hyphen into a space and keeps every other character |
| `Text.ContainsIffOccurs` | my-ingredient-app/backend/api.py:38 | Python's `q in s` holds exactly when `q` occurs at some index of `s` |
| `Text.HyphenatedNeverInReplaced` | my-ingredient-app/backend/api.py:38 | a query containing '-' never matches the hyphen-replaced name, only the plain one |
| `Seqs.Filter` | my-ingredient-app/src/IngredientDetector.tsx:68-70 | an element is kept exactly when it is in the input and passes the test |
| `Seqs.FilterCounts` | my-ingredient-app/src/IngredientDetector.tsx:68-70 | each passing element is kept as often as it occurs; no other element is kept |
| `Seqs.FilterEmptyIff` | my-ingredient-app/src/IngredientDetector.tsx:72-74 | the filter is empty exactly when no element passes |
| `Seqs.FilterAppend` | my-ingredient-app/src/IngredientDetector.tsx:68-70 | filtering distributes over concatenation, so input order is kept |
| `Seqs.Unique` | my-ingredient-app/backend/api.py:26 | `unique()` has no duplicates and the same members as the column |
| `Seqs.UniqueInFirstOccurrenceOrder` | my-ingredient-app/backend/api.py:26 | `unique()` lists values in the order of their first occurrence |
| `Seqs.ListOfSet` | my-ingredient-app/backend/api.py:41 | `list(set(...))` has no duplicates, the set's size and exactly the set's members, in an unspecified order |
| `Ranking.Insert` | PlateMate/src/IngredientDetector.tsx:102-104 | inserting one prediction adds exactly that prediction |
| `Ranking.InsertKeepsSorted` | PlateMate/src/IngredientDetector.tsx:102-104 | inserting into a list sorted by descending probability keeps it sorted |
| `Ranking.SortByProbability` | PlateMate/src/IngredientDetector.tsx:102-104 | the sorted copy is a permutation of the predictions, ordered by non-increasing probability |
| `Ranking.InsertKeepsTiesInOrder` | PlateMate/src/IngredientDetector.tsx:102-104 | an inserted prediction goes before every entry of the same probability |
| `Ranking.SortIsStable` | PlateMate/src/IngredientDetector.tsx:102-104 | predictions of equal probability keep their input order (the array sort is stable) |
| `Ranking.FirstMaximum` | PlateMate/src/IngredientDetector.tsx:105 | the index of a maximal probability with every earlier entry strictly smaller |
| `Ranking.Top` | PlateMate/src/IngredientDetector.tsx:105 | `sortedPredictions[0]` is a prediction of the frame whose probability no other prediction exceeds |
| `Ranking.TopIsFirstMaximum` | PlateMate/src/IngredientDetector.tsx:102-105 | `sortedPredictions[0]` is the first prediction of maximal probability |
| `FoodData.FirstMatch` | PlateMate/src/IngredientDetector.tsx:134-136 | `find` stops at the first table entry whose lower-cased name equals the lower-cased food |
| `FoodData.Lookup` | PlateMate/src/IngredientDetector.tsx:134-136 | a recipe is found exactly when some entry's name matches the food without regard to case, and the recipe found matches |
| `FoodData.LookupIgnoresCase` | PlateMate/src/IngredientDetector.tsx:135 | two labels equal after lower-casing find the same recipe |
| `FoodData.LookupCaesarSalad` | PlateMate/src/IngredientDetector.tsx:38-47 | "caesar salad" and "Caesar Salad" both find the Caesar Salad recipe |
| `FoodData.LookupSpaghettiAndMeatballs` | PlateMate/src/IngredientDetector.tsx:58-67 | the third table entry is found by its own name |
| `FoodData.LookupPizzaMisses` | PlateMate/src/IngredientDetector.tsx:290-295 | a food not in the table is a miss |
| `ProductApi.Normalise` | my-ingredient-app/backend/api.py:19 | loading lower-cases, then strips, every description and keeps the other columns; the result is a loaded frame (`Normalised`) |
| `ProductApi.UniqueProducts` | my-ingredient-app/backend/api.py:25-26 | the unique product descriptions have no duplicates |
| `ProductApi.ProductToId` | my-ingredient-app/backend/api.py:27 | `product_to_id` has exactly the unique products as keys and maps each one to its position |
| `ProductApi.IdEncodingIsBijection` | my-ingredient-app/backend/api.py:27-28 | the ids are injective and `id_to_product` inverts `product_to_id` in both directions over 0..n-1 |
| `ProductApi.IdToProduct` | my-ingredient-app/backend/api.py:28 | `id_to_product` has exactly the ids as keys and maps each product's id back to that product |
| `ProductApi.CatalogIds` | my-ingredient-app/backend/api.py:25-27 | every description in the catalogue, and only those, has an id |
| `ProductApi.IsSubstringVariant` | my-ingredient-app/backend/api.py:38 | a product matches exactly when the lower-cased query occurs in the lower-cased product, as is or with hyphens as spaces |
| `ProductApi.SubstringMatches` | my-ingredient-app/backend/api.py:36-39 | `matches` holds exactly the products that match the query by substring, and no more entries than the products |
| `ProductApi.FindSimilarNames` | my-ingredient-app/backend/api.py:34-41 | a name is a variant exactly when it is a unique product the query is a substring of, with hyphens as is or as spaces, or a fuzzy match |
| `ProductApi.HyphenatedNameMatches` | my-ingredient-app/backend/api.py:38 | "oat milk" matches the product "oat-milk" through the hyphen replacement |
| `ProductApi.Popularity` | my-ingredient-app/backend/api.py:29 | the popularity of a variant is the number of catalogue rows with that description (0 when none) |
| `ProductApi.SimilarProducts` | my-ingredient-app/backend/api.py:43-51 | an unknown product gets no add-ons; otherwise at most five, being the ranking minus its first entry, in order |
| `ProductApi.FirstRow` | my-ingredient-app/backend/api.py:69-70 | `head(1)` is empty exactly when no row has the description; otherwise it is the first row with that description: no earlier row has it |
| `ProductApi.ZeroWasteSpelling` | my-ingredient-app/backend/api.py:73 | a cell is zero-waste exactly when, stripped, it spells "yes", "true", "1" or "zero-waste" letter by letter, ignoring ASCII case |
| `ProductApi.ZeroWastePaddedYes` | my-ingredient-app/backend/api.py:73 | a " Yes " cell counts as zero-waste after strip and lower |
| `ProductApi.ZeroWasteWordsInAnyCase` | my-ingredient-app/backend/api.py:73 | "TRUE" and "Zero-Waste" count as zero-waste: the words match in any case |
| `ProductApi.NotZeroWaste` | my-ingredient-app/backend/api.py:73 | "no" and the empty cell do not |
| `ProductApi.RecordFor` | my-ingredient-app/backend/api.py:65-86 | the record names the variant, counts its catalogue rows as popularity and carries its similar products; when a row has that description, the id is the first such row's id, sales are its amount (0 without the "Amount" column), and the zero-waste flag is that row's cell read as zero-waste (`ZeroWaste`) |
| `ProductApi.VariantsHaveRows` | my-ingredient-app/backend/api.py:36-41 | in a loaded frame, with fuzzy matches drawn from the lower-cased product list, every variant has a catalogue row, so no record takes the defaults |
| `ProductApi.MissingRowDefaults` | my-ingredient-app/backend/api.py:74-77 | without a catalogue row the record has an empty id, sales 0, no zero-waste flag and popularity 0 |
| `ProductApi.UnknownProductHasNoAddons` | my-ingredient-app/backend/api.py:43-45 | a name absent from the catalogue gets an empty add-on list |
| `ProductApi.NormalizeQuery` | my-ingredient-app/backend/api.py:56-57 | the result is empty exactly when the query is missing or all white space; it has no surrounding white space and no upper-case letter, and normalising it again changes nothing |
| `ProductApi.NormalizeQueryKeepsText` | my-ingredient-app/backend/api.py:56 | the result is the query's text between its leading and trailing white space, lower-cased character by character |
| `ProductApi.RecordsHaveRows` | my-ingredient-app/backend/api.py:64-86 | in a loaded frame, with fuzzy matches from the product list, the records of an answer whose products are exactly the variants (as `Predict` ensures for a 200) each come from a catalogue row |
| `ProductApi.BuildResults` | my-ingredient-app/backend/api.py:64-86 | one record per variant, in the variants' order, each built for its variant |
| `ProductApi.Predict` | my-ingredient-app/backend/api.py:53-88 | 400 "missing query" exactly when the trimmed, lower-cased query is empty, that is when it is missing or all white space; 404 "no matches for '…'" exactly when there are no variants (`Variants`, line 60); otherwise the records are one per variant, with no repeats and none missing |
| `ProductDisplay.NormalizeSales` | PlateMate/src/IngredientDetector.tsx:231-236 | tiering never raises a non-negative figure and changes it exactly when it is above 20 |
| `ProductDisplay.NormalizeSalesExamples` | PlateMate/src/IngredientDetector.tsx:234-236 | 150 → 30, 100 → 25, 60 → 15, 51 → 12.75, 50 → 50/3, 21 → 7; 20 and 0 are kept (tier bounds are exclusive) |
| `ProductDisplay.DisplaySales` | PlateMate/src/IngredientDetector.tsx:231 | a match without sales shows 0 |
| `ProductDisplay.Settle` | PlateMate/src/IngredientDetector.tsx:209-287 | a completion never leaves a card loading; it fails exactly on a rejected fetch, with its message; otherwise it lists one shown product per match, each made by `Show` |
| `ProductDisplay.EmptyAndAbsentAgree` | PlateMate/src/IngredientDetector.tsx:213 | an empty `results` and a missing one both show "No products found" |
| `ProductDisplay.SpinachExample` | PlateMate/src/IngredientDetector.tsx:214-238 | a match with sales 120 is shown at 24, with its other fields kept |
| `ProductDisplay.BackendAnswers` | PlateMate/src/IngredientDetector.tsx:209-213 | with `Deliver` giving the JSON bodies of api.py's answers, a 400 or 404 answer shows "No products found", not an error; a 200 answer shows every record with its sales tiered |
| `PlateMateDetector.QueryBodies` | PlateMate/src/IngredientDetector.tsx:145-149 | one query body per ingredient of the recipe |
| `PlateMateDetector.Decide` | PlateMate/src/IngredientDetector.tsx:98-142 | a label is accepted or repeated exactly when there is a container and a confident top prediction, and it is that prediction's trimmed name; the frame is skipped as unmounted exactly when there is no container; a fan-out only when the interval exceeds the window |
| `PlateMateDetector.DecideOnTop` | PlateMate/src/IngredientDetector.tsx:105-108 | the threshold test: the top is accepted or repeated exactly when it is confident, under its trimmed name |
| `PlateMateDetector.Resolve` | PlateMate/src/IngredientDetector.tsx:111-142 | a confident label is either repeated or accepted under that name; it fans out exactly when it is new, the table knows it and the interval exceeds the window; a fan-out or a closed gate carries the recipe found |
| `PlateMateDetector.Advance` | PlateMate/src/IngredientDetector.tsx:112-143 | an accepted label becomes `lastPrediction` and a fan-out stamps `lastAPICall` with now; nothing else moves either ref |
| `PlateMateDetector.AcceptedIsFirstMaximum` | PlateMate/src/IngredientDetector.tsx:102-108 | the accepted label is the trimmed name of the first prediction of maximal probability, and that probability is at least 0.7 |
| `PlateMateDetector.RejectedFrameChangesNothing` | PlateMate/src/IngredientDetector.tsx:99-106 | a frame without a container, an empty frame or a top below 0.7 accepts nothing and leaves the refs unchanged |
| `PlateMateDetector.ThresholdIsInclusive` | PlateMate/src/IngredientDetector.tsx:106 | a probability is rejected exactly when it is below 0.7 |
| `PlateMateDetector.ResolveRecordsLabel` | PlateMate/src/IngredientDetector.tsx:111-112 | a repeat happens exactly when the label equals `lastPrediction` and changes nothing; any accepted label, known or not, becomes `lastPrediction` |
| `PlateMateDetector.ResolveGatesFanOut` | PlateMate/src/IngredientDetector.tsx:134-143 | only a fan-out moves `lastAPICall`, to now; a new label fans out exactly when the table knows it and the interval exceeds the window, meets a closed gate exactly when it is known and the interval does not, and is unknown exactly when the table lacks it |
| `PlateMateDetector.SpaghettiQueryBodies` | PlateMate/src/IngredientDetector.tsx:58-63 | the spaghetti recipe queries Sausage, Spaghetti and Tomato in key order |
| `PlateMateDetector.SpaghettiScenario` | PlateMate/src/IngredientDetector.tsx:98-149 | a first confident "Spaghetti and Meatballs" frame fans out to its three ingredients |
| `PlateMateDetector.SpaghettiRepeats` | PlateMate/src/IngredientDetector.tsx:111 | the same label again is a repeat |
| `PlateMateDetector.PizzaIsUnknown` | PlateMate/src/IngredientDetector.tsx:134-138 | a confident new "Pizza" is accepted as an unknown food |
| `PlateMateDetector.RepeatedLabelFansOutAtMostOnce` | PlateMate/src/IngredientDetector.tsx:111-112 | over any run of frames whose accepted label is always the same food, there is at most one fan-out, and none if that food was already the last label |
| `PlateMateDetector.PrependFanOut` | PlateMate/src/IngredientDetector.tsx:142-143 | one frame's fan-out keeps the fan-out instants increasing and above the start |
| `PlateMateDetector.FanOutTimesIncrease` | PlateMate/src/IngredientDetector.tsx:139-143 | over any run of frames the fan-out instants are strictly increasing and later than the starting `lastAPICall` plus the window |
| `PlateMateDetector.Session.Panel` | PlateMate/src/IngredientDetector.tsx:202 | the label container shows one ingredient card per attached ticket |
| `PlateMateDetector.Session.constructor` | PlateMate/src/IngredientDetector.tsx:32-33 | the refs start as no label and time 0, with nothing shown |
| `PlateMateDetector.Session.Step` | PlateMate/src/IngredientDetector.tsx:98-296 | the decision is `Decide` on the old refs and the refs move by `Advance`. A rejected or repeated frame changes nothing. An accepted label sets the title and the not-found notice and clears the container. A fan-out attaches exactly one fresh Loading card per ingredient and returns their queries |
| `PlateMateDetector.Session.Apply` | PlateMate/src/IngredientDetector.tsx:112-149 | the state updates of a decision: the same new state as `Step`, given the decision |
| `PlateMateDetector.Session.IssueQueries` | PlateMate/src/IngredientDetector.tsx:145-207 | one query and one fresh Loading card per body, in order, all attached; earlier cards are kept |
| `PlateMateDetector.Session.Complete` | PlateMate/src/IngredientDetector.tsx:209-287 | a completion settles only its own card; sibling cards are untouched; a detached card's completion leaves the displayed panel unchanged |
| `TeachableDetector.Filtered` | my-ingredient-app/src/IngredientDetector.tsx:68-70 | `filtered` holds exactly the predictions with probability at least 0.7 whose lower-cased name is not "background" |
| `TeachableDetector.Rows` | my-ingredient-app/src/IngredientDetector.tsx:82-90 | the rows are exactly the confident predictions and form a prefix of the sorted copy |
| `TeachableDetector.Predict` | my-ingredient-app/src/IngredientDetector.tsx:64-90 | without a container nothing happens; otherwise "No food detected" is logged exactly when no prediction is food, and the rows are the confident sorted ones |
| `TeachableDetector.FilteredInInputOrder` | my-ingredient-app/src/IngredientDetector.tsx:68-70 | `filtered` keeps input order: a later prediction is appended after the earlier ones exactly when it is food |
| `TeachableDetector.ConfidentPrefix` | my-ingredient-app/src/IngredientDetector.tsx:82-90 | in the sorted copy the confident predictions form a prefix |
| `TeachableDetector.RowsAreConfidentSorted` | my-ingredient-app/src/IngredientDetector.tsx:77-90 | the displayed rows are a permutation of the confident predictions, in descending probability, and the head of the sorted copy |
| `TeachableDetector.BackgroundStillDisplayed` | my-ingredient-app/src/IngredientDetector.tsx:68-90 | a confident "Background" is logged as no food yet still shown as a row |

## Left out

- Camera, classifier and frame loop: model loading, webcam setup and play, the
  `requestAnimationFrame` loop and webcam stop. These are device I/O and scheduling. One
  `Step` per frame stands for them, and the classifier's output is a parameter.
- DOM construction, CSS classes, the expand/collapse handler, the confidence badge, the
  quantity/unit line and `toFixed` rounding. These are presentation. The model keeps only
  which cards are attached and what each card's status holds.
- Fetch concurrency: each completion is an atomic `Complete` call. Clients may call
  `Complete` in any order, and after later `Step` calls.
- `Session.Step`: when an ingredient key had surrounding white space, the trimmed lookup
  at line 149 would find no details and the handler would throw part-way through the
  fan-out. The model does not capture that, because no key in the fixed table has such
  white space.
- Floating point: probabilities and sales are reals. NaN, infinities and rounding of the
  tier divisions are not modelled.
- Strings are sequences of characters. Only ASCII white space and ASCII letters are
  treated: no Unicode white space for `trim`/`strip`, and no Unicode case mapping.
  Python's `str.strip()` also removes the separators U+001C to U+001F. `IsSpace` does not
  count them, so a query or description ending in one of them keeps it here.
- Backend loading: CSV reading, the string casts, the "Transaction ID" trimming and the
  merge are not modelled. The catalogue is a parameter: a sequence of merged rows, plus a
  flag telling whether the "Amount" column exists. `dropna` is the identity here, because
  both columns were cast to strings first. The description normalisation of line 19 is
  `Normalise`. `Predict` accepts any catalogue. `VariantsHaveRows` states what a
  catalogue that went through that normalisation guarantees.
- `get_close_matches` and the embedding similarity ranking are parameters
  (`closeMatches`, `ranking`). Their internals (difflib ratios, cosine similarity and
  `argsort`) are not modelled.
- `ProductApi.Predict`: a non-string "query" member and an unparsable body are not
  modelled; the query is either absent or a string. The JSON encoding is not modelled.
- `TeachableDetector.Predict`: the input array is left unchanged because the sort works on
  a copy. Dafny sequences are values, so this holds by construction and no lemma states it.
