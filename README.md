# Car dealership front end: a verified model

This project models the parts of the dealership web site that hold logic. It is written in Dafny and the properties below are proved.

1. **Inventory page** (`Inventory`, over the shared `Types.FilterOptions` record and the JavaScript helpers in `Js`).
   - The address-bar codec between the filter state and the query string: decode, encode, and the shallow `filtersEqual` comparison.
   - The search request built from the state.
   - The pager: total pages, the clamp, and the Prev/Next buttons.
   - A controller class that reacts to URL changes, filter changes, search input, the pager buttons and search responses.
2. **Filter panel** (`FilterPanel`): each handler is a function from filter record to filter record.
   - the generic field update and clear-all;
   - the brand and model selects, with the server-or-catalogue fallback;
   - the price sliders, the year selects, and the fuel, transmission and status buttons.
3. **Sell-your-car form** (`SellForm`): the error map `validate` produces, per-field error clearing on edit, and the submit sequence.
4. **Car details carousel** (`Gallery`): wrap-around previous/next, the thumbnail picker, and the main/thumbnail URL fallback.
5. **Admin tables** (`Admin`, over the list operations in `Records`): the brands, models, cars and car-images pages.
   - Each page is a class holding its table as a sequence of rows.
   - The modal form creates a row (appended with a fresh id), edits a row (by id) or is refused with the page's message.
   - A confirmation deletes every row with an id, except on the images page, which has no delete.
6. **Static catalogue** (`Catalogue`): the 21-car literal and the brand-to-model table.
   - The sorted, duplicate-free option lists derived from the catalogue are proved to be concrete lists.
   - The brand-to-model table is proved consistent with the catalogue.

`trim()` is modelled over the ECMAScript white-space set. `parseInt(s, 10)` and `String(n)` are modelled on unbounded integers: white space, a sign, the longest digit prefix, and NaN when there is none. This agrees with JavaScript for integers of magnitude below 2^53; beyond that JavaScript rounds, and from 10^21 on `String(n)` uses exponent form (see "## Left out"). `Number(s)` is modelled over the reals: decimal digits, a fraction, an exponent, `Infinity`, the `0x`/`0o`/`0b` forms, and NaN. Rounding to doubles is not modelled. Numbers on the inventory page are `Js.Num`, an integer or NaN, with JavaScript's `===`, `<=` and `>` on NaN.

The current year, the fresh ids (`crypto.randomUUID()`), the server's brand list and the search response are parameters.

Behaviour of the code that the model keeps:
- **Page decoding.** The page is decoded as `pageParam ? parseInt(pageParam) : 1`. An absent or empty page is 1, but `page=0` decodes to 0 and `page=abc` to NaN, and the pager works on that value.
- **Search term and ranges.** Searching "Camry" with no brand or model sends the term as both brand and model, together with the two ranges and the page size, because the query builder always sets them (`Inventory.SearchTermFillsBoth`).
- **Status in the query.** The status selection is written to the URL but never sent in the search request (`Inventory.QueryIgnoresUnsentFields`).
- **NaN from `parseInt`.** A non-numeric range bound such as `?priceMin=abc` decodes to NaN, and the model carries it through. `filtersEqual` is then false even against itself (`Inventory.FiltersEqualReflexive`).

## Model

| member | source | states |
|---|---|---|
| Inventory.DecodeStatus | src/components/CarInventory.tsx:73 | the decoded status list holds no empty and no comma-containing token |
| Inventory.DecodeSingle | src/components/CarInventory.tsx:70-71 | fuel and transmission decode to at most one non-empty entry |
| Inventory.DecodeFilters | src/components/CarInventory.tsx:58-74 | mileage and body types always decode to the defaults; each missing range bound falls back to its own default; fuel/transmission hold at most one entry |
| Inventory.DecodeRange | src/components/CarInventory.tsx:61-68 | each bound falls back independently when its key is missing |
| Inventory.Decode | src/components/CarInventory.tsx:45-77 | with no `page` key the page is 1 |
| Inventory.EncodeRangesPaired | src/components/CarInventory.tsx:83-96 | `page` is always present; `priceMin`/`priceMax` are present together exactly when the price range differs from the default, likewise the year bounds |
| Inventory.EncodeDefaults | src/components/CarInventory.tsx:79-98 | the defaults with no search on page 1 serialize to exactly `{page: "1"}` |
| Inventory.EncodeSoldOnly | src/components/CarInventory.tsx:79-98 | the defaults with status `["sold"]` serialize to exactly `{status: "sold", page: "1"}` |
| Inventory.DecodeFallsBackPerBound | src/components/CarInventory.tsx:61-64 | a missing `priceMin` with a present `priceMax` decodes to `[0, parseInt(priceMax)]` |
| Inventory.DecodeExample | src/components/CarInventory.tsx:45-77 | `?brand=Toyota&priceMin=10&priceMax=50&page=2` decodes to brand Toyota, prices [10, 50], page 2 and defaults elsewhere |
| Inventory.DecodeRangeOf | src/components/CarInventory.tsx:61-68 | two present non-empty bounds are both parsed |
| Inventory.ParseIntExamples | src/components/CarInventory.tsx:62-63 | `parseInt` reads "2", "10" and "50" as 2, 10 and 50 |
| Inventory.FiltersEqualReflexive | src/components/CarInventory.tsx:105-114 | `filtersEqual(f, f)` holds exactly when no compared range bound is NaN |
| Inventory.FiltersEqualSymmetric | src/components/CarInventory.tsx:105-114 | the comparison is symmetric |
| Inventory.DecodeEncodeFields | src/components/CarInventory.tsx:45-98 | for NaN-free ranges, decoding the serialized state returns brand, model, both ranges and the search term unchanged; fuel and transmission become the decoding of their first entry, status the split of its joined text, and the page `parseInt(String(page))` |
| Inventory.EncodedTexts | src/components/CarInventory.tsx:81-94 | the text-valued parameters read back as the fields they were written from |
| Inventory.EncodedRange | src/components/CarInventory.tsx:83-90 | a range without NaN bounds decodes to itself from the serialized state |
| Inventory.DecodedRange | src/components/CarInventory.tsx:61-68 | a range written or omitted as the serializer does decodes to itself |
| Inventory.EncodedBound | src/components/CarInventory.tsx:62-67 | a serialized bound parses back to itself; an omitted one equals the default it falls back to |
| Inventory.StatusRoundTrip | src/components/CarInventory.tsx:73 | clean status tokens survive `join(',')`, `split(',')` and `filter(Boolean)` |
| Inventory.NumToStringNotEmpty | src/components/CarInventory.tsx:84-89 | `String(n)` of a number is never empty, so a written bound is never skipped on decode |
| Inventory.JoinNotEmpty | src/components/CarInventory.tsx:93 | a non-empty list of clean tokens joins to a non-empty status value |
| Inventory.SyncAfterEncode | src/components/CarInventory.tsx:101-126 | decoding the serialized state gives a state `filtersEqual` accepts, the same search term and the same page, so the URL-to-state sync does nothing |
| Inventory.RoundTrip | src/components/CarInventory.tsx:45-98 | for integer ranges, at most one non-empty fuel and transmission, clean status tokens, default mileage and body types, `decode(encode(f, q, p)) == (f, q, p)` |
| Inventory.StatusValuesAreClean | src/components/CarInventory.tsx:73 | values of the status type are clean tokens |
| Inventory.ApiSearchParams | src/components/CarInventory.tsx:142-163 | ranges, page and `limit = 9` always sent; only the first fuel and transmission; a search term fills model and brand only where the filter leaves them empty |
| Inventory.SearchTermFillsBoth | src/components/CarInventory.tsx:156-159 | with no brand or model, the term "Camry" fills both, beside the default ranges and page size |
| Inventory.QueryIgnoresUnsentFields | src/components/CarInventory.tsx:142-163 | the request does not depend on status, mileage range or body types |
| Inventory.TotalPages | src/components/CarInventory.tsx:170 | at least 1, and the least page count whose pages of 9 hold every result |
| Inventory.ClampKeepsPageInRange | src/components/CarInventory.tsx:173-175 | a page beyond the last becomes the last; a page in range stays |
| Inventory.ClampWithNoResults | src/components/CarInventory.tsx:170-175 | with no results every page clamps to 1 |
| Inventory.PagerStaysInRange | src/components/CarInventory.tsx:257-272 | Prev and Next keep the page within `[1, totalPages]`, move it by one when enabled, and are disabled exactly at the ends |
| Inventory.Controller.Query | src/components/CarInventory.tsx:142-163 | the request carries the current page and the page size |
| Inventory.Controller.constructor | src/components/CarInventory.tsx:29-36 | state seeded from the initial URL through the same sync as a URL change |
| Inventory.Controller.OnUrlChange | src/components/CarInventory.tsx:101-126 | filters, search term and page are each overwritten only when they differ from the decoded URL; the state is then in sync with the URL when no range bound or page is NaN |
| Inventory.Controller.OnFiltersChange | src/components/CarInventory.tsx:129-140 | new filters reset the page to 1 and the URL becomes their serialization; codec-reproducible filters leave state and URL in sync |
| Inventory.Controller.OnSearchChange | src/components/CarInventory.tsx:129-140 | a different term resets the page to 1 and rewrites the URL; the same term changes nothing |
| Inventory.Controller.OnPreviousPage | src/components/CarInventory.tsx:257-262 | a disabled button does nothing; an enabled one moves to `max(1, page - 1)` and rewrites the URL |
| Inventory.Controller.OnNextPage | src/components/CarInventory.tsx:268-273 | a disabled button does nothing; an enabled one moves to `min(totalPages, page + 1)` and rewrites the URL |
| Inventory.Controller.OnResponse | src/components/CarInventory.tsx:169-175 | the total is `total ?? 0` and a page past the last is clamped, rewriting the URL only when the page changes |
| FilterPanel.FieldsDetermine | src/types/index.ts:21-31 | two filter records equal under every key are equal |
| FilterPanel.UpdateFilters | src/components/CarFilter.tsx:18-20 | the key holds the new value and every other key is unchanged |
| FilterPanel.UpdateLaws | src/components/CarFilter.tsx:18-20 | writing back a key's own value is the identity; the last of two writes wins |
| FilterPanel.ClearFilters | src/components/CarFilter.tsx:24-36 | "Clear All" produces exactly the inventory page's default filters for the same year |
| FilterPanel.BrandsToShow | src/components/CarFilter.tsx:38 | a non-empty server brand list wins, otherwise the catalogue's sorted brands |
| FilterPanel.CatalogueModelsOffered | src/components/CarFilter.tsx:39-44 | without a server table the local one is used, and every catalogue car's model is offered once its brand is chosen |
| FilterPanel.ChangeBrand | src/components/CarFilter.tsx:155-159 | the brand becomes the new one; the model is kept when it fits the new brand and emptied when it does not; no other filter changes |
| FilterPanel.ChangeBrandFits | src/components/CarFilter.tsx:155-159 | after a brand change the model is empty or belongs to the brand |
| FilterPanel.SelectModel | src/components/CarFilter.tsx:174 | only the model changes |
| FilterPanel.SelectModelFits | src/components/CarFilter.tsx:174 | picking "All" or an offered model keeps the model fitting the brand |
| FilterPanel.PriceMinChange | src/components/CarFilter.tsx:115-120 | the parsed value becomes the lower bound when it is at most the upper bound; otherwise the filters are unchanged |
| FilterPanel.PriceMaxChange | src/components/CarFilter.tsx:129-134 | the parsed value becomes the upper bound when it is at least the lower bound; otherwise the filters are unchanged |
| FilterPanel.SliderEditOrdered | src/components/CarFilter.tsx:115-134 | an edit that takes effect leaves an ordered, NaN-free price range, and an ordered range stays ordered |
| FilterPanel.SlidersKeepOrder | src/components/CarFilter.tsx:115-134 | any run of slider edits keeps an ordered price range ordered and every other field unchanged |
| FilterPanel.SliderPosition | src/components/CarFilter.tsx:115-134 | a slider moved to `n` sets the bound to `n` exactly when the order allows it |
| FilterPanel.YearMinChange | src/components/CarFilter.tsx:193 | only the lower year bound is replaced |
| FilterPanel.YearMaxChange | src/components/CarFilter.tsx:202 | only the upper year bound is replaced |
| FilterPanel.YearSelectsUnordered | src/components/CarFilter.tsx:193 | a "from" year above the "to" year is accepted, leaving the range reversed |
| FilterPanel.ToggleFuel | src/components/CarFilter.tsx:218-227 | pressing the selected fuel clears the list, any other press selects just that fuel; the list never has more than one entry |
| FilterPanel.ToggleFuelLaws | src/components/CarFilter.tsx:218-227 | the fuel list stays one the URL codec keeps; two presses from none give none |
| FilterPanel.Toggle | src/components/CarFilter.tsx:243-247 | a present value loses every copy, an absent one is appended; membership flips for it alone |
| FilterPanel.WithoutAppended | src/components/CarFilter.tsx:243-247 | filtering out a value just appended gives the list back |
| FilterPanel.ToggleLaws | src/components/CarFilter.tsx:243-247 | toggling an absent value twice is the identity; a duplicate-free list stays duplicate-free |
| FilterPanel.ToggleTransmission | src/components/CarFilter.tsx:243-247 | only the transmission list changes, by a toggle |
| FilterPanel.ToggleStatus | src/components/CarFilter.tsx:262-266 | only the status list changes, by a toggle |
| FilterPanel.ToggleStatusKeepsStatuses | src/components/CarFilter.tsx:262-266 | status presses keep the list to status values, which the URL codec round-trips |
| SellForm.WithValue | src/pages/SellCars.tsx:73 | the edited field holds the new value; every other field is unchanged |
| SellForm.ValidationErrors | src/pages/SellCars.tsx:45-70 | owner name, phone, brand and model get "required" exactly when blank after trimming; the year gets "invalid" exactly when non-blank and not a number in [1980, year + 1]; no other field has an error |
| SellForm.EmptyFormErrors | src/pages/SellCars.tsx:45-70 | the empty form lacks exactly the four required fields; a blank year is no error |
| SellForm.YearAsDigits | src/pages/SellCars.tsx:61-66 | a year typed as digits is refused exactly when before 1980 or after next year |
| SellForm.UncheckedFieldsIgnored | src/pages/SellCars.tsx:45-70 | email, mileage, price, condition and message never affect the errors |
| SellForm.NoKeysEmpty | src/pages/SellCars.tsx:69 | no keys means the empty error map |
| SellForm.SellCarsPage.constructor | src/pages/SellCars.tsx:40-43 | empty values and errors, nothing submitted |
| SellForm.SellCarsPage.Validate | src/pages/SellCars.tsx:45-70 | the stored errors are the validation errors of the values; the result is true exactly when there are none |
| SellForm.SellCarsPage.HandleChange | src/pages/SellCars.tsx:72-82 | only the field changes and only its error is removed |
| SellForm.SellCarsPage.HandleSubmit | src/pages/SellCars.tsx:84-100 | a failing submit keeps the values and leaves nothing submitted; a passing one resets the values and marks the form sent; no submission stays in flight |
| Gallery.StepsAreModular | src/pages/CarDetails.tsx:65-71 | Next is `(i + 1) mod len`, Prev is `(i - 1) mod len`, and both stay in `[0, len)` |
| Gallery.StepsAreInverse | src/pages/CarDetails.tsx:65-71 | `next(prev(i)) == i` and `prev(next(i)) == i` |
| Gallery.NextTimesModular | src/pages/CarDetails.tsx:69-71 | `k` presses of Next move `k` places round the ring |
| Gallery.FullTurn | src/pages/CarDetails.tsx:69-71 | `len` presses of Next come back to the start |
| Gallery.ImageUrlSources | src/pages/CarDetails.tsx:8-13 | a URL of one kind never depends on the other kind's URL, and the storage key matters only to a record without its own URL of that kind |
| Gallery.ImageUrlFromRecord | src/pages/CarDetails.tsx:8-13 | the URL is one of the record's strings, or "" only when there is no storage key; an empty own URL is kept, not skipped |
| Gallery.ImageUrlKinds | src/pages/CarDetails.tsx:8-13 | without own URLs the main and thumbnail URLs agree |
| Gallery.ImageGallery.constructor | src/pages/CarDetails.tsx:24 | the carousel opens on image 0 and, when there are images, shows the first one's main URL |
| Gallery.ImageGallery.HandlePreviousImage | src/pages/CarDetails.tsx:65-67 | the previous index, in range and modular for a valid index, so a main picture stays shown |
| Gallery.ImageGallery.HandleNextImage | src/pages/CarDetails.tsx:69-71 | the next index, in range and modular for a valid index, so a main picture stays shown |
| Gallery.ImageGallery.SelectImage | src/pages/CarDetails.tsx:133 | a thumbnail press shows that image, with its main URL as the main picture |
| Records.Ids | src/pages/admin/Brands.tsx:5-8 | the ids of the table, position by position |
| Records.Replace | src/pages/admin/Brands.tsx:57-61 | `map` by id keeps length, order and ids, and gives the new fields exactly to rows with the id |
| Records.Remove | src/pages/admin/Brands.tsx:79-81 | `filter` by id leaves no row with the id and never grows the list |
| Records.FindIndex | src/pages/admin/Model.tsx:61-62 | `find` by id stops at the first row with the id, and fails exactly when no row has it |
| Records.FindIndexIsFirst | src/pages/admin/Model.tsx:61-62 | `find` gives the row with the id that has no earlier row with the id, and fails exactly when no row has it |
| Records.ReplaceKeepsIds | src/pages/admin/Brands.tsx:57-61 | an edit keeps the ids, so keeps them unique |
| Records.ReplaceAbsent | src/pages/admin/Brands.tsx:57-61 | editing an id the table does not hold changes nothing |
| Records.ReplaceUnique | src/pages/admin/Brands.tsx:57-61 | with unique ids an edit changes exactly one row |
| Records.ReplaceOwnFields | src/pages/admin/Brands.tsx:57-61 | saving a row with its own fields leaves the table as it was |
| Records.RemoveSplits | src/pages/admin/Brands.tsx:79-81 | removal works piece by piece, so keeps the order of the rows it keeps |
| Records.RemoveAbsent | src/pages/admin/Brands.tsx:79-81 | removing an absent id changes nothing |
| Records.RemoveMembers | src/pages/admin/Brands.tsx:79-81 | a row survives exactly when it was there with another id |
| Records.RemoveUnique | src/pages/admin/Brands.tsx:79-81 | with unique ids removal takes out exactly that row and keeps the rest in order |
| Records.RemoveBetween | src/pages/admin/Brands.tsx:79-81 | removing a row whose id occurs nowhere else joins what is around it |
| Records.IdOnlyAt | src/pages/admin/Brands.tsx:79-81 | with unique ids a row's id occurs neither before nor after it |
| Records.RemoveKeepsUnique | src/pages/admin/Brands.tsx:79-81 | removal keeps ids unique |
| Records.AppendFreshKeepsUnique | src/pages/admin/Brands.tsx:64-67 | appending a fresh id keeps ids unique |
| Records.FindUnique | src/pages/admin/Model.tsx:61-62 | with unique ids `find` of a row's id stops at that row |
| Admin.BrandsPage.constructor | src/pages/admin/Brands.tsx:12-20 | empty table, loading, nothing selected, no error |
| Admin.BrandsPage.FinishLoading | src/pages/admin/Brands.tsx:23-32 | the three mock brands, loading done |
| Admin.BrandsPage.OpenCreate | src/pages/admin/Brands.tsx:35-40 | empty name, no selection, no error, modal open |
| Admin.BrandsPage.OpenEdit | src/pages/admin/Brands.tsx:42-47 | the brand's name, the brand selected, no error, modal open |
| Admin.BrandsPage.ChangeName | src/pages/admin/Brands.tsx:198-199 | only the name changes |
| Admin.BrandsPage.HandleSubmit | src/pages/admin/Brands.tsx:49-73 | a blank name sets "Brand name is required" and changes nothing else; otherwise the selected brand is renamed or a new one appended, and the modal closes with selection and name cleared; ids stay unique |
| Admin.BrandsPage.CloseModal | src/pages/admin/Brands.tsx:205 | only the modal closes |
| Admin.BrandsPage.RequestDelete | src/pages/admin/Brands.tsx:161-162 | only the delete target is set |
| Admin.BrandsPage.CancelDelete | src/pages/admin/Brands.tsx:239-240 | only the delete target is cleared |
| Admin.BrandsPage.ConfirmDelete | src/pages/admin/Brands.tsx:76-83 | without a target nothing happens; otherwise exactly the rows with its id go and the target is cleared; ids stay unique |
| Admin.NameById | src/pages/admin/Model.tsx:61-62 | "-" when no row has the id; otherwise the name of the row with the id that has no earlier row with the id |
| Admin.NameOfRow | src/pages/admin/Model.tsx:61-62 | with unique ids a row's id shows that row's name |
| Admin.NameOfMissing | src/pages/admin/Model.tsx:61-62 | an id no row has shows "-" |
| Admin.ModelsPage.constructor | src/pages/admin/Model.tsx:19-29 | empty tables, loading, empty form, no error |
| Admin.ModelsPage.GetBrandName | src/pages/admin/Model.tsx:61-62 | "-" for an id no brand has; otherwise the name of the first brand with the id |
| Admin.ModelsPage.FinishLoading | src/pages/admin/Model.tsx:32-53 | the four mock brands and five mock models, loading done |
| Admin.ModelsPage.OpenCreate | src/pages/admin/Model.tsx:65-71 | empty name and brand, no selection, no error, modal open |
| Admin.ModelsPage.OpenEdit | src/pages/admin/Model.tsx:73-79 | the model's name and brand, the model selected, no error, modal open |
| Admin.ModelsPage.ChangeName | src/pages/admin/Model.tsx:214-215 | only the name changes |
| Admin.ModelsPage.ChangeBrand | src/pages/admin/Model.tsx:219-220 | only the brand id changes |
| Admin.ModelsPage.CloseModal | src/pages/admin/Model.tsx:228 | only the modal closes |
| Admin.ModelsPage.HandleSubmit | src/pages/admin/Model.tsx:81-106 | a blank name or no brand sets "Model name and Brand are required" and changes nothing else; otherwise the selected model takes the untrimmed name and the brand, or a new model is appended, and the form closes emptied; ids stay unique |
| Admin.ModelsPage.RequestDelete | src/pages/admin/Model.tsx:183 | only the delete target is set |
| Admin.ModelsPage.CancelDelete | src/pages/admin/Model.tsx:262 | only the delete target is cleared |
| Admin.ModelsPage.ConfirmDelete | src/pages/admin/Model.tsx:109-116 | without a target nothing happens; otherwise exactly the rows with its id go; ids stay unique |
| Admin.BlankCarIncomplete | src/pages/admin/Cars.tsx:120-123 | the blank form is refused, also with only one id typed; with both typed, in either order, it is accepted exactly when both are non-empty |
| Admin.EditCar | src/pages/admin/Cars.tsx:252-275 | numeric inputs store `Number` of their text; the colour id has no input |
| Admin.EditCarCompleteness | src/pages/admin/Cars.tsx:120 | only the two id inputs decide whether the form is accepted |
| Admin.NumericInputs | src/pages/admin/Cars.tsx:253-256 | a number typed as digits is stored as that number |
| Admin.NonNumericInputs | src/pages/admin/Cars.tsx:253-256 | a numeric handler given a word (text starting with a lower-case letter) stores NaN, `Number` of that text; the required-field check is unaffected |
| Admin.BlankNumericInputs | src/pages/admin/Cars.tsx:253-256 | an empty or all-white-space text, which a number box passes on when it holds no valid number, is stored as 0 in the year, price and mileage fields |
| Admin.CarsPage.constructor | src/pages/admin/Cars.tsx:41-60 | empty table, loading, the blank form, no error |
| Admin.CarsPage.FinishLoading | src/pages/admin/Cars.tsx:63-93 | the two mock cars, loading done |
| Admin.CarsPage.OpenCreate | src/pages/admin/Cars.tsx:96-111 | the blank form with the current year, no selection, no error, modal open |
| Admin.CarsPage.OpenEdit | src/pages/admin/Cars.tsx:113-117 | the car's fields in the form, the car selected, modal open, the error left as it was |
| Admin.CarsPage.ChangeForm | src/pages/admin/Cars.tsx:252-275 | the form takes one input; nothing else changes |
| Admin.CarsPage.CloseModal | src/pages/admin/Cars.tsx:281 | only the modal closes |
| Admin.CarsPage.HandleSubmit | src/pages/admin/Cars.tsx:119-140 | an empty model id or showroom id sets "Model ID and Showroom ID are required" and changes nothing else; otherwise the selected car takes every form field and keeps its id, or a new car is appended; the form is not reset; ids stay unique |
| Admin.CarsPage.RequestDelete | src/pages/admin/Cars.tsx:224 | only the delete target is set |
| Admin.CarsPage.CancelDelete | src/pages/admin/Cars.tsx:301 | only the delete target is cleared |
| Admin.CarsPage.ConfirmDelete | src/pages/admin/Cars.tsx:143-147 | without a target nothing happens; otherwise exactly the rows with its id go; ids stay unique |
| Admin.EditImage | src/pages/admin/CarImages.tsx:275-382 | the sequence number stores `Number` of its text; only the car and key inputs decide whether the form is accepted |
| Admin.BlankSequenceNumber | src/pages/admin/CarImages.tsx:344-350 | an empty or all-white-space sequence number is stored as 0 |
| Admin.BlankImageNeedsBoth | src/pages/admin/CarImages.tsx:111-114 | the blank form is refused, and accepted only once both a car and a key are given |
| Admin.CarImagesPage.constructor | src/pages/admin/CarImages.tsx:26-43 | empty tables, loading, the blank form, no error |
| Admin.CarImagesPage.GetCarVin | src/pages/admin/CarImages.tsx:74-77 | "-" for an id no car has; otherwise the VIN of the first car with the id |
| Admin.CarImagesPage.FinishLoading | src/pages/admin/CarImages.tsx:46-66 | the two mock cars and the one mock image, loading done |
| Admin.CarImagesPage.OpenCreate | src/pages/admin/CarImages.tsx:80-93 | the blank form, no selection, no error, modal open |
| Admin.CarImagesPage.OpenEdit | src/pages/admin/CarImages.tsx:95-108 | the image's seven fields in the form, the image selected, no error, modal open |
| Admin.CarImagesPage.ChangeForm | src/pages/admin/CarImages.tsx:275-382 | the form takes one input; nothing else changes |
| Admin.CarImagesPage.CloseModal | src/pages/admin/CarImages.tsx:393 | only the modal closes |
| Admin.CarImagesPage.HandleSubmit | src/pages/admin/CarImages.tsx:110-136 | no car or no key sets "Car and Image are required" and changes nothing else; otherwise the selected image takes the form and keeps its id, or a new image is appended; the list never shrinks; ids stay unique |
| Catalogue.LessTransitive | src/data/cars.ts:461-464 | the default sort order is transitive |
| Catalogue.LessTotal | src/data/cars.ts:461-464 | any two different strings are ordered |
| Catalogue.AscendingUnique | src/data/cars.ts:461-464 | an ascending list is determined by its elements |
| Catalogue.SortedDistinctAscending | src/data/cars.ts:461-464 | a sorted duplicate-free list is strictly ascending |
| Catalogue.Distinct | src/data/cars.ts:461 | `Array.from(new Set(xs))` is duplicate-free with the same elements |
| Catalogue.InsertSorted | src/data/cars.ts:461 | inserting keeps a list sorted and adds one copy |
| Catalogue.InsertPermutes | src/data/cars.ts:461 | inserting adds exactly one occurrence of the value and keeps every other count |
| Catalogue.SortSorted | src/data/cars.ts:461 | `sort()` gives a sorted permutation |
| Catalogue.PermutationNoDuplicates | src/data/cars.ts:461 | a permutation of a duplicate-free list is duplicate-free |
| Catalogue.Options | src/data/cars.ts:461-464 | each option list is strictly ascending and holds exactly the values of its column |
| Catalogue.OptionsAre | src/data/cars.ts:461-464 | for `cars.map(car => car.<field>)` put through Set and sort: an ascending list holding exactly the column's values is the option list |
| Catalogue.BrandsValue | src/data/cars.ts:461 | the brands are BMW, Honda, Hyundai, Kia, Mazda, Nissan, Toyota |
| Catalogue.FuelTypesValue | src/data/cars.ts:462 | the fuel types are Hybrid, Petrol |
| Catalogue.TransmissionsValue | src/data/cars.ts:463 | the only transmission is Automatic |
| Catalogue.BodyTypesValue | src/data/cars.ts:464 | the body types are Hatchback, SUV, Sedan |
| Catalogue.BrandModelsCoverBrands | src/data/cars.ts:467-475 | the brand-to-model table's keys are exactly the catalogue's brands |
| Catalogue.EveryModelListed | src/data/cars.ts:3-475 | every catalogue car's model is listed under its brand |
| Js.TrimStrips | src/pages/SellCars.tsx:48 | `trim()` is empty exactly for all-white-space text, and a non-empty result has no white space at either end |
| Js.BlankIffTrimEmpty | src/pages/SellCars.tsx:48 | "blank" means `trim()` gives "" |
| Js.ParseIntOfIntToString | src/components/CarInventory.tsx:62-88 | `parseInt(String(n))` is `n` |
| Js.ParseIntOfNumToString | src/components/CarInventory.tsx:62-88 | `parseInt(String(x))` is `x`, NaN included, so a NaN bound round-trips as NaN |
| Js.ParseIntNaN | src/components/CarInventory.tsx:62 | `parseInt` is NaN exactly when no digits follow the white space and sign |
| Js.NumberOfNatToString | src/pages/SellCars.tsx:62 | `Number` of a decimal numeral is its value |
| Js.NumberOfWord | src/pages/admin/Cars.tsx:253-256 | `Number` of any text that starts with a lower-case letter is NaN, whatever follows |
| Js.SplitJoin | src/components/CarInventory.tsx:73-93 | `split` undoes `join` for comma-free items |
| Js.Without | src/components/CarFilter.tsx:245 | `filter(t => t !== x)` drops exactly `x` and keeps the count of every other value |
| Js.WithoutSplits | src/components/CarFilter.tsx:245 | filtering a concatenation is concatenating the filtered parts, so the kept values stay in their order |
| Js.WithoutKeepsNoDuplicates | src/components/CarFilter.tsx:245 | filtering keeps a duplicate-free list duplicate-free |

## Left out

- Rendering is not modelled: JSX, CSS, translated labels (`t(...)`), icons and the mobile filter drawer.
- The translated field label in front of each sell-form message is not modelled; an error is kept as its kind, "required" or "invalid".
- Fetching is not modelled: the search and filter-metadata hooks, `keepPreviousData`, loading and error flags. The server's brand table and the search total are parameters.
- The split of the response into available and sold cars is presentation and is not modelled.
- React's effect scheduling is not modelled. Each controller event is one step that writes the URL when the state changed. The page-reset effect running after a URL-driven change, and the order of the mount-time effects, are not captured.
- Timers are taken as single steps: the sell form's 800 ms completion and the 500 ms mock loads of three of the admin pages (the car-images page loads without a timer).
- `crypto.randomUUID()` is a fresh-id parameter that must not already be in the table.
- `Js.ParseIntOfIntToString`: proved for every integer; JavaScript agrees only below 2^53 in magnitude, because it rounds longer digit strings to doubles and writes 10^21 and above as `1e+21` and so on, which `parseInt` reads back as 1.
- `Inventory.EncodedBound`: integers are exact here. In JavaScript a bound of magnitude 2^53 or more is already rounded, and one of 10^21 or more comes back from `String` and `parseInt` as a different number.
- `Inventory.SyncAfterEncode`: a range bound of 10^21 or more, for example `?priceMin=1000000000000000000000`, becomes 1 after one state-to-URL-to-state pass in JavaScript, so the sync is not a no-op there.
- `Inventory.RoundTrip`: holds in JavaScript only for range bounds of magnitude below 2^53.
- Floating point is not modelled. Inventory numbers are integers or NaN. `Number(...)` is exact over the reals, so a numeral beyond double precision is not rounded.
- `sortBy` is held in state but never applied, so there is nothing to model.
- The catalogue rows leave out each car's images, features, description, location and featured flags, which no derivation reads. They keep id, brand, model, year, price, mileage, fuel type, transmission, body type, colour and status; of these, year, price, mileage, colour and status are carried as data and read by nothing in the model.
- `Inventory.Controller.OnUrlChange`: the in-sync guarantee needs a URL whose range bounds and page are numbers; with a NaN the sync still overwrites the filters, as the code does.
- `Admin.EditCar`: the model lets any text reach the year, price and mileage handlers. In the page these are `type="number"` boxes, which pass on only a numeral or "", so a non-numeric entry is stored as 0 (`Admin.BlankNumericInputs`), not as NaN. The browser's own input sanitising is not modelled.
- `Admin.EditImage`: likewise, the sequence-number box is `type="number"`; the model lets any text through, and the page's empty value is stored as 0 (`Admin.BlankSequenceNumber`).
- `Admin.CarsPage.OpenEdit`: the form keeps only the car's fields, not its id. The copied id could only reach a created row through a create submit, and that is reached only after `openCreate` has replaced the form.
- `Admin.ModelsPage.ChangeBrand` takes the chosen id as a string; the page's `v ?? ""` guard is not modelled because the select always passes a string.
- Text typed in the sell form's year box is modelled as `Number(year)` over the decimal, exponent, `Infinity` and radix-prefix forms. Number separators and other exotic forms are read as NaN.
- The image row's VIN and the image count are read only by rendering, beyond `getCarVin`.
