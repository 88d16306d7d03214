# Dog-breed gallery: a Dafny model of its logic

The gallery is an Angular application over the dog.ceo API. It shows random dog images. It
searches images by breed or sub-breed through an autocomplete box. It lets the user like images
and switch between All and Liked views. This project models the logic behind those features and
proves properties of it:

- the string utilities: `normalizeString` and the `/breeds/<segment>` extractor `getBreedNameFromSrc`;
- the autocomplete catalogue: flattening breed → sub-breeds entries into ordered options, and
  filtering them by a normalised term;
- the search page: how a selected option becomes a breed/sub-breed query, and which list the
  grid displays;
- the grid's Liked view and the detail dialog's like state, which use different membership
  tests;
- the All/Liked toggle;
- both versions of the API gateway: dispatch, paths, the all-or-nothing batch of random
  images, and error-to-default mapping;
- the liked-list store and its persisted copy.

Layout, one module per file:

| file | module | models |
|---|---|---|
| base.dfy | `Base` | `Option`, HTTP `Outcome`, `filter`, `find`, `forkJoin` |
| strings.dfy | `Strings` | `src/app/utils/strings.ts` and the JavaScript string primitives it uses |
| models.dfy | `Models` | the shared records and constants (`BreedQuery`, `FilterToggle`, `FILTER_OPTIONS`, keys) |
| breeds_store.dfy | `BreedsStore` | the liked-list store, as its specification file describes it |
| search.dfy | `Search` | `src/app/components/search/search.component.ts` |
| search_breed.dfy | `SearchBreed` | `src/app/pages/search-breed/search-breed.component.ts` |
| breeds_grid.dfy | `BreedsGrid` | `src/app/components/breeds-grid/breeds-grid.component.ts` |
| detail_dialog.dfy | `DetailDialog` | `src/app/components/breed-detail-dialog/breed-detail-dialog.component.ts` |
| filter_toggle.dfy | `FilterToggleComponent` | `src/app/components/ui/filter-toggle/filter-toggle.component.ts` |
| legacy_dog_api.dfy | `LegacyDogApi` | `src/app/services/dog.api.service.ts`, the gateway the components import |
| dog_api.dfy | `DogApi` | `src/app/services/dog-api/dog-api.service.ts`, the same requests with `catchError` |

Modelling choices:

- Angular signals, linked signals and effects are fields of small classes. Each
  recomputation or `set` is an explicit method.
- A resource's value arrives through a method such as `SearchResourceChanged(results, isSearching)`.
- HTTP is a parameter: a function from URL to `Outcome` of the response envelope. For the batch
  of random-image requests it takes the index of the request as well, so the answers can differ.
- The number of random images, `RANDOM_BREEDS_LIMIT`, is a parameter `n`. Its defining file
  `src/app/constants/limits.ts` is not part of this model.
- The catalogue (`BreedList`) is the sequence of its `Object.entries`, so entry order is explicit.
- Browser storage is a `map` from key to `Stored`, which is a parsed JSON string array or
  `Malformed`.
- An error notification is counted (`Caught.notices`); its text is not modelled.
- Character model for `normalizeString`:
  - The input is taken to be already in NFD, so an accent is a combining mark in U+0300..U+036F.
  - `toLowerCase` is modelled on ASCII letters only.
  - `trim` removes exactly the ECMAScript white-space and line-terminator set.

The store's implementation file `src/app/services/breeds/breeds.service.ts` is not part of this
model: the store is modelled from the behaviour its specification file
`src/app/services/breeds/breeds.service.spec.ts` describes. Where that description leaves a
choice open, the model takes these readings:

- `removeLikedBreed` removes every entry equal to its argument.
- `fetchLikedBreeds` on malformed stored data fails and keeps the current list. The tests only
  cover a successful re-read (lines 68-79) and creation throwing on malformed data (lines 59-66).
- Stored data is either a JSON array of strings or malformed. Valid JSON that is not a string
  array (such as `{}` or `5`) has no case of its own.

## Model

| member | source | states |
|---|---|---|
| Strings.Trim | src/app/utils/strings.ts:13 | the result has no white space at either end, and it is a slice of the input with only white space outside it |
| Strings.NormalizeClean | src/app/utils/strings.ts:8-14 | a normalised string has no surrounding white space, no combining marks and no upper-case letters |
| Strings.StripMarksLower | src/app/utils/strings.ts:11-12 | removing accents and lower-casing commute |
| Strings.NormalizeIgnoresCase | src/app/utils/strings.ts:10-13 | normalising a lower-cased string gives the same result as normalising the original, so the search term is case-insensitive |
| Strings.NormalizeCleanIsIdentity | src/app/utils/strings.ts:8-14 | a string without marks, upper-case letters or surrounding white space normalises to itself |
| Strings.Contains | src/app/components/search/search.component.ts:192 | `includes` holds exactly when the substring occurs at some position |
| Strings.SplitJoin | src/app/utils/strings.ts:26 | `split(sep)` undoes `join(sep)` when no part contains the separator's first character |
| Strings.FirstBreedMatch | src/app/utils/strings.ts:22-23 | the regex finds the leftmost position where `/breeds/` is followed by a character other than `/` |
| Strings.SegmentEnd | src/app/utils/strings.ts:22 | the greedy `[^/]+` group stops at the next `/` or at the end of the string, and contains no `/` |
| Strings.BreedSegment | src/app/utils/strings.ts:22-24 | there is no capture exactly when the pattern matches nowhere; a capture is non-empty and has no `/` |
| Strings.GetBreedNameFromSrc | src/app/utils/strings.ts:21-29 | the result is null exactly when `/breeds/` followed by a non-`/` character occurs nowhere in `src` |
| Strings.SplitJoinIsExpand | src/app/utils/strings.ts:26 | `split('-').join(' - ')` is the same as rewriting each `-` of the segment as `" - "` |
| Strings.BreedNameOfMatch | src/app/utils/strings.ts:22-26 | on a match, the name is the maximal non-`/` run after the leftmost match, with each `-` rewritten |
| Strings.BreedNameShape | src/app/utils/strings.ts:22-26 | a name never contains `/`, and a segment without `-` is returned unchanged |
| Strings.BreedNameRoundTrip | src/app/utils/strings.ts:26 | when the segment has no space, splitting the name on `" - "` gives the segment's `-`-separated parts |
| Strings.NoSlashNoName | src/app/utils/strings.ts:22-24 | a string without `/` has no breed name |
| Strings.BreedNameAfterHost | src/app/utils/strings.ts:22-26 | for a host without `b`, then `/breeds/`, a segment, then a path: the name is the rewritten segment |
| Strings.BreedNameExample | src/app/utils/strings.ts:21-29 | `https://images.dog.ceo/breeds/retriever-golden/random-name-123.jpg` gives `retriever - golden` |
| Strings.InvalidUrlExample | src/app/utils/strings.ts:22-24 | `invalid-url` gives no name |
| Search.AutoCompleteBreeds | src/app/components/search/search.component.ts:105-122 | an absent catalogue gives no options; otherwise the accumulated list equals the option list of the catalogue |
| Search.OptionsAppend | src/app/components/search/search.component.ts:108-121 | the option list of a concatenation of catalogues is the concatenation of their option lists |
| Search.OptionsOfEntry | src/app/components/search/search.component.ts:108-121 | each entry's options are the breed and then `breed - sub` for each sub-breed, placed after the options of the entries before it |
| Search.OptionsCount | src/app/components/search/search.component.ts:109-118 | there is one option per breed plus one per sub-breed; a breed without sub-breeds contributes only itself |
| Search.CatalogueExample | src/app/components/search/search.component.spec.ts:36-55 | a four-breed catalogue with 2, 2, 2 and 0 sub-breeds gives ten options, in entry order |
| Search.MatchingOptionsSpec | src/app/components/search/search.component.ts:187-194 | a term that normalises to empty keeps every option; otherwise the result keeps exactly the options whose lower-case form contains the term, in order and with their multiplicity |
| Search.MatchingIgnoresCase | src/app/components/search/search.component.ts:188-193 | a lower-cased search value shows the same options as the value typed |
| Search.NothingMatches | src/app/components/search/search.component.ts:191-193 | a term no option contains shows no options |
| Search.BreedNameShowsItsEntry | src/app/components/search/search.component.ts:187-194 | typing a breed's name, in any case, keeps all of that breed's options |
| Search.BreedNameInCatalogue | src/app/components/search/search.component.ts:187-194 | over a whole catalogue, typing a breed's name gives the matches of the earlier entries, then all of that breed's options in order, then the matches of the later entries |
| Search.BreedNameShowsOnlyItsEntry | src/app/components/search/search.component.spec.ts:183-191 | when no option of another entry contains the breed's name, typing it in any case shows exactly that breed's options, one plus one per sub-breed (three for `bulldog` with two sub-breeds) |
| Search.ClearedBoxShowsAll | src/app/components/search/search.component.ts:135-140 | a null value emits the empty selection and shows every option; an empty string shows every option and emits nothing |
| Search.SearchBox.constructor | src/app/components/search/search.component.ts:169-175 | the box starts with the shared search value |
| Search.SearchBox.SyncSearch | src/app/components/search/search.component.ts:152-156 | a new shared search value is written into the box |
| Search.SearchBox.OnSelectedFilter | src/app/components/search/search.component.ts:176-181 | the shared filter becomes the chosen option, and `''` is emitted exactly when the box is null or empty |
| SearchBreed.ShowingBreedsCases | src/app/pages/search-breed/search-breed.component.ts:61-72 | non-empty results are shown; with no results, nothing is shown while searching or when there are no random images; otherwise the random images are shown |
| SearchBreed.CanSearchMeansRandomShown | src/app/pages/search-breed/search-breed.component.ts:77-81 | when nothing is loading, search-from-image is offered exactly when the grid shows the random images rather than results |
| SearchBreed.SelectionIdempotent | src/app/pages/search-breed/search-breed.component.ts:134-170 | a query is set only when it differs, so the same selection made twice sets it once |
| SearchBreed.PlainSelection | src/app/pages/search-breed/search-breed.component.ts:144-154 | a selection without `" - "` sets `{normalize(sel), ''}`, unless the breed already equals it, in which case the query is unchanged |
| SearchBreed.ParentSelectionKeepsSubBreed | src/app/pages/search-breed/search-breed.component.ts:148-151 | choosing a bare breed while one of its sub-breeds is the query leaves the query, sub-breed included, unchanged |
| SearchBreed.BreedOptionSelection | src/app/pages/search-breed/search-breed.component.ts:144-154 | choosing a breed option sets that breed, with no sub-breed when the breed changes |
| SearchBreed.SubBreedOptionSelection | src/app/pages/search-breed/search-breed.component.ts:144-169 | choosing a `breed - sub` option of the catalogue gives exactly the query `{breed, sub}` |
| SearchBreed.SearchBreedPage.constructor | src/app/pages/search-breed/search-breed.component.ts:48-72 | the page starts with the empty query, no results and no displayed list; the filter effect's first run at creation is the separate `FilterChanged()` call |
| SearchBreed.SearchBreedPage.SearchResourceChanged | src/app/pages/search-breed/search-breed.component.ts:61-72 | a change of the search resource recomputes the displayed list |
| SearchBreed.SearchBreedPage.RandomResourceChanged | src/app/pages/search-breed/search-breed.component.ts:61-72 | a change of the random images recomputes the displayed list |
| SearchBreed.SearchBreedPage.FilterChanged | src/app/pages/search-breed/search-breed.component.ts:108-128 | with a breed in the query nothing changes; otherwise Liked shows the liked list and All the random images |
| SearchBreed.SearchBreedPage.OnSelectedBreed | src/app/pages/search-breed/search-breed.component.ts:134-155 | under Liked an empty selection shows the liked list and leaves the query; otherwise the query becomes the parsed selection, and a reload is triggered only when it differs |
| BreedsGrid.ShowingBreedsSpec | src/app/components/breeds-grid/breeds-grid.component.ts:55-63 | outside Liked all images are shown; under Liked, the order-preserving selection of images equal to a liked entry, never longer than the input |
| BreedsGrid.LikedEmptyState | src/app/components/breeds-grid/breeds-grid.component.ts:44 | under Liked, the empty state holds exactly when none of the images is liked |
| BreedsGrid.LikedViewExample | src/app/components/breeds-grid/breeds-grid.component.spec.ts:57-67 | three images with the first liked: Liked shows that one, All shows all three |
| BreedsGrid.Grid.OnItemExplore | src/app/components/breeds-grid/breeds-grid.component.ts:89-91 | the shared search value becomes the item's name and nothing else changes |
| BreedsGrid.Grid.OnItemLike | src/app/components/breeds-grid/breeds-grid.component.ts:96-102 | a liked item is removed from the liked list, any other is appended, and the new list is persisted |
| DetailDialog.IsLiked | src/app/components/breed-detail-dialog/breed-detail-dialog.component.ts:82-86 | an image is liked exactly when some liked entry is a substring of its URL |
| DetailDialog.LikedBasics | src/app/components/breed-detail-dialog/breed-detail-dialog.component.ts:85 | nothing liked gives not-liked; a list holding the URL itself gives liked |
| DetailDialog.GridLikedIsDialogLiked | src/app/components/breed-detail-dialog/breed-detail-dialog.component.ts:85 | an image in the grid's Liked view is liked in the dialog |
| DetailDialog.DialogLikedNotGridLiked | src/app/components/breed-detail-dialog/breed-detail-dialog.component.ts:85 | the converse fails: a liked proper prefix of the URL makes it dialog-liked while the grid's Liked view drops it |
| DetailDialog.LikeMakesLiked | src/app/components/breed-detail-dialog/breed-detail-dialog.component.ts:112-118 | after a like, the image is liked |
| DetailDialog.UnlikeKeepsSubstringLike | src/app/components/breed-detail-dialog/breed-detail-dialog.component.ts:82-86 | after an unlike the image stays liked when another liked entry is a substring of its URL |
| DetailDialog.UnlikeClears | src/app/components/breed-detail-dialog/breed-detail-dialog.component.ts:112-118 | an unlike clears the like when the URL itself is the only liked entry it contains |
| DetailDialog.Dialog.constructor | src/app/components/breed-detail-dialog/breed-detail-dialog.component.ts:78-91 | the dialog shows its data over the shared store and starts open |
| DetailDialog.Dialog.OnLike | src/app/components/breed-detail-dialog/breed-detail-dialog.component.ts:82-118 | branching on the like state of the current liked list, liked images are removed and others appended, the new list is persisted, and a like always ends liked |
| DetailDialog.Dialog.OnExplore | src/app/components/breed-detail-dialog/breed-detail-dialog.component.ts:108-111 | the shared search value becomes the image's name and the dialog closes |
| FilterToggleComponent.InitialSelection | src/app/components/ui/filter-toggle/filter-toggle.component.ts:36-42 | the first option flagged as selected, or none exactly when no option is flagged |
| FilterToggleComponent.OptionNamed | src/app/components/ui/filter-toggle/filter-toggle.component.ts:55-58 | the first option with the given name, or none exactly when no option has it |
| FilterToggleComponent.FilterOptionsSelection | src/app/constants/misc.ts:3-6 | with the application's options, All starts selected and `Liked` finds the Liked option |
| FilterToggleComponent.Toggle.constructor | src/app/components/ui/filter-toggle/filter-toggle.component.ts:36-42 | the initial selection is the first flagged option |
| FilterToggleComponent.Toggle.SetOptions | src/app/components/ui/filter-toggle/filter-toggle.component.ts:36-42 | new options reset the linked selection |
| FilterToggleComponent.Toggle.OnSelect | src/app/components/ui/filter-toggle/filter-toggle.component.ts:51-61 | a key other than Enter, or an unknown name, changes and emits nothing; otherwise the first option with that name is selected and emitted |
| LegacyDogApi.Request | src/app/services/dog.api.service.ts:18-22 | a request yields exactly the response's `message`, or fails when the transport fails |
| LegacyDogApi.DispatchSpec | src/app/services/dog.api.service.ts:44-57 | no breed means no request; a breed alone fetches `…/breed/{b}/images`; a breed and sub-breed fetch `…/breed/{b}/{s}/images` |
| LegacyDogApi.SearchSpec | src/app/services/dog.api.service.ts:44-59 | without a breed the value is null; otherwise the search fails exactly when its request fails, and yields that response's message |
| LegacyDogApi.RandomSpec | src/app/services/dog.api.service.ts:64-77 | the batch succeeds exactly when all `n` requests do, and then yields the `n` answers in request order |
| DogApi.SearchCatchesFailure | src/app/services/dog-api/dog-api.service.ts:66-81 | the search is the older gateway's search with a failure replaced by `[]` and one notice; no breed gives null |
| DogApi.FailedSearch | src/app/services/dog-api/dog-api.service.ts:33-60 | a failed breed or sub-breed request gives `[]` and exactly one notice |
| DogApi.RandomAllOrNothing | src/app/services/dog-api/dog-api.service.ts:86-107 | either all `n` answers in request order with no notice, or `[]` with one notice; there are no partial results |
| DogApi.GetAllBreedsSpec | src/app/services/dog-api/dog-api.service.ts:112-126 | the catalogue on success, the empty catalogue and one notice on failure; the empty values are also the defaults |
| BreedsStore.LoadLiked | src/app/services/breeds/breeds.service.spec.ts:41-66 | nothing stored reads as `[]`, and reading fails exactly when the stored data is malformed |
| BreedsStore.LoadPersisted | src/app/services/breeds/breeds.service.spec.ts:96-106 | the persisted list reads back unchanged, and no other key changes |
| BreedsStore.AddedSpec | src/app/services/breeds/breeds.service.spec.ts:87-120 | adding appends at the end, grows the list by one and keeps duplicates |
| BreedsStore.RemovedSpec | src/app/services/breeds/breeds.service.spec.ts:130-138 | removing deletes the entry and keeps the order and multiplicity of every other entry |
| BreedsStore.RemovedLength | src/app/services/breeds/breeds.service.spec.ts:130-138 | removing shortens the list by the number of occurrences of the entry |
| BreedsStore.RemoveAbsent | src/app/services/breeds/breeds.service.spec.ts:152-164 | removing an absent entry leaves the list unchanged |
| BreedsStore.AddThenRemove | src/app/services/breeds/breeds.service.spec.ts:81-165 | unliking a fresh like restores the list |
| BreedsStore.Store.constructor | src/app/services/breeds/breeds.service.spec.ts:35-57 | over readable storage, the defaults are search `''` and filter `FILTER_OPTIONS[0]` and the liked list is the stored one, so memory and storage agree |
| BreedsStore.Store.Create | src/app/services/breeds/breeds.service.spec.ts:35-66 | creation fails exactly on malformed stored data; otherwise it loads the stored list, with the default search and filter |
| BreedsStore.Store.FetchLikedBreeds | src/app/services/breeds/breeds.service.spec.ts:68-79 | the list is re-read from storage; malformed data fails and keeps the current list |
| BreedsStore.Store.AddLikedBreed | src/app/services/breeds/breeds.service.spec.ts:81-121 | the entry is appended and the whole new list is persisted under `likedBreeds` |
| BreedsStore.Store.RemoveLikedBreed | src/app/services/breeds/breeds.service.spec.ts:123-165 | the entry is removed and the whole new list is persisted under `likedBreeds` |

## Left out

- `normalizeString`:
  - Full Unicode NFD decomposition is not modelled: the input is taken to be decomposed already.
  - Locale-independent Unicode case mapping is not modelled: only ASCII letters are lower-cased.
  - Normalisation is not claimed to be idempotent, because the real decomposition and case-mapping pair does not guarantee it.
- SearchBreed.SubBreedUpdate: when the selection contains `" - "` in its raw form but its normalised form splits into a single part, the source destructures an `undefined` sub-breed and compares it with the current one. The model uses `''` instead, so it does not capture that an equal query is set again in that case.
- SearchBreed.SearchBreedPage: the `rxResource` loading lifecycle is not modelled. Setting the query does not by itself change the results or the loading flag; those arrive through `SearchResourceChanged`.
- Signal and effect scheduling is not modelled: each derived value is recomputed by an explicit method call.
- The `debounceTime` and `distinctUntilChanged` timing of the search box is not modelled.
- The autocomplete option-sync part of the search-value effect (`search.component.ts:157-166`) is not modelled, because it depends on the autocomplete widget's internals. Only its `setValue` step is modelled.
- The "N breeds found" notification effect of the search page is not modelled. It is a UI message with no effect on state.
- The text of error notifications is not modelled; only their number is.
- `onItemPress`, which opens the detail dialog, is not modelled. Downloads (`downloadSrc`, `src/app/utils/files.ts`) are not modelled either; both are I/O.
- LegacyDogApi.Random: `forkJoin` of an empty batch completes without a value. The model yields `[]` for `n = 0`, which is also the resource's default.
- `Object.entries` lists integer-like keys first. The catalogue is taken to be already in entry order.
- The HTTP transport, JSON parsing and browser storage internals are not modelled. They are parameters or the `Stored` datatype.
- The detail dialog's `ngOnInit` is not a separate step. Its `isLiked.set(...)` writes the value the linked signal already computes from the liked list, so the model keeps only the linked signal, as `DetailDialog.Dialog.Liked()`.
- The store's `search` and `filter` setters are not separate methods. Callers assign the fields, as `signal.set` does.
