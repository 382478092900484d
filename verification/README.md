# my-vinyls: collection store, search pagination and guarded add

A Dafny model of the sequential logic inside the my-vinyls React Native app:

- **Collection store** (`utils/storage.ts`). The user's collection is one ordered
  list of `MyVinyl` records `{id, rating?, review?}` kept as a single blob under
  the key `@my_vinyls`. It can be read (a missing or empty blob reads as `[]`),
  appended to, have a position deleted, and have the first entry with an id
  shallow-merged with a partial record. Module `Storage` holds the operations;
  `StorageLemmas` relates them (delete undoes a save, update frames every other
  entry, merge keeps absent keys, which operations keep ids distinct).
- **Search pagination controller** (`app/add-vinyl.tsx`, `handleSearch` and
  `loadMore`). The asynchronous `handleSearch` is split into an issue step,
  which updates the screen state and yields the request it sends, and a
  completion step, which applies a page or a failure. Module `AddVinyl` holds
  the steps; `SearchLemmas` states replace-versus-append, the end-of-data rule
  `page >= pages`, the load-more guard and the accumulation of sequential pages;
  `SearchSession` keeps the outstanding requests and proves invariants that hold
  however the replies interleave.
- **Duplicate-guarded add** (`handleAddVinyl` in `app/add-vinyl.tsx`, `handleAdd`
  in `app/add-review.tsx`). Both check id membership before appending, which
  gives the id-uniqueness invariant that the store alone does not keep, for one
  handler run at a time and for integer ids (see "Left out").
- **Star rating** (`components/star-rating.tsx`). Pressing star k toggles between
  k and 0; star i (0-based) is filled when i + 1 <= rating.

Supporting modules: `Wrappers` (Option, Result), `VinylTypes` (the records of
`api/types.ts`, and JavaScript numbers as `Int(n) | NaN` with `===` as
`StrictEquals`), `JsText` (`String.prototype.trim` and `Number(string)`).

Modelling choices:

- A stored id is a JavaScript number, so `Number(vinylId)` can be NaN. NaN is
  `===` to nothing, so a NaN id never counts as a duplicate.
- A `Partial<MyVinyl>` patch key is absent (`None`) or present (`Some(v)`), and a
  present value may itself be `undefined` (`Some(None)`). Object spread copies a
  present key even when its value is `undefined`, and the merge does the same.
- The store's blob is `Absent`, `EmptyText` or `Json(list)`: `data ? JSON.parse(data) : []`
  treats both `null` and `""` as the empty collection.
- `loadMore`'s own guard checks only `!loadingMore && hasMore`, not `loading`
  (`SearchLemmas.LoadMoreDuringFirstSearch`). Its only caller is the result
  list's `onEndReached`, and that list is mounted only while there are results;
  a new search empties the results in the same update that raises `loading`.
  So the screen sends no load-more while a first search runs
  (`SearchSession.NoLoadMoreDuringFirstSearch`).
- The review modal imports its star row from `components/vinyl/star-rating`;
  the model assumes it is the same component as `components/star-rating.tsx`,
  which `StarRating` models.

## Model

| member | source | states |
|---|---|---|
| `JsText.TrimStartLeavesSuffix` | app/add-vinyl.tsx:43 | trimming the start leaves a suffix, every dropped character is white space, and the rest does not start with white space |
| `JsText.TrimEndLeavesPrefix` | app/add-vinyl.tsx:43 | trimming the end leaves a prefix, every dropped character is white space, and the rest does not end with white space |
| `JsText.BlankIffAllWhiteSpace` | app/add-vinyl.tsx:43 | `!q.trim()` holds exactly when every character of q is white space |
| `JsText.ToNumber` | app/add-review.tsx:32 | `Number` of a blank string is 0 |
| `JsText.NumberOfDecimalString` | app/add-review.tsx:32-40 | `Number` of the decimal text of an integer n is n, so an id survives the `vinylId=${id}` route parameter |
| `Storage.GetMyVinyls` | utils/storage.ts:7-15 | a missing or empty blob reads as the empty list; a written list reads back as itself |
| `Storage.SetItem` | utils/storage.ts:21 | reading after writing a list gives that list |
| `Storage.SaveVinyl` | utils/storage.ts:17-27 | the list grows by one, the earlier entries are unchanged and in order, and the new entry is last; no duplicate check |
| `Storage.WithoutPosition` | utils/storage.ts:32 | filtering out position i of a list with i in range drops exactly that element and keeps the rest in order; an index out of range keeps the list |
| `Storage.DeleteVinyl` | utils/storage.ts:29-39 | an in-range index removes exactly that entry; an out-of-range index leaves the list read back unchanged |
| `Storage.FindIndex` | utils/storage.ts:47 | the first position whose id is `===` the id, or -1 exactly when no entry matches |
| `Storage.UpdateVinyl` | utils/storage.ts:41-62 | fails exactly when no entry has the id; otherwise the written list is the old one with only the first match replaced by its merge with the patch |
| `StorageLemmas.DeleteRemovesExactlyOne` | utils/storage.ts:31-33 | deleting an in-range position shortens the list by one and removes exactly one copy of that entry |
| `StorageLemmas.DeleteUndoesSave` | utils/storage.ts:19-33 | deleting the last position after a save reads back the list from before the save |
| `StorageLemmas.UpdateMissingIdFails` | utils/storage.ts:47-51 | an update for an id no entry has throws NotFound and so writes nothing |
| `StorageLemmas.UpdateFramesOtherEntries` | utils/storage.ts:47-56 | a successful update keeps the length and every position other than the first match |
| `StorageLemmas.MergeEmptyPatch` | utils/storage.ts:54 | a patch with no keys leaves the entry as it was |
| `StorageLemmas.MergeRatingKeepsReview` | utils/storage.ts:54 | a rating-only patch changes the rating and keeps id and review |
| `StorageLemmas.MergeReviewKeepsRating` | utils/storage.ts:54 | a review-only patch changes the review and keeps id and rating |
| `StorageLemmas.MergeCombine` | utils/storage.ts:54 | merging patch a then patch b equals merging their spread combination |
| `StorageLemmas.MergeIdempotent` | utils/storage.ts:54 | merging the same patch twice equals merging it once |
| `StorageLemmas.SaveFreshKeepsIdsDistinct` | utils/storage.ts:19-21 | saving an entry whose id is not stored keeps stored ids pairwise distinct |
| `StorageLemmas.SaveExistingBreaksIdsDistinct` | utils/storage.ts:19-21 | saving an entry whose id is already stored leaves two entries with equal ids: the store does not enforce uniqueness |
| `StorageLemmas.DeleteKeepsIdsDistinct` | utils/storage.ts:31-33 | deleting keeps pairwise distinct ids distinct |
| `StorageLemmas.UpdateKeepsIdsDistinct` | utils/storage.ts:47-56 | an update whose patch does not set the id keeps pairwise distinct ids distinct |
| `StarRating.HandlePress` | components/star-rating.tsx:15-21 | the reported rating is 0 or the pressed star, and it is the pressed star exactly when that differs from the rating (or is 0) |
| `StarRating.PressToggles` | components/star-rating.tsx:15-21 | pressing the current star gives 0; pressing another star k gives k |
| `StarRating.PressTwiceFromZero` | components/star-rating.tsx:15-21 | from rating 0, pressing star k gives k and pressing it again gives 0 |
| `StarRating.PressesStayInRange` | components/star-rating.tsx:9-32 | any sequence of presses on stars 1..MAX_STARS keeps a rating in 0..5 within 0..5 |
| `StarRating.FilledCountIsClamped` | components/star-rating.tsx:25-35 | of the first n stars, the number drawn filled is the rating clamped to 0..n |
| `StarRating.FilledStarsMatchRating` | components/star-rating.tsx:25-35 | for a rating r in 0..5, exactly r of the five stars are filled |
| `StarRating.PressFillsStars` | components/star-rating.tsx:15-35 | after any press the number of filled stars equals the new rating |
| `AddVinyl.SetQuery` | app/add-vinyl.tsx:142 | typing replaces the query and changes nothing else |
| `AddVinyl.HandleSearch` | app/add-vinyl.tsx:39-64 | a request is issued exactly when the query is not blank, and it asks for the given page of vinyl releases, ten per page, with the query |
| `AddVinyl.LoadMore` | app/add-vinyl.tsx:89-93 | while a load-more runs or the data has ended, load-more changes nothing and sends nothing |
| `AddVinyl.Complete` | app/add-vinyl.tsx:66-86 | after a reply, success or failure, neither loading flag is raised and the query is kept |
| `AddVinyl.HandleAddVinyl` | app/add-vinyl.tsx:95-116 | no selection does nothing; a selected id already stored saves nothing; otherwise the list becomes the old list plus `{id, rating, review}` |
| `AddVinyl.HandleAddVinylKeepsIdsDistinct` | app/add-vinyl.tsx:98-116 | the add button keeps stored ids pairwise distinct |
| `SearchLemmas.BlankQueryIsNoOp` | app/add-vinyl.tsx:43 | a query of only white space issues no request and changes no state |
| `SearchLemmas.NewSearchResetsBeforeReply` | app/add-vinyl.tsx:46-64 | issuing a new search empties the results, sets the page to 1, raises hasMore and loading, clears the error and requests page 1; query, pagination and loadingMore are kept |
| `SearchLemmas.NewSearchReplacesResults` | app/add-vinyl.tsx:66-72 | a new search's page replaces the results, with the page cursor at 1 and the reported pagination stored |
| `SearchLemmas.LoadMoreAppendsResults` | app/add-vinyl.tsx:68-79 | a load-more's page is appended after the existing results, which keep their order, and the cursor advances by one |
| `SearchLemmas.EndOfData` | app/add-vinyl.tsx:74-77 | after a page, hasMore is false when the reported page is at least the page count, and unchanged otherwise |
| `SearchLemmas.SuccessMovesCursor` | app/add-vinyl.tsx:79-81 | a page sets the cursor to the requested page; a failure keeps the cursor |
| `SearchLemmas.EndOfDataBoundary` | app/add-vinyl.tsx:75 | page 3 of 3 ends the data; page 2 of 3 keeps hasMore true |
| `SearchLemmas.FailureKeepsProgress` | app/add-vinyl.tsx:80-82 | a failure records the error message and keeps results, page cursor, hasMore and pagination |
| `SearchLemmas.CompletionClearsLoading` | app/add-vinyl.tsx:83-86 | after any completion both loading flags are false |
| `SearchLemmas.LoadMoreRequestsNextPage` | app/add-vinyl.tsx:89-93 | when allowed, load-more requests exactly page currentPage + 1 and only raises loadingMore and clears the error |
| `SearchLemmas.LoadMoreNotReentrant` | app/add-vinyl.tsx:89-93 | a load-more issued directly after an allowed load-more sends nothing and changes nothing |
| `SearchLemmas.LoadMoreDuringFirstSearch` | app/add-vinyl.tsx:89-93 | `loadMore` called on its own while a first search is loading still sends a request, since its guard checks only loadingMore and hasMore |
| `SearchLemmas.LoadMoreCyclesConcatenate` | app/add-vinyl.tsx:66-93 | sequential answered load-mores leave the results equal to the earlier results followed by every page's results in order, with the cursor advanced once per page |
| `SearchLemmas.LoadMoreCyclesEndOfData` | app/add-vinyl.tsx:74-93 | after sequential load-mores hasMore is false exactly when the last page reports page >= pages |
| `SearchLemmas.ThreePageSearch` | app/add-vinyl.tsx:39-93 | a search over three pages collects page 1, 2 and 3 in order, ends on page 3, and then load-more sends nothing |
| `SearchSession.InitialInv` | app/add-vinyl.tsx:22-31 | the mounted screen satisfies the session invariant |
| `SearchSession.NextPreservesInv` | app/add-vinyl.tsx:39-93 | every action keeps the invariant: page numbers are at least 1, every request asks for vinyl releases ten per page, a raised loading flag has an outstanding request of its kind, and while a first search loads no results are shown |
| `SearchSession.RunPreservesInv` | app/add-vinyl.tsx:39-93 | any sequence of actions keeps the invariant |
| `SearchSession.QuiescentMeansNotLoading` | app/add-vinyl.tsx:83-86 | once every request has been answered, in any order, neither loading flag is raised |
| `SearchSession.ReachablePageIsPositive` | app/add-vinyl.tsx:51-79 | in every reachable state the page cursor is at least 1 |
| `SearchSession.NoLoadMoreDuringFirstSearch` | app/add-vinyl.tsx:156-186 | in every reachable state where a first search is loading, the results are empty, the list is unmounted and an end-reached event changes nothing |
| `SearchSession.GuardReopenedByNewSearch` | app/add-vinyl.tsx:83-93 | after a load-more for page 2 is sent, a new search whose reply arrives first clears `loadingMore`, so a second load-more for page 2 is sent while the first is still outstanding |
| `SearchSession.HasMoreOnlyResetByNewSearch` | app/add-vinyl.tsx:46-77 | hasMore goes from false to true only on a new search with a non-blank query |
| `AddReview.HandleAdd` | app/add-review.tsx:27-52 | a missing or empty vinylId does nothing; an id already stored saves nothing; otherwise the list becomes the old list plus `{id: Number(vinylId), rating, review}` |
| `AddReview.HandleAddKeepsExistingEntries` | app/add-review.tsx:31-45 | whatever the outcome the stored entries keep their positions, and only an add appends one entry |
| `AddReview.HandleAddKeepsIdsDistinct` | app/add-review.tsx:31-45 | pairwise distinct stored ids stay distinct after the add |
| `AddReview.UntouchedFormSavesDefaults` | app/add-review.tsx:22-23 | adding from the untouched form stores rating 0 and review "" |
| `AddReview.RouteIdRoundTrip` | app/add-review.tsx:32-40 | for `vinylId=${id}` the add is refused exactly when id is stored, and an added entry has id `id` |
| `AddReview.RepeatedNaNAddStoresEqualIds` | app/add-review.tsx:32-45 | adding the same non-numeric vinylId twice to an empty store stores two entries whose ids are both NaN, which `===`-distinctness still accepts |
| `AddReview.NaNIdIsNeverADuplicate` | app/add-review.tsx:32 | a non-numeric vinylId converts to NaN, which matches no stored id, so it is always added |
| `AddReview.PressedFormRatingInRange` | app/add-review.tsx:68 | a form rating in 0..5 stays in 0..5 after any presses of the star row |

## Left out

- AsyncStorage and JSON (de)serialisation: the blob holds the list itself. The rethrown storage errors of `getMyVinyls`, `saveVinyl`, `deleteVinyl` and `updateVinyl` are device I/O failures and are not modelled; in particular JSON turning a NaN id into `null` is not modelled.
- The HTTP client and the search endpoint (`api/client.ts`, `api/vinyl.ts`): the reply is an input of the completion step.
- React's batching of state updates: each handler's updates are applied as one step, and the later functional update of the results list reads the state at completion time.
- AddReview.HandleAddKeepsIdsDistinct: distinctness is `===`, under which NaN ids never collide, so a non-numeric vinylId added twice stores two NaN ids (`AddReview.RepeatedNaNAddStoresEqualIds`); once JSON writes them as `null`, which is `===` to itself, the stored list has duplicate ids. The invariant is meaningful for integer ids only.
- AddReview.HandleAddKeepsIdsDistinct: the handler is one atomic step, while the source awaits the read for the duplicate check and then `saveVinyl` reads the store again; two quick presses can both pass the guard and append twice, or lose one write to last-write-wins. The lemma holds for one handler run at a time.
- AddVinyl.HandleAddVinylKeepsIdsDistinct: the same interleaving applies to the add button of the search screen (the read for the check, then `saveVinyl`'s own read); the lemma holds for one handler run at a time.
- SearchLemmas.LoadMoreNotReentrant: covers only a load-more issued directly after an allowed one; any completion, including the reply to a newer first search, clears `loadingMore` in its `finally`, so two load-mores for the same page can be outstanding at once (`SearchSession.GuardReopenedByNewSearch` exhibits the trace).
- Stale replies: the source has no session token, so a reply from a superseded search is applied like any other; `SearchSession` allows any completion order but proves no property about stale replies.
- `JsText.ToNumber`: covers white space, an optional sign and decimal digits; other syntaxes `Number` accepts (hex or binary prefixes, fractions, exponents, `Infinity`) are mapped to NaN, and precision loss beyond 2^53 is not modelled.
- `Storage.DeleteVinyl`: a non-integer index, which matches no position, is not modelled; the index is an integer.
- `Storage.UpdateVinyl`: a patch that sets `id` to `undefined` is not modelled; a patch id is absent or a number.
- Alerts, navigation (`router.back`, `router.dismissAll`, `router.replace`), console logging and the failed-save alert of both add handlers.
- The wishlist and the merge of remote details with stored entries: the screens that do this are not part of this model.
- All presentation components, `utils/discogs.ts`, `constants/theme.ts` and the layouts.
