/** The records of api/types.ts that the collection store and the search screen exchange. */
module VinylTypes {
  import opened Wrappers

  /** A JavaScript `number` as far as this model needs one: an integer or NaN. */
  datatype Num = Int(value: int) | NaN

  /** JavaScript `===` on numbers: NaN is equal to nothing, not even itself. */
  predicate StrictEquals(a: Num, b: Num) {
    a.Int? && b.Int? && a.value == b.value
  }

  /** One entry of the user's collection. `rating` and `review` are optional keys. */
  datatype MyVinyl = MyVinyl(id: Num, rating: Option<int>, review: Option<string>)

  /**
   * `Partial<MyVinyl>`: each key is absent (`None`), or present with a value that
   * may itself be `undefined` (`Some(None)`), which object spread copies as well.
   */
  datatype Patch = Patch(id: Option<Num>, rating: Option<Option<int>>, review: Option<Option<string>>)

  /** A patch that sets only the rating, as the detail screen sends. */
  function RatingPatch(r: int): Patch {
    Patch(None, Some(Some(r)), None)
  }

  /** A patch that sets only the review text. */
  function ReviewPatch(t: string): Patch {
    Patch(None, None, Some(Some(t)))
  }

  /** One release in a page of search results. */
  datatype SearchResultItem = SearchResultItem(
    id: int,
    title: string,
    thumb: string,
    coverImage: Option<string>,
    year: int,
    style: Option<seq<string>>,
    uri: Option<string>,
    genre: Option<seq<string>>,
    country: Option<string>)

  /** The pagination descriptor the catalog service reports with each page. */
  datatype Pagination = Pagination(
    perPage: int,
    pages: int,
    page: int,
    last: Option<string>,
    next: Option<string>,
    items: int)

  /** One page of search results together with its pagination. */
  datatype SearchResponse = SearchResponse(results: seq<SearchResultItem>, pagination: Pagination)
}
