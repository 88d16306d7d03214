/** The records and constants the components share. */
module Models {

  /** The breed and sub-breed being searched; the empty string means "no selection". */
  datatype BreedQuery = BreedQuery(breed: string, subBreed: string)

  const EmptyQuery: BreedQuery := BreedQuery("", "")

  /** An image and the name shown for it. */
  datatype BreedItem = BreedItem(name: string, src: string)

  /** What the detail dialog is opened with. */
  datatype BreedDetail = BreedDetail(name: string, src: string, canSearch: bool)

  /** The like-toggle event of a grid item. */
  datatype BreedLikeEmit = BreedLikeEmit(src: string, name: string, isLiked: bool)

  /** One option of the All/Liked toggle; an absent `selected` flag reads as false. */
  datatype FilterToggle = FilterToggle(id: string, name: string, icon: string, selected: bool)

  const LikedFilterId: string := "liked"

  /** The toggle's options: All (selected initially) and Liked. */
  const FilterOptions: seq<FilterToggle> := [
    FilterToggle("all", "All", "apps", true),
    FilterToggle(LikedFilterId, "Liked", "favorite", false)
  ]

  /** The breed catalogue, as the entries of the breed -> sub-breeds record, in entry order. */
  type Catalogue = seq<(string, seq<string>)>

  /** The storage key under which the liked list is persisted. */
  const LikedBreedsKey: string := "likedBreeds"
}
