/** The image grid: its Liked view, its empty state, and the like and explore actions of its items. */
module BreedsGrid {
  import opened Base
  import opened Models
  import opened BreedsStore

  /** `showingBreeds`: under Liked, the images that are in the liked list, in order; otherwise all of them. */
  function ShowingBreeds(filter: FilterToggle, breeds: seq<string>, liked: seq<string>): seq<string>
  {
    if filter.id == LikedFilterId then Filter(breeds, (b: string) => b in liked) else breeds
  }

  /** The `empty-state` host class. */
  predicate EmptyState(filter: FilterToggle, breeds: seq<string>, liked: seq<string>)
  {
    |ShowingBreeds(filter, breeds, liked)| == 0
  }

  /** The Liked view is an order-preserving selection of the images equal to a liked entry. */
  lemma ShowingBreedsSpec(filter: FilterToggle, breeds: seq<string>, liked: seq<string>)
    ensures filter.id != LikedFilterId ==> ShowingBreeds(filter, breeds, liked) == breeds
    ensures filter.id == LikedFilterId ==>
      IsSubseq(ShowingBreeds(filter, breeds, liked), breeds)
      && |ShowingBreeds(filter, breeds, liked)| <= |breeds|
      && (forall b :: (b in ShowingBreeds(filter, breeds, liked) <==> b in breeds && b in liked))
      && (forall b :: b in liked ==> multiset(ShowingBreeds(filter, breeds, liked))[b] == multiset(breeds)[b])
  {
    var p := (b: string) => b in liked;
    if filter.id == LikedFilterId {
      FilterIsSubseq(breeds, p);
      forall b ensures (b in Filter(breeds, p) <==> b in breeds && b in liked) {
        FilterMember(breeds, p, b);
      }
      forall b | b in liked ensures multiset(Filter(breeds, p))[b] == multiset(breeds)[b] {
        FilterCount(breeds, p, b);
      }
    }
  }

  /** Under Liked the grid is empty exactly when none of its images is liked. */
  lemma LikedEmptyState(filter: FilterToggle, breeds: seq<string>, liked: seq<string>)
    requires filter.id == LikedFilterId
    ensures EmptyState(filter, breeds, liked) <==> forall i :: 0 <= i < |breeds| ==> breeds[i] !in liked
  {
    var p := (b: string) => b in liked;
    if forall i :: 0 <= i < |breeds| ==> breeds[i] !in liked {
      FilterNone(breeds, p);
    } else {
      var i :| 0 <= i < |breeds| && breeds[i] in liked;
      FilterMember(breeds, p, breeds[i]);
    }
  }

  /** Three images, the first of them liked: the Liked view shows just that one. */
  lemma LikedViewExample(filter: FilterToggle, a: string, b: string, c: string)
    requires filter.id == LikedFilterId && b != a && c != a
    ensures ShowingBreeds(filter, [a, b, c], [a]) == [a]
    ensures ShowingBreeds(FilterOptions[0], [a, b, c], [a]) == [a, b, c]
  {
    var p := (x: string) => x in [a];
    assert [a, b, c][1..] == [b, c];
    assert [b, c][1..] == [c];
    assert Filter([c], p) == [];
    assert Filter([b, c], p) == [];
    assert Filter([a, b, c], p) == [a];
    assert FilterOptions[0].id == "all";
    assert "all"[1] != LikedFilterId[1];
  }

  /** The grid component: its input list and the shared store. */
  class Grid {
    var breeds: seq<string>
    const store: Store

    constructor (store: Store, breeds: seq<string>)
      ensures this.store == store && this.breeds == breeds
    {
      this.store := store;
      this.breeds := breeds;
    }

    /** The list currently displayed. */
    function Showing(): seq<string>
      reads this, store
    {
      ShowingBreeds(store.filter, breeds, store.likedBreeds)
    }

    /** `onItemExplore`: the shared search value becomes the item's name; nothing else changes. */
    method OnItemExplore(item: BreedItem)
      modifies store`search
      ensures store.search == item.name
    {
      store.search := item.name;
    }

    /** `onItemLike`: a liked item is removed from the liked list, any other is added. */
    method OnItemLike(like: BreedLikeEmit)
      modifies store`likedBreeds, store`storage
      ensures like.isLiked ==> store.likedBreeds == Removed(old(store.likedBreeds), like.src)
      ensures !like.isLiked ==> store.likedBreeds == Added(old(store.likedBreeds), like.src)
      ensures store.storage == Persist(old(store.storage), store.likedBreeds)
    {
      if like.isLiked {
        store.RemoveLikedBreed(like.src);
      } else {
        store.AddLikedBreed(like.src);
      }
    }
  }
}
