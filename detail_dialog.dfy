/**
 * The detail dialog of one image. Its like state is a substring test against the liked list,
 * not the equality test the grid's Liked view uses.
 */
module DetailDialog {
  import opened Base
  import opened Models
  import opened Strings
  import opened BreedsStore
  import BreedsGrid

  /** `likedBreeds.some(breed => src.includes(breed))`. */
  function IsLiked(liked: seq<string>, src: string): (b: bool)
    ensures b <==> exists k :: 0 <= k < |liked| && Contains(src, liked[k])
  {
    if liked == [] then false
    else Contains(src, liked[0]) || IsLiked(liked[1..], src)
  }

  /** Every string contains itself. */
  lemma ContainsSelf(s: string)
    ensures Contains(s, s)
  {
    assert s[0..|s|] == s;
    assert OccursAt(s, s, 0);
  }

  /** Nothing liked means not liked; a list holding the image itself means liked. */
  lemma LikedBasics(liked: seq<string>, src: string)
    ensures !IsLiked([], src)
    ensures src in liked ==> IsLiked(liked, src)
  {
    if src in liked {
      var k :| 0 <= k < |liked| && liked[k] == src;
      ContainsSelf(src);
    }
  }

  /** An image the grid's Liked view shows is liked in the dialog too. */
  lemma GridLikedIsDialogLiked(filter: FilterToggle, breeds: seq<string>, liked: seq<string>, src: string)
    requires filter.id == LikedFilterId
    requires src in BreedsGrid.ShowingBreeds(filter, breeds, liked)
    ensures IsLiked(liked, src)
  {
    BreedsGrid.ShowingBreedsSpec(filter, breeds, liked);
    LikedBasics(liked, src);
  }

  /** The converse fails: a liked entry that is a proper prefix of an image makes it dialog-liked but not grid-liked. */
  lemma DialogLikedNotGridLiked(filter: FilterToggle, entry: string, extra: string)
    requires filter.id == LikedFilterId && |extra| > 0
    ensures IsLiked([entry], entry + extra)
    ensures BreedsGrid.ShowingBreeds(filter, [entry + extra], [entry]) == []
  {
    var src := entry + extra;
    assert src[0..|entry|] == entry;
    assert OccursAt(src, entry, 0);
    assert src != entry by { assert |src| != |entry|; }
  }

  /** Liking an image always makes it liked. */
  lemma LikeMakesLiked(liked: seq<string>, src: string)
    ensures IsLiked(Added(liked, src), src)
  {
    LikedBasics(Added(liked, src), src);
  }

  /** Unliking removes only entries equal to the image, so a liked substring of it keeps it liked. */
  lemma UnlikeKeepsSubstringLike(liked: seq<string>, src: string, k: nat)
    requires k < |liked| && liked[k] != src && Contains(src, liked[k])
    ensures IsLiked(Removed(liked, src), src)
  {
    var p := (x: string) => x != src;
    FilterMember(liked, p, liked[k]);
    var r := Removed(liked, src);
    var j :| 0 <= j < |r| && r[j] == liked[k];
  }

  /** Unliking does clear the like when the image itself is the only liked entry it contains. */
  lemma UnlikeClears(liked: seq<string>, src: string)
    requires forall k :: 0 <= k < |liked| && Contains(src, liked[k]) ==> liked[k] == src
    ensures !IsLiked(Removed(liked, src), src)
  {
    var r := Removed(liked, src);
    forall j | 0 <= j < |r| ensures !Contains(src, r[j]) {
      assert r[j] in r;
      assert r[j] in liked && r[j] != src;
      var k :| 0 <= k < |liked| && liked[k] == r[j];
    }
  }

  /** The dialog component. */
  class Dialog {
    const data: BreedDetail
    const store: Store
    var closed: bool

    /** Creation: the dialog shows `data` over the shared store and is open. */
    constructor (data: BreedDetail, store: Store)
      ensures this.data == data && this.store == store && !closed
    {
      this.data := data;
      this.store := store;
      closed := false;
    }

    /**
     * The linked like state: it follows the current liked list, so a change made elsewhere (in the
     * grid) is seen here too.
     */
    function Liked(): bool
      reads store
    {
      IsLiked(store.likedBreeds, data.src)
    }

    /** `onLike`: unlike when liked, like otherwise; a like always ends liked. */
    method OnLike()
      modifies store`likedBreeds, store`storage
      ensures old(Liked()) ==> store.likedBreeds == Removed(old(store.likedBreeds), data.src)
      ensures !old(Liked()) ==> store.likedBreeds == Added(old(store.likedBreeds), data.src)
      ensures store.storage == Persist(old(store.storage), store.likedBreeds)
      ensures !old(Liked()) ==> Liked()
    {
      if Liked() {
        store.RemoveLikedBreed(data.src);
      } else {
        store.AddLikedBreed(data.src);
        LikeMakesLiked(old(store.likedBreeds), data.src);
      }
    }

    /** `onExplore`: the shared search value becomes the image's breed name and the dialog closes. */
    method OnExplore()
      modifies store`search, this`closed
      ensures store.search == data.name && closed
    {
      store.search := data.name;
      closed := true;
    }
  }
}
