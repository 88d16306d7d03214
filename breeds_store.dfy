/**
 * The liked-list store: the shared `search` and `filter` values and the list of liked image
 * URLs, which is persisted in full under one storage key after every change.
 */
module BreedsStore {
  import opened Base
  import opened Models

  /** What browser storage holds under a key: a JSON array of strings, or text that does not parse as one. */
  datatype Stored = Json(list: seq<string>) | Malformed

  /** Reading the liked list back: nothing stored reads as `[]`, unparseable data fails. */
  function LoadLiked(storage: map<string, Stored>): (r: Outcome<seq<string>>)
    ensures LikedBreedsKey !in storage ==> r == Ok([])
    ensures r.Err? <==> LikedBreedsKey in storage && storage[LikedBreedsKey].Malformed?
  {
    if LikedBreedsKey !in storage then Ok([])
    else match storage[LikedBreedsKey]
      case Json(list) => Ok(list)
      case Malformed => Err
  }

  /** Writing the whole list under the liked-list key. */
  function Persist(storage: map<string, Stored>, liked: seq<string>): map<string, Stored>
  {
    storage[LikedBreedsKey := Json(liked)]
  }

  /** What was persisted reads back unchanged, and no other key is touched. */
  lemma LoadPersisted(storage: map<string, Stored>, liked: seq<string>)
    ensures LoadLiked(Persist(storage, liked)) == Ok(liked)
    ensures forall k :: k in storage && k != LikedBreedsKey ==> k in Persist(storage, liked) && Persist(storage, liked)[k] == storage[k]
  {
  }

  /** `addLikedBreed`: a plain push. */
  function Added(liked: seq<string>, src: string): seq<string>
  {
    liked + [src]
  }

  /** `removeLikedBreed`: every entry equal to `src` is dropped. */
  function Removed(liked: seq<string>, src: string): seq<string>
  {
    Filter(liked, (x: string) => x != src)
  }

  /** Adding appends at the end, grows the list by one and keeps duplicates. */
  lemma AddedSpec(liked: seq<string>, src: string)
    ensures |Added(liked, src)| == |liked| + 1
    ensures Added(liked, src)[..|liked|] == liked && Added(liked, src)[|liked|] == src
    ensures forall x :: multiset(Added(liked, src))[x] == multiset(liked)[x] + (if x == src then 1 else 0)
  {
  }

  /** Removing deletes `src`, keeps the order of the rest and every other entry's multiplicity. */
  lemma RemovedSpec(liked: seq<string>, src: string)
    ensures src !in Removed(liked, src)
    ensures IsSubseq(Removed(liked, src), liked)
    ensures forall x :: x != src ==> multiset(Removed(liked, src))[x] == multiset(liked)[x]
  {
    var p := (x: string) => x != src;
    FilterIsSubseq(liked, p);
    FilterMember(liked, p, src);
    forall x | x != src
      ensures multiset(Removed(liked, src))[x] == multiset(liked)[x]
    {
      FilterCount(liked, p, x);
    }
  }

  /** Removing shortens the list by exactly the number of occurrences of `src`. */
  lemma {:induction false} RemovedLength(liked: seq<string>, src: string)
    ensures |Removed(liked, src)| == |liked| - multiset(liked)[src]
  {
    if liked != [] {
      RemovedLength(liked[1..], src);
      assert liked == [liked[0]] + liked[1..];
    }
  }

  /** Removing an entry that is not there leaves the list unchanged. */
  lemma RemoveAbsent(liked: seq<string>, src: string)
    requires src !in liked
    ensures Removed(liked, src) == liked
  {
    FilterAll(liked, (x: string) => x != src);
  }

  /** Unliking a fresh like restores the list. */
  lemma AddThenRemove(liked: seq<string>, src: string)
    requires src !in liked
    ensures Removed(Added(liked, src), src) == liked
  {
    var p := (x: string) => x != src;
    FilterAppend(liked, [src], p);
    RemoveAbsent(liked, src);
  }

  class Store {
    var search: string
    var filter: FilterToggle
    var likedBreeds: seq<string>
    var storage: map<string, Stored>

    /** The persisted copy agrees with the in-memory list. */
    ghost predicate Persisted()
      reads this
    {
      LoadLiked(storage) == Ok(likedBreeds)
    }

    /** A store over readable storage: the liked list is the one stored, the rest has its defaults. */
    constructor (storage0: map<string, Stored>)
      requires LoadLiked(storage0).Ok?
      ensures search == "" && filter == FilterOptions[0]
      ensures likedBreeds == LoadLiked(storage0).value && storage == storage0
      ensures Persisted()
    {
      search := "";
      filter := FilterOptions[0];
      likedBreeds := LoadLiked(storage0).value;
      storage := storage0;
    }

    /** Creating the store loads the liked list; unparseable stored data makes creation fail. */
    static method Create(storage0: map<string, Stored>) returns (store: Store?)
      ensures store == null <==> LoadLiked(storage0).Err?
      ensures store != null ==> fresh(store) && store.Persisted() && store.storage == storage0
      ensures store != null ==> store.search == "" && store.filter == FilterOptions[0]
    {
      if LoadLiked(storage0).Ok? {
        store := new Store(storage0);
      } else {
        store := null;
      }
    }

    /** `fetchLikedBreeds`: re-reads storage; unparseable data fails and keeps the current list. */
    method FetchLikedBreeds() returns (ok: bool)
      modifies this`likedBreeds
      ensures ok <==> LoadLiked(storage).Ok?
      ensures ok ==> Persisted()
      ensures !ok ==> likedBreeds == old(likedBreeds)
    {
      match LoadLiked(storage)
      case Ok(liked) =>
        likedBreeds := liked;
        ok := true;
      case Err =>
        ok := false;
    }

    /** `addLikedBreed`: appends and persists the whole new list. */
    method AddLikedBreed(src: string)
      modifies this`likedBreeds, this`storage
      ensures likedBreeds == Added(old(likedBreeds), src)
      ensures storage == Persist(old(storage), likedBreeds)
      ensures Persisted()
    {
      likedBreeds := Added(likedBreeds, src);
      storage := Persist(storage, likedBreeds);
    }

    /** `removeLikedBreed`: drops the entry and persists the whole new list. */
    method RemoveLikedBreed(src: string)
      modifies this`likedBreeds, this`storage
      ensures likedBreeds == Removed(old(likedBreeds), src)
      ensures storage == Persist(old(storage), likedBreeds)
      ensures Persisted()
    {
      likedBreeds := Removed(likedBreeds, src);
      storage := Persist(storage, likedBreeds);
    }
  }
}
