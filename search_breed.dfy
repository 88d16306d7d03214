/**
 * The search page: the query being searched, the list the grid displays, and how a selection
 * from the search box turns into a new query.
 */
module SearchBreed {
  import opened Base
  import opened Models
  import opened Strings
  import opened BreedsStore
  import Search

  // ---------------------------------------------------------------------------
  // Derived values

  /** The `showingBreeds` derivation: results first, else nothing while searching, else the random images. */
  function ShowingBreeds(results: Option<seq<string>>, searching: bool, random: Option<seq<string>>): Option<seq<string>>
  {
    if results.Some? && |results.value| > 0 then results
    else if searching || random.None? || |random.value| == 0 then None
    else random
  }

  predicate NonEmpty(s: Option<seq<string>>) { s.Some? && |s.value| > 0 }

  /** `canSearchFromImages`: no results to show and some random images. */
  function CanSearchFromImages(results: Option<seq<string>>, random: Option<seq<string>>): bool
  {
    !NonEmpty(results) && NonEmpty(random)
  }

  /** The three cases of the displayed list. */
  lemma ShowingBreedsCases(results: Option<seq<string>>, searching: bool, random: Option<seq<string>>)
    ensures NonEmpty(results) ==> ShowingBreeds(results, searching, random) == results
    ensures !NonEmpty(results) && (searching || !NonEmpty(random)) ==> ShowingBreeds(results, searching, random) == None
    ensures !NonEmpty(results) && !searching && NonEmpty(random) ==> ShowingBreeds(results, searching, random) == random
    ensures ShowingBreeds(results, searching, random) == None || NonEmpty(ShowingBreeds(results, searching, random))
  {
  }

  /** Once nothing is loading, the images offer a search exactly when the grid shows the random images instead of results. */
  lemma CanSearchMeansRandomShown(results: Option<seq<string>>, random: Option<seq<string>>)
    ensures CanSearchFromImages(results, random) <==>
      ShowingBreeds(results, false, random) == random && ShowingBreeds(results, false, random) != results
      && ShowingBreeds(results, false, random).Some?
  {
  }

  // ---------------------------------------------------------------------------
  // Selections

  /** `onSelectedSubBreed`: the first two pieces of the normalised selection; `None` when they are already the query. */
  function SubBreedUpdate(current: BreedQuery, normalized: string): Option<BreedQuery>
  {
    var parts := Split(normalized, BreedSubBreedSeparator);
    var q := BreedQuery(parts[0], if |parts| > 1 then parts[1] else "");
    if current.breed != q.breed || current.subBreed != q.subBreed then Some(q) else None
  }

  /**
   * `onSelectedBreed` outside the Liked-and-empty case: the query to set, or `None` when the
   * query is left alone. The separator is looked for in the raw selection, the query is built
   * from the normalised one.
   */
  function QueryUpdate(current: BreedQuery, selected: string): Option<BreedQuery>
  {
    var normalized := Normalize(selected);
    if Contains(selected, BreedSubBreedSeparator) then SubBreedUpdate(current, normalized)
    else if current.breed != normalized then Some(BreedQuery(normalized, ""))
    else None
  }

  /** The query after a selection. */
  function NextQuery(current: BreedQuery, selected: string): BreedQuery
  {
    match QueryUpdate(current, selected)
    case Some(q) => q
    case None => current
  }

  /** A query is only set when it differs, so selecting the same thing twice sets it once. */
  lemma SelectionIdempotent(current: BreedQuery, selected: string)
    ensures QueryUpdate(current, selected).Some? ==> QueryUpdate(current, selected).value != current
    ensures QueryUpdate(NextQuery(current, selected), selected) == None
  {
  }

  /** A selection without the separator asks for the whole breed, unless that breed is already the query's. */
  lemma PlainSelection(current: BreedQuery, selected: string)
    requires !Contains(selected, BreedSubBreedSeparator)
    ensures current.breed != Normalize(selected) ==> NextQuery(current, selected) == BreedQuery(Normalize(selected), "")
    ensures current.breed == Normalize(selected) ==> NextQuery(current, selected) == current
  {
  }

  /**
   * Choosing a bare breed while one of its sub-breeds is the query keeps the sub-breed:
   * the guard compares breeds only.
   */
  lemma ParentSelectionKeepsSubBreed(breed: string, subBreed: string)
    requires breed != [] && Search.PlainName(breed)
    ensures QueryUpdate(BreedQuery(breed, subBreed), breed) == None
  {
    PlainNameIsNormal(breed);
    NotFound(breed, BreedSubBreedSeparator);
  }

  lemma PlainNameIsNormal(s: string)
    requires s != [] && Search.PlainName(s)
    ensures Normalize(s) == s
  {
    NormalizeCleanIsIdentity(s);
  }

  /** Choosing a breed's option from the catalogue asks for that breed. */
  lemma BreedOptionSelection(current: BreedQuery, breed: string)
    requires breed != [] && Search.PlainName(breed)
    ensures NextQuery(current, breed).breed == breed
    ensures current.breed != breed ==> NextQuery(current, breed) == BreedQuery(breed, "")
  {
    PlainNameIsNormal(breed);
    NotFound(breed, BreedSubBreedSeparator);
  }

  /** Choosing a `breed - sub` option from the catalogue asks for exactly that breed and sub-breed. */
  lemma SubBreedOptionSelection(current: BreedQuery, breed: string, subBreed: string)
    requires breed != [] && subBreed != [] && Search.PlainName(breed) && Search.PlainName(subBreed)
    ensures NextQuery(current, breed + BreedSubBreedSeparator + subBreed) == BreedQuery(breed, subBreed)
  {
    var sep := BreedSubBreedSeparator;
    var sel := breed + sep + subBreed;
    OptionHasSeparator(breed, subBreed);
    OptionIsNormal(breed, subBreed);
    OptionSplits(breed, subBreed);
    assert Split(Normalize(sel), sep) == [breed, subBreed];
  }

  lemma OptionHasSeparator(breed: string, subBreed: string)
    ensures Contains(breed + BreedSubBreedSeparator + subBreed, BreedSubBreedSeparator)
  {
    var sep := BreedSubBreedSeparator;
    var sel := breed + sep + subBreed;
    assert sel[|breed|..|breed| + |sep|] == sep;
    assert OccursAt(sel, sep, |breed|);
  }

  lemma OptionIsNormal(breed: string, subBreed: string)
    requires breed != [] && subBreed != [] && Search.PlainName(breed) && Search.PlainName(subBreed)
    ensures Normalize(breed + BreedSubBreedSeparator + subBreed) == breed + BreedSubBreedSeparator + subBreed
  {
    var sep := BreedSubBreedSeparator;
    var sel := breed + sep + subBreed;
    forall k | 0 <= k < |sel| ensures !IsCombiningMark(sel[k]) && !IsAsciiUpper(sel[k]) {
      if k < |breed| { assert sel[k] == breed[k]; }
      else if k < |breed| + |sep| { assert sel[k] == sep[k - |breed|]; }
      else { assert sel[k] == subBreed[k - |breed| - |sep|]; }
    }
    assert sel[0] == breed[0];
    assert sel[|sel| - 1] == subBreed[|subBreed| - 1];
    NormalizeCleanIsIdentity(sel);
  }

  lemma OptionSplits(breed: string, subBreed: string)
    requires Search.PlainName(breed) && Search.PlainName(subBreed)
    ensures Split(breed + BreedSubBreedSeparator + subBreed, BreedSubBreedSeparator) == [breed, subBreed]
  {
    var sep := BreedSubBreedSeparator;
    assert sep[0] == ' ' && IsWhitespace(' ');
    assert Join([breed, subBreed], sep) == breed + sep + subBreed;
    SplitJoin([breed, subBreed], sep);
  }

  // ---------------------------------------------------------------------------
  // The page

  class SearchBreedPage {
    /** The `breed` signal: the query being searched. */
    var query: BreedQuery
    /** The search resource's value and loading flag. */
    var results: Option<seq<string>>
    var searching: bool
    /** The random-images resource's value. */
    var random: Option<seq<string>>
    /** The `showingBreeds` linked signal: the list the grid displays. */
    var showing: Option<seq<string>>
    const store: Store

    constructor (store: Store)
      ensures this.store == store && query == EmptyQuery
      ensures results == None && !searching && random == Some([]) && showing == None
    {
      this.store := store;
      query := EmptyQuery;
      results := None;
      searching := false;
      random := Some([]);
      showing := None;
    }

    /** The search resource produced a new value or loading flag; the displayed list is recomputed. */
    method SearchResourceChanged(newResults: Option<seq<string>>, isSearching: bool)
      modifies this`results, this`searching, this`showing
      ensures results == newResults && searching == isSearching
      ensures showing == ShowingBreeds(results, searching, random)
    {
      results := newResults;
      searching := isSearching;
      showing := ShowingBreeds(results, searching, random);
    }

    /** The random-images resource produced a new value; the displayed list is recomputed. */
    method RandomResourceChanged(newRandom: Option<seq<string>>)
      modifies this`random, this`showing
      ensures random == newRandom
      ensures showing == ShowingBreeds(results, searching, random)
    {
      random := newRandom;
      showing := ShowingBreeds(results, searching, random);
    }

    /** The filter effect: with no breed in the query, Liked shows the liked list and All the random images. */
    method FilterChanged()
      modifies this`showing
      ensures query.breed != "" ==> showing == old(showing)
      ensures query.breed == "" && store.filter.id == LikedFilterId ==> showing == Some(store.likedBreeds)
      ensures query.breed == "" && store.filter.id != LikedFilterId ==> showing == random
    {
      if query.breed != "" {
        return;
      }
      if store.filter.id == LikedFilterId {
        showing := Some(store.likedBreeds);
      } else {
        showing := random;
      }
    }

    /**
     * `onSelectedBreed`: under Liked an empty selection shows the liked list; otherwise the
     * query is updated when it differs. `changed` tells whether the query was set, which makes
     * the search resource reload.
     */
    method OnSelectedBreed(selected: string) returns (changed: bool)
      modifies this`query, this`showing
      ensures store.filter.id == LikedFilterId && selected == "" ==>
        showing == Some(store.likedBreeds) && query == old(query) && !changed
      ensures !(store.filter.id == LikedFilterId && selected == "") ==>
        showing == old(showing) && query == NextQuery(old(query), selected)
        && changed == QueryUpdate(old(query), selected).Some?
    {
      if store.filter.id == LikedFilterId && selected == "" {
        showing := Some(store.likedBreeds);
        return false;
      }
      var update := QueryUpdate(query, selected);
      changed := update.Some?;
      if changed {
        query := update.value;
      }
    }
  }
}
