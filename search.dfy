/** The search box: the autocomplete catalogue, its filter, and the All/Liked selection it forwards. */
module Search {
  import opened Base
  import opened Models
  import opened Strings
  import opened BreedsStore

  // ---------------------------------------------------------------------------
  // The option list

  /** The options one catalogue entry contributes: the breed, then `breed - sub` for each sub-breed. */
  function EntryOptions(breed: string, subBreeds: seq<string>): seq<string>
  {
    [breed] + seq(|subBreeds|, i requires 0 <= i < |subBreeds| => breed + BreedSubBreedSeparator + subBreeds[i])
  }

  /** The whole option list: every entry's options, in entry order. */
  function Options(c: Catalogue): seq<string>
  {
    if c == [] then [] else EntryOptions(c[0].0, c[0].1) + Options(c[1..])
  }

  /** The total number of sub-breeds in the catalogue. */
  function SubBreedCount(c: Catalogue): nat
  {
    if c == [] then 0 else |c[0].1| + SubBreedCount(c[1..])
  }

  /** `autoCompleteBreeds`: the options accumulated entry by entry; an absent catalogue gives none. */
  method AutoCompleteBreeds(breeds: Option<Catalogue>) returns (acc: seq<string>)
    ensures breeds.None? ==> acc == []
    ensures breeds.Some? ==> acc == Options(breeds.value)
  {
    acc := [];
    if breeds.None? {
      return;
    }
    var c := breeds.value;
    var i := 0;
    while i < |c|
      invariant 0 <= i <= |c|
      invariant acc == Options(c[..i])
    {
      var (breed, subBreeds) := c[i];
      acc := acc + [breed];
      if |subBreeds| > 0 {
        acc := acc + seq(|subBreeds|, k requires 0 <= k < |subBreeds| => breed + BreedSubBreedSeparator + subBreeds[k]);
      }
      OptionsAppend(c[..i], [c[i]]);
      assert c[..i + 1] == c[..i] + [c[i]];
      i := i + 1;
    }
    assert c[..i] == c;
  }

  /** The option list of a concatenation is the concatenation of the option lists. */
  lemma {:induction false} OptionsAppend(a: Catalogue, b: Catalogue)
    ensures Options(a + b) == Options(a) + Options(b)
  {
    if a == [] {
      assert a + b == b;
    } else {
      assert (a + b)[0] == a[0];
      assert (a + b)[1..] == a[1..] + b;
      OptionsAppend(a[1..], b);
    }
  }

  /** Each entry's options sit, contiguously, after those of the entries before it. */
  lemma {:induction false} OptionsOfEntry(c: Catalogue, k: nat)
    requires k < |c|
    ensures Options(c) == Options(c[..k]) + EntryOptions(c[k].0, c[k].1) + Options(c[k + 1..])
  {
    if k == 0 {
      assert c[..0] == [];
    } else {
      var t := c[1..];
      OptionsOfEntry(t, k - 1);
      assert t[k - 1] == c[k];
      assert t[k..] == c[k + 1..];
      assert c[..k][0] == c[0];
      assert c[..k][1..] == t[..k - 1];
    }
  }

  /** There is one option per breed plus one per sub-breed; a breed without sub-breeds gives just itself. */
  lemma {:induction false} OptionsCount(c: Catalogue)
    ensures |Options(c)| == |c| + SubBreedCount(c)
    ensures forall b :: EntryOptions(b, []) == [b]
  {
    if c != [] {
      OptionsCount(c[1..]);
    }
  }

  /** The shape of the four-breed catalogue of the search box's specification: ten options, in entry order. */
  lemma CatalogueExample(b: string, b1: string, b2: string, h: string, h1: string, h2: string,
                         r: string, r1: string, r2: string, t: string)
    ensures var sep := BreedSubBreedSeparator;
      Options([(b, [b1, b2]), (h, [h1, h2]), (r, [r1, r2]), (t, [])])
      == [b, b + sep + b1, b + sep + b2, h, h + sep + h1, h + sep + h2, r, r + sep + r1, r + sep + r2, t]
  {
    var c := [(b, [b1, b2]), (h, [h1, h2]), (r, [r1, r2]), (t, [])];
    assert c[1..] == [(h, [h1, h2]), (r, [r1, r2]), (t, [])];
    assert c[1..][1..] == [(r, [r1, r2]), (t, [])];
    assert c[1..][1..][1..] == [(t, [])];
    var sep := BreedSubBreedSeparator;
    assert EntryOptions(b, [b1, b2]) == [b, b + sep + b1, b + sep + b2];
    assert EntryOptions(h, [h1, h2]) == [h, h + sep + h1, h + sep + h2];
    assert EntryOptions(r, [r1, r2]) == [r, r + sep + r1, r + sep + r2];
    assert EntryOptions(t, []) == [t];
    assert Options([(t, [])]) == [t];
    assert Options(c[1..][1..]) == EntryOptions(r, [r1, r2]) + [t];
    assert Options(c[1..]) == EntryOptions(h, [h1, h2]) + Options(c[1..][1..]);
    assert Options(c) == EntryOptions(b, [b1, b2]) + Options(c[1..]);
  }

  // ---------------------------------------------------------------------------
  // Filtering

  /** An option matches a normalised term when its lower-case form contains it. */
  predicate Matches(option: string, term: string)
  {
    Contains(Lower(option), term)
  }

  /** `_filter`: all options for a term that normalises to nothing, else the matching ones in order. */
  function MatchingOptions(options: seq<string>, value: string): seq<string>
  {
    var term := Normalize(value);
    if term == [] then options else Filter(options, (o: string) => Matches(o, term))
  }

  /** The filter keeps, in order and with their multiplicity, exactly the options that match. */
  lemma MatchingOptionsSpec(options: seq<string>, value: string)
    ensures Normalize(value) == [] ==> MatchingOptions(options, value) == options
    ensures IsSubseq(MatchingOptions(options, value), options)
    ensures forall o :: (o in MatchingOptions(options, value) <==>
                          o in options && (Normalize(value) == [] || Matches(o, Normalize(value))))
    ensures Normalize(value) != [] ==> forall o :: (multiset(MatchingOptions(options, value))[o] ==
                                        if Matches(o, Normalize(value)) then multiset(options)[o] else 0)
  {
    var term := Normalize(value);
    var p := (o: string) => Matches(o, term);
    if term == [] {
      assert MatchingOptions(options, value) == options;
      SubseqRefl(options);
    } else {
      FilterIsSubseq(options, p);
      forall o ensures multiset(Filter(options, p))[o] == if p(o) then multiset(options)[o] else 0 {
        FilterCount(options, p, o);
      }
      forall o ensures o in Filter(options, p) <==> o in options && p(o) {
        FilterMember(options, p, o);
      }
    }
  }

  lemma {:induction false} SubseqRefl<T>(s: seq<T>)
    ensures IsSubseq(s, s)
  {
    if s != [] {
      SubseqRefl(s[1..]);
    }
  }

  /** The search is case-insensitive: typing upper-case letters shows the same options. */
  lemma MatchingIgnoresCase(options: seq<string>, value: string)
    ensures MatchingOptions(options, Lower(value)) == MatchingOptions(options, value)
  {
    NormalizeIgnoresCase(value);
  }

  /** A term that no option contains shows nothing. */
  lemma NothingMatches(options: seq<string>, value: string)
    requires Normalize(value) != []
    requires forall i :: 0 <= i < |options| ==> !Matches(options[i], Normalize(value))
    ensures MatchingOptions(options, value) == []
  {
    FilterNone(options, (o: string) => Matches(o, Normalize(value)));
  }

  /** A catalogue name: lower-case, unaccented, without white space. */
  predicate PlainName(s: string)
  {
    forall k :: 0 <= k < |s| ==> !IsCombiningMark(s[k]) && !IsAsciiUpper(s[k]) && !IsWhitespace(s[k])
  }

  /** A plain name is found at the start of the lower-case form of anything it begins. */
  lemma PlainPrefixMatches(b: string, x: string)
    requires PlainName(b)
    ensures Matches(b + x, b)
  {
    var l := Lower(b + x);
    assert l[0..|b|] == b by {
      forall k | 0 <= k < |b| ensures l[k] == b[k] {
        assert (b + x)[k] == b[k];
      }
    }
    assert OccursAt(l, b, 0);
  }

  /** Typing a breed's name (in any case) shows at least all of that breed's options. */
  lemma BreedNameShowsItsEntry(breed: string, subBreeds: seq<string>, value: string)
    requires breed != [] && PlainName(breed) && Normalize(value) == breed
    ensures MatchingOptions(EntryOptions(breed, subBreeds), value) == EntryOptions(breed, subBreeds)
  {
    var e := EntryOptions(breed, subBreeds);
    forall i | 0 <= i < |e| ensures Matches(e[i], breed) {
      EntryOptionMatches(breed, subBreeds, i);
    }
    FilterAll(e, (o: string) => Matches(o, breed));
  }

  lemma EntryOptionMatches(breed: string, subBreeds: seq<string>, i: nat)
    requires PlainName(breed) && i < |EntryOptions(breed, subBreeds)|
    ensures Matches(EntryOptions(breed, subBreeds)[i], breed)
  {
    var e := EntryOptions(breed, subBreeds);
    if i == 0 {
      PlainPrefixMatches(breed, []);
      assert e[0] == breed + [];
    } else {
      PlainPrefixMatches(breed, BreedSubBreedSeparator + subBreeds[i - 1]);
      assert e[i] == breed + (BreedSubBreedSeparator + subBreeds[i - 1]);
    }
  }

  /**
   * Typing a breed's name filters the whole catalogue into the matches before its entry, every
   * option of its entry, and the matches after it.
   */
  lemma BreedNameInCatalogue(c: Catalogue, k: nat, value: string)
    requires k < |c| && c[k].0 != [] && PlainName(c[k].0) && Normalize(value) == c[k].0
    ensures MatchingOptions(Options(c), value)
            == MatchingOptions(Options(c[..k]), value) + EntryOptions(c[k].0, c[k].1)
               + MatchingOptions(Options(c[k + 1..]), value)
  {
    var b := c[k].0;
    var p := (o: string) => Matches(o, b);
    var pre, e, post := Options(c[..k]), EntryOptions(c[k].0, c[k].1), Options(c[k + 1..]);
    OptionsOfEntry(c, k);
    FilterAppend(pre + e, post, p);
    FilterAppend(pre, e, p);
    BreedNameShowsItsEntry(b, c[k].1, value);
  }

  /**
   * When no option of another entry contains the breed's name, typing it (in any case) shows
   * exactly that entry's options: one for the breed and one per sub-breed, so a breed with two
   * sub-breeds gives three.
   */
  lemma BreedNameShowsOnlyItsEntry(c: Catalogue, k: nat, value: string)
    requires k < |c| && c[k].0 != [] && PlainName(c[k].0) && Normalize(value) == c[k].0
    requires forall j :: 0 <= j < |c| && j != k ==> EntryMisses(c[j], c[k].0)
    ensures MatchingOptions(Options(c), value) == EntryOptions(c[k].0, c[k].1)
    ensures |MatchingOptions(Options(c), value)| == 1 + |c[k].1|
  {
    var b := c[k].0;
    var pre, post := c[..k], c[k + 1..];
    forall j | 0 <= j < |pre| ensures EntryMisses(pre[j], b) {
      assert pre[j] == c[j];
    }
    forall j | 0 <= j < |post| ensures EntryMisses(post[j], b) {
      assert post[j] == c[k + 1 + j];
    }
    MissesEverywhere(pre, b);
    MissesEverywhere(post, b);
    BreedNameInCatalogue(c, k, value);
    NothingMatches(Options(pre), value);
    NothingMatches(Options(post), value);
  }

  /** No option of the entry contains `term`. */
  predicate EntryMisses(e: (string, seq<string>), term: string)
  {
    forall o :: o in EntryOptions(e.0, e.1) ==> !Matches(o, term)
  }

  lemma {:induction false} MissesEverywhere(t: Catalogue, term: string)
    requires forall j :: 0 <= j < |t| ==> EntryMisses(t[j], term)
    ensures forall i :: 0 <= i < |Options(t)| ==> !Matches(Options(t)[i], term)
  {
    if t != [] {
      MissesEverywhere(t[1..], term);
      var e, rest := EntryOptions(t[0].0, t[0].1), Options(t[1..]);
      assert EntryMisses(t[0], term);
      forall i | 0 <= i < |e + rest| ensures !Matches((e + rest)[i], term) {
        if i < |e| {
          assert e[i] in e;
        } else {
          assert (e + rest)[i] == rest[i - |e|];
        }
      }
    }
  }

  // ---------------------------------------------------------------------------
  // Value changes

  /** What one value of the search box produces: an optional empty selection and the options shown. */
  datatype ValueStep = ValueStep(emitted: Option<string>, shown: seq<string>)

  /** The `filteredOptions$` pipeline for one value: a cleared (null) box emits `''` and is filtered as `''`. */
  function ValueChange(options: seq<string>, value: Option<string>): ValueStep
  {
    ValueStep(if value.None? then Some("") else None,
              MatchingOptions(options, if value.Some? then value.value else ""))
  }

  /** A cleared box announces the empty selection and shows every option. */
  lemma ClearedBoxShowsAll(options: seq<string>)
    ensures ValueChange(options, None) == ValueStep(Some(""), options)
    ensures ValueChange(options, Some("")) == ValueStep(None, options)
  {
    assert Normalize("") == [];
  }

  /** The search box component. */
  class SearchBox {
    var value: Option<string>
    const store: Store

    /** Creation and `ngOnInit`: the box starts with the shared search value. */
    constructor (store: Store)
      ensures this.store == store && value == Some(store.search)
    {
      this.store := store;
      value := Some(store.search);
    }

    /** The sync effect's first step: a new shared search value is written into the box. */
    method SyncSearch()
      modifies this
      ensures value == Some(store.search)
    {
      value := Some(store.search);
    }

    /** `onSelectedFilter`: the shared filter becomes `f`; an empty box also emits the empty selection. */
    method OnSelectedFilter(f: FilterToggle) returns (emitted: Option<string>)
      modifies store`filter
      ensures store.filter == f
      ensures emitted == if value == None || value == Some("") then Some("") else None
    {
      store.filter := f;
      if value == None || value == Some("") {
        emitted := Some("");
      } else {
        emitted := None;
      }
    }
  }
}
