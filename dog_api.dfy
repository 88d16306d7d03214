/**
 * The gateway with error handling (`src/app/services/dog-api/dog-api.service.ts`): the same
 * requests as the older gateway, each piped through `catchError`, which shows one error
 * notification and substitutes an empty value.
 */
module DogApi {
  import opened Base
  import opened Models
  import L = LegacyDogApi

  /** A value after error handling, with the number of error notifications shown to get it. */
  datatype Caught<T> = Caught(value: T, notices: nat)

  /** `catchError(() => { notify; return of(fallback) })`. */
  function CatchTo<T>(o: Outcome<T>, fallback: T): (r: Caught<T>)
    ensures o.Ok? ==> r == Caught(o.value, 0)
    ensures o.Err? ==> r == Caught(fallback, 1)
  {
    match o
    case Ok(v) => Caught(v, 0)
    case Err => Caught(fallback, 1)
  }

  function SearchByBreed(http: string -> Outcome<L.ApiResponse<seq<string>>>, breed: string): Caught<seq<string>>
  {
    CatchTo(L.SearchByBreed(http, breed), [])
  }

  function SearchBySubBreed(http: string -> Outcome<L.ApiResponse<seq<string>>>, breed: string, subBreed: string): Caught<seq<string>>
  {
    CatchTo(L.SearchBySubBreed(http, breed, subBreed), [])
  }

  function Found(c: Caught<seq<string>>): Caught<Option<seq<string>>>
  {
    Caught(Some(c.value), c.notices)
  }

  /** The search loader: the same dispatch, with each branch's failure caught. */
  function Search(http: string -> Outcome<L.ApiResponse<seq<string>>>, q: BreedQuery): Caught<Option<seq<string>>>
  {
    match L.Dispatch(q)
    case NoRequest => Caught(None, 0)
    case ByBreed(b) => Found(SearchByBreed(http, b))
    case BySubBreed(b, s) => Found(SearchBySubBreed(http, b, s))
  }

  /** `random`: the joined batch, with a failure anywhere caught once for the whole batch. */
  function Random(http: (nat, string) -> Outcome<L.ApiResponse<string>>, n: nat): Caught<seq<string>>
  {
    CatchTo(L.Random(http, n), [])
  }

  function GetAllBreeds(http: string -> Outcome<L.ApiResponse<Catalogue>>): Caught<Catalogue>
  {
    CatchTo(L.GetAllBreeds(http), L.AllBreedsDefault)
  }

  /** Searching with error handling is the older gateway's search with a failure turned into `[]` and one notice. */
  lemma SearchCatchesFailure(http: string -> Outcome<L.ApiResponse<seq<string>>>, q: BreedQuery)
    ensures L.Search(http, q).Ok? ==> Search(http, q) == Caught(L.Search(http, q).value, 0)
    ensures L.Search(http, q).Err? ==> Search(http, q) == Caught(Some([]), 1)
    ensures q.breed == "" ==> Search(http, q) == Caught(None, 0)
    ensures Search(http, q).notices <= 1
  {
  }

  /** A failed breed or sub-breed search gives `[]` and exactly one notice. */
  lemma FailedSearch(http: string -> Outcome<L.ApiResponse<seq<string>>>, q: BreedQuery)
    requires q.breed != ""
    requires http(L.LoaderUrl(L.Dispatch(q)).value).Err?
    ensures Search(http, q) == Caught(Some([]), 1)
  {
    L.SearchSpec(http, q);
  }

  /** Random images are all or nothing: every answer in order with no notice, or `[]` with one. */
  lemma RandomAllOrNothing(http: (nat, string) -> Outcome<L.ApiResponse<string>>, n: nat)
    ensures Random(http, n).notices == 0 <==> forall i :: 0 <= i < n ==> http(i, L.Url(L.RandomImagePath)).Ok?
    ensures Random(http, n).notices == 0 ==>
      |Random(http, n).value| == n
      && forall i :: 0 <= i < n ==> Random(http, n).value[i] == http(i, L.Url(L.RandomImagePath)).value.message
    ensures Random(http, n).notices != 0 ==> Random(http, n) == Caught([], 1)
    ensures n > 0 ==> (|Random(http, n).value| > 0 <==> Random(http, n).notices == 0)
  {
    L.RandomSpec(http, n);
  }

  /** The catalogue, or the empty catalogue and one notice; the empty catalogue is also the default. */
  lemma GetAllBreedsSpec(http: string -> Outcome<L.ApiResponse<Catalogue>>)
    ensures http(L.Url(L.AllBreedsPath)).Ok? ==>
      GetAllBreeds(http) == Caught(http(L.Url(L.AllBreedsPath)).value.message, 0)
    ensures http(L.Url(L.AllBreedsPath)).Err? ==> GetAllBreeds(http) == Caught([], 1)
    ensures L.AllBreedsDefault == [] && L.RandomDefault == []
  {
  }
}
