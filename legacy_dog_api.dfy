/**
 * The gateway to the dog.ceo API as the components use it (`src/app/services/dog.api.service.ts`):
 * requests are built from paths under one base URL and a failed request stays a failure.
 *
 * The transport is a parameter: `http(url)` is the response to a GET of `url`, and for the
 * batch of random-image requests `http(i, url)` is the response to the `i`-th request.
 */
module LegacyDogApi {
  import opened Base
  import opened Models

  const BaseUrl: string := "https://dog.ceo/api"

  /** The API's response envelope; only `message` is used. */
  datatype ApiResponse<T> = ApiResponse(message: T, status: string)

  /** What the search loader asks for. */
  datatype Loader = NoRequest | ByBreed(breed: string) | BySubBreed(breed: string, subBreed: string)

  function Url(path: string): string
  {
    BaseUrl + "/" + path
  }

  /** `request`: the response's `message`, or the transport's failure. */
  function Request<T>(response: Outcome<ApiResponse<T>>): (r: Outcome<T>)
    ensures r.Ok? <==> response.Ok?
    ensures r.Ok? ==> r.value == response.value.message
  {
    match response
    case Ok(res) => Ok(res.message)
    case Err => Err
  }

  function BreedImagesPath(breed: string): string
  {
    "breed/" + breed + "/images"
  }

  function SubBreedImagesPath(breed: string, subBreed: string): string
  {
    "breed/" + breed + "/" + subBreed + "/images"
  }

  const RandomImagePath: string := "breeds/image/random"

  const AllBreedsPath: string := "breeds/list/all"

  /** The resources' values before their first load. */
  const RandomDefault: seq<string> := []

  const AllBreedsDefault: Catalogue := []

  /** The search loader's dispatch: no breed, no request; no sub-breed, the breed's images; else the sub-breed's. */
  function Dispatch(q: BreedQuery): Loader
  {
    if q.breed == "" then NoRequest
    else if q.subBreed == "" then ByBreed(q.breed)
    else BySubBreed(q.breed, q.subBreed)
  }

  /** The URL a loader fetches. */
  function LoaderUrl(l: Loader): Option<string>
  {
    match l
    case NoRequest => None
    case ByBreed(b) => Some(Url(BreedImagesPath(b)))
    case BySubBreed(b, s) => Some(Url(SubBreedImagesPath(b, s)))
  }

  function SearchByBreed(http: string -> Outcome<ApiResponse<seq<string>>>, breed: string): Outcome<seq<string>>
  {
    Request(http(Url(BreedImagesPath(breed))))
  }

  function SearchBySubBreed(http: string -> Outcome<ApiResponse<seq<string>>>, breed: string, subBreed: string): Outcome<seq<string>>
  {
    Request(http(Url(SubBreedImagesPath(breed, subBreed))))
  }

  /** The search loader: `null` without a breed, else the dispatched request. */
  function Search(http: string -> Outcome<ApiResponse<seq<string>>>, q: BreedQuery): Outcome<Option<seq<string>>>
  {
    match Dispatch(q)
    case NoRequest => Ok(None)
    case ByBreed(b) =>
      (match SearchByBreed(http, b) case Ok(images) => Ok(Some(images)) case Err => Err)
    case BySubBreed(b, s) =>
      (match SearchBySubBreed(http, b, s) case Ok(images) => Ok(Some(images)) case Err => Err)
  }

  /** The `n` random-image responses, in request order. */
  function RandomResponses(http: (nat, string) -> Outcome<ApiResponse<string>>, n: nat): seq<Outcome<string>>
  {
    seq(n, i requires 0 <= i < n => Request(http(i, Url(RandomImagePath))))
  }

  /** `random`: `n` requests for one random image each, joined in order; any failure fails the whole. */
  function Random(http: (nat, string) -> Outcome<ApiResponse<string>>, n: nat): Outcome<seq<string>>
  {
    ForkJoin(RandomResponses(http, n))
  }

  function GetAllBreeds(http: string -> Outcome<ApiResponse<Catalogue>>): Outcome<Catalogue>
  {
    Request(http(Url(AllBreedsPath)))
  }

  /** The three-way dispatch and the URL each branch fetches. */
  lemma DispatchSpec(q: BreedQuery)
    ensures q.breed == "" <==> Dispatch(q) == NoRequest
    ensures q.breed != "" && q.subBreed == "" ==>
      Dispatch(q) == ByBreed(q.breed)
      && LoaderUrl(Dispatch(q)) == Some("https://dog.ceo/api/breed/" + q.breed + "/images")
    ensures q.breed != "" && q.subBreed != "" ==>
      Dispatch(q) == BySubBreed(q.breed, q.subBreed)
      && LoaderUrl(Dispatch(q)) == Some("https://dog.ceo/api/breed/" + q.breed + "/" + q.subBreed + "/images")
  {
    var b, s := q.breed, q.subBreed;
    assert Url(BreedImagesPath(b)) == "https://dog.ceo/api/breed/" + b + "/images";
    assert Url(SubBreedImagesPath(b, s)) == "https://dog.ceo/api/breed/" + b + "/" + s + "/images";
  }

  /** A search fetches exactly the dispatched URL and fails exactly when that request fails. */
  lemma SearchSpec(http: string -> Outcome<ApiResponse<seq<string>>>, q: BreedQuery)
    ensures Dispatch(q) == NoRequest ==> Search(http, q) == Ok(None)
    ensures Dispatch(q) != NoRequest ==>
      LoaderUrl(Dispatch(q)).Some?
      && (Search(http, q).Err? <==> http(LoaderUrl(Dispatch(q)).value).Err?)
      && (Search(http, q).Ok? ==> Search(http, q).value == Some(http(LoaderUrl(Dispatch(q)).value).value.message))
  {
  }

  /** Random images: all `n` answers in request order, or a failure as soon as one request fails. */
  lemma RandomSpec(http: (nat, string) -> Outcome<ApiResponse<string>>, n: nat)
    ensures Random(http, n).Ok? <==> forall i :: 0 <= i < n ==> http(i, Url(RandomImagePath)).Ok?
    ensures Random(http, n).Ok? ==>
      |Random(http, n).value| == n
      && forall i :: 0 <= i < n ==> Random(http, n).value[i] == http(i, Url(RandomImagePath)).value.message
  {
    var rs := RandomResponses(http, n);
    assert forall i :: 0 <= i < n ==> rs[i] == Request(http(i, Url(RandomImagePath)));
  }
}
