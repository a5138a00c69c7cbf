/** Option, the stand-in for JavaScript's `null` and `undefined`. */
module Wrappers {
  datatype Option<+T> = None | Some(value: T)
}

/** The API client layer (store/api/foodApi.ts): the Food record, the five
    endpoints, the request each one builds and the cache tags each one provides
    or invalidates. The query builders are plain expressions, so each is a
    function here; the HTTP transport and the caching runtime are not modelled. */
module FoodApi {
  import opened Wrappers
  import opened JsNumber

  datatype Status = OpenNow | Closed

  /** The two literal values of the `status` union type. */
  function StatusText(s: Status): (r: string)
    ensures r == "Open Now" || r == "Closed"
  {
    match s
    case OpenNow => "Open Now"
    case Closed => "Closed"
  }

  /** A Food record as the remote service returns it. */
  datatype Food = Food(
    open: bool,
    avatar: string,
    id: string,
    name: string,
    rating: Decimal,
    image: string,
    restaurant: string,
    logo: string,
    status: Status,
    price: string,
    createdAt: Option<string>)

  /** A field of a request body: a string sent as it is, or `Number(s)` of a
      string (kept symbolic: the model does not evaluate JavaScript numbers). */
  datatype JsField = Text(text: string) | NumberOf(source: string)

  /** The body the forms send: the seven form fields, rating and price possibly
      coerced. */
  datatype FoodInput = FoodInput(
    name: string,
    rating: JsField,
    image: string,
    restaurant: string,
    logo: string,
    status: string,
    price: JsField)

  /** A call of one endpoint with its argument. */
  datatype Endpoint =
    | GetFoods
    | SearchFoods(searchParam: string)
    | CreateFood(newFood: FoodInput)
    | UpdateFood(id: string, food: FoodInput)
    | DeleteFood(id: string)

  predicate IsQuery(e: Endpoint) {
    e.GetFoods? || e.SearchFoods?
  }

  datatype HttpMethod = GET | POST | PUT | DELETE

  /** The request a query builder produces, relative to the base URL. A builder
      that returns a bare string makes a GET request without a body. */
  datatype Request = Request(verb: HttpMethod, url: string, body: Option<FoodInput>)

  const FoodPath := "Food"
  const SearchPrefix := "Food?name="
  const ItemPrefix := "Food/"

  /** The `query` builder of each endpoint: every request targets the "Food"
      resource, queries are the GET requests, and exactly the create and update
      calls carry a body, which is their argument unchanged. */
  function Describe(e: Endpoint): (r: Request)
    ensures |r.url| >= |FoodPath| && r.url[..|FoodPath|] == FoodPath
    ensures r.verb == GET <==> IsQuery(e)
    ensures r.verb == DELETE <==> e.DeleteFood?
    ensures r.body.Some? <==> e.CreateFood? || e.UpdateFood?
    ensures e.CreateFood? ==> r.body == Some(e.newFood)
    ensures e.UpdateFood? ==> r.body == Some(e.food)
  {
    match e
    case GetFoods => Request(GET, FoodPath, None)
    case SearchFoods(p) => Request(GET, SearchPrefix + p, None)
    case CreateFood(f) => Request(POST, FoodPath, Some(f))
    case UpdateFood(id, f) => Request(PUT, ItemPrefix + id, Some(f))
    case DeleteFood(id) => Request(DELETE, ItemPrefix + id, None)
  }

  /** Reads back which endpoint call a request came from, if any. */
  function Decode(r: Request): Option<Endpoint> {
    match r.verb
    case GET =>
      if r.body.Some? then None
      else if r.url == FoodPath then Some(GetFoods)
      else if |r.url| >= |SearchPrefix| && r.url[..|SearchPrefix|] == SearchPrefix
      then Some(SearchFoods(r.url[|SearchPrefix|..]))
      else None
    case POST =>
      if r.url == FoodPath && r.body.Some? then Some(CreateFood(r.body.value)) else None
    case PUT =>
      if |r.url| >= |ItemPrefix| && r.url[..|ItemPrefix|] == ItemPrefix && r.body.Some?
      then Some(UpdateFood(r.url[|ItemPrefix|..], r.body.value))
      else None
    case DELETE =>
      if |r.url| >= |ItemPrefix| && r.url[..|ItemPrefix|] == ItemPrefix && r.body.None?
      then Some(DeleteFood(r.url[|ItemPrefix|..]))
      else None
  }

  /** Each request determines its call: the search parameter and the id travel in
      the URL verbatim, the create and update bodies are the inputs unchanged, the
      update body carries no id and a delete carries no body. */
  lemma DescribeDecode(e: Endpoint)
    ensures Decode(Describe(e)) == Some(e)
  {
    match e
    case GetFoods =>
    case SearchFoods(p) =>
      assert (SearchPrefix + p)[..|SearchPrefix|] == SearchPrefix;
      assert (SearchPrefix + p)[|SearchPrefix|..] == p;
    case CreateFood(f) =>
    case UpdateFood(id, f) =>
      assert (ItemPrefix + id)[..|ItemPrefix|] == ItemPrefix;
      assert (ItemPrefix + id)[|ItemPrefix|..] == id;
    case DeleteFood(id) =>
      assert (ItemPrefix + id)[..|ItemPrefix|] == ItemPrefix;
      assert (ItemPrefix + id)[|ItemPrefix|..] == id;
  }

  /** Decode accepts only requests some endpoint builds. */
  lemma DecodeDescribe(r: Request)
    ensures Decode(r).Some? ==> Describe(Decode(r).value) == r
  {
    if Decode(r).Some? {
      match r.verb
      case GET =>
        if r.url != FoodPath {
          assert r.url == SearchPrefix + r.url[|SearchPrefix|..];
        }
      case POST =>
      case PUT =>
        assert r.url == ItemPrefix + r.url[|ItemPrefix|..];
      case DELETE =>
        assert r.url == ItemPrefix + r.url[|ItemPrefix|..];
    }
  }

  /** The only tag type. */
  const FoodTag := "Food"

  /** `providesTags`: both queries provide "Food". */
  function Provides(e: Endpoint): (r: set<string>)
    ensures r <= {FoodTag}
    ensures FoodTag in r <==> IsQuery(e)
  {
    if IsQuery(e) then {FoodTag} else {}
  }

  /** `invalidatesTags`: every mutation invalidates "Food". */
  function Invalidates(e: Endpoint): (r: set<string>)
    ensures r <= {FoodTag}
    ensures FoodTag in r <==> !IsQuery(e)
  {
    if IsQuery(e) then {} else {FoodTag}
  }

  /** A cached result of query `q` is stale after mutation `m` when `m`
      invalidates a tag `q` provides. */
  predicate StaleAfter(q: Endpoint, m: Endpoint) {
    Provides(q) * Invalidates(m) != {}
  }

  /** Any mutation makes the full list and every search result stale, whatever
      the search parameter; a query makes nothing stale. */
  lemma MutationsRefreshEveryQuery(q: Endpoint, m: Endpoint)
    ensures StaleAfter(q, m) <==> IsQuery(q) && !IsQuery(m)
  {
    if IsQuery(q) && !IsQuery(m) {
      assert FoodTag in Provides(q) * Invalidates(m);
    }
  }
}
