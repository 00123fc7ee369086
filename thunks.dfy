/** The five asynchronous operations: the request each one makes of the API
    client and how each turns the client's outcome into a fulfilled value or a
    `{ message }` rejection. The call itself is not modelled: its outcome is
    an input, either the response or the message of the thrown error. */
module PokemonThunks {
  import opened Wrappers
  import opened QueryString
  import opened Pokemons

  /** The `{ message }` object an operation rejects with. */
  datatype Failure = Failure(message: string)

  datatype Verb = Get | Post | Put | Delete

  datatype Body =
    | NoBody
    | NewPokemon(name: string, id: int, url: string, types: seq<string>)
    | PokemonUpdate(name: string, url: string, types: seq<string>)

  /** What an operation asks of the API client. */
  datatype Request = Request(verb: Verb, path: string, body: Body)

  const CollectionPath := "/pokemons"

  const NoData := "No data"

  /** The query fields of a list request, in order: page and limit always,
      then search and type only when they are non-empty. */
  function ListQuery(page: int, search: string, filterType: string, limit: int): seq<(string, string)> {
    [("page", Decimal(page)), ("limit", Decimal(limit))]
    + (if search != "" then [("search", search)] else [])
    + (if filterType != "" then [("type", filterType)] else [])
  }

  /** The list URL, built by appending to a string as the source does. */
  method ListUrl(page: int, search: string, filterType: string, limit: int) returns (url: string)
    ensures url == CollectionPath + "?" + EncodeQuery(ListQuery(page, search, filterType, limit))
    ensures QuerySafe(search) && QuerySafe(filterType) ==>
      ParseQuery(url[|CollectionPath| + 1..]) == ListQuery(page, search, filterType, limit)
  {
    ghost var fields := [("page", Decimal(page)), ("limit", Decimal(limit))];
    url := "/pokemons?page=" + Decimal(page) + "&limit=" + Decimal(limit);
    ListUrlStart(Decimal(page), Decimal(limit));
    if search != "" {
      url := url + "&search=" + search;
      EncodeQuerySnoc(fields, ("search", search));
      fields := fields + [("search", search)];
    }
    if filterType != "" {
      url := url + "&type=" + filterType;
      EncodeQuerySnoc(fields, ("type", filterType));
      fields := fields + [("type", filterType)];
    }
    assert fields == ListQuery(page, search, filterType, limit);
    if QuerySafe(search) && QuerySafe(filterType) {
      AfterPrefix(CollectionPath + "?", EncodeQuery(fields));
      ListQueryPlain(page, search, filterType, limit);
      ParseEncodeQuery(fields);
    }
  }

  lemma AfterPrefix(prefix: string, rest: string)
    ensures (prefix + rest)[|prefix|..] == rest
  {
  }

  /** The fixed start of the list URL is the encoding of its first two fields. */
  lemma ListUrlStart(page: string, limit: string)
    ensures "/pokemons?page=" + page + "&limit=" + limit
      == CollectionPath + "?" + EncodeQuery([("page", page), ("limit", limit)])
  {
    assert [("page", page), ("limit", limit)][..1] == [("page", page)];
    assert "/pokemons?page=" == CollectionPath + "?" + "page" + "=";
    assert "&limit=" == "&" + "limit" + "=";
  }

  /** With query-safe filters every list query field is plain. */
  lemma ListQueryPlain(page: int, search: string, filterType: string, limit: int)
    requires QuerySafe(search) && QuerySafe(filterType)
    ensures forall i :: 0 <= i < |ListQuery(page, search, filterType, limit)| ==>
      PlainField(ListQuery(page, search, filterType, limit)[i])
  {
    var p, l := Decimal(page), Decimal(limit);
    assert QuerySafe(p) && QuerySafe(l);
  }

  /** The list operation's request. */
  method GetPokemonsRequest(page: int, search: string, filterType: string, limit: int) returns (r: Request)
    ensures r.verb == Get && r.body == NoBody
    ensures r.path == CollectionPath + "?" + EncodeQuery(ListQuery(page, search, filterType, limit))
  {
    var url := ListUrl(page, search, filterType, limit);
    r := Request(Get, url, NoBody);
  }

  /** The path of one entity's resource. */
  function ItemPath(id: int): (path: string)
    ensures |path| > |CollectionPath| + 1
    ensures path[..|CollectionPath| + 1] == CollectionPath + "/"
    ensures ParseDecimal(path[|CollectionPath| + 1..]) == id
  {
    DecimalRoundTrip(id);
    var path := CollectionPath + "/" + Decimal(id);
    assert path[|CollectionPath| + 1..] == Decimal(id);
    path
  }

  function GetPokemonByIdRequest(id: int): Request {
    Request(Get, ItemPath(id), NoBody)
  }

  /** The creation request: the image URL travels under the key `url`. */
  function AddPokemonRequest(name: string, id: int, imgUrl: string, types: seq<string>): Request {
    Request(Post, CollectionPath, NewPokemon(name, id, imgUrl, types))
  }

  /** The update request: the id is in the path, not in the body. */
  function EditPokemonRequest(name: string, id: int, url: string, types: seq<string>): Request {
    Request(Put, ItemPath(id), PokemonUpdate(name, url, types))
  }

  function DeletePokemonRequest(id: int): Request {
    Request(Delete, ItemPath(id), NoBody)
  }

  /** Reading, updating and deleting address one resource per entity: the same
      path for the same id, different paths for different ids. */
  lemma ItemRequestsAddressTheEntity(a: int, b: int)
    ensures GetPokemonByIdRequest(a).path == EditPokemonRequest("", a, "", []).path == DeletePokemonRequest(a).path
    ensures DeletePokemonRequest(a).path == DeletePokemonRequest(b).path <==> a == b
  {
    var pa, pb := ItemPath(a), ItemPath(b);
    if pa == pb {
      assert pa[|CollectionPath| + 1..] == pb[|CollectionPath| + 1..];
    }
  }

  /** Creating posts to the collection; updating puts and deleting deletes at
      the entity's own path. Creating and then updating an entity with the same
      fields sends the same name, image URL and types; the creation carries the
      id in its body, the update in its path. */
  lemma WriteRequestsAgree(name: string, id: int, imgUrl: string, types: seq<string>)
    ensures AddPokemonRequest(name, id, imgUrl, types).verb == Post
    ensures AddPokemonRequest(name, id, imgUrl, types).path == CollectionPath
    ensures EditPokemonRequest(name, id, imgUrl, types).verb == Put
    ensures DeletePokemonRequest(id).verb == Delete && DeletePokemonRequest(id).body == NoBody
    ensures AddPokemonRequest(name, id, imgUrl, types).body.id == id
    ensures AddPokemonRequest(name, id, imgUrl, types).body.name == EditPokemonRequest(name, id, imgUrl, types).body.name == name
    ensures AddPokemonRequest(name, id, imgUrl, types).body.url == EditPokemonRequest(name, id, imgUrl, types).body.url == imgUrl
    ensures AddPokemonRequest(name, id, imgUrl, types).body.types == EditPokemonRequest(name, id, imgUrl, types).body.types == types
    ensures ParseDecimal(EditPokemonRequest(name, id, imgUrl, types).path[|CollectionPath| + 1..]) == id
    ensures ParseDecimal(DeletePokemonRequest(id).path[|CollectionPath| + 1..]) == id
  {
  }

  /** The settlement of an operation that returns the response as it is
      (list) or nothing (create, update, delete): a thrown error becomes a
      rejection with its message. */
  function Settle<T>(outcome: Result<T, string>): (r: Result<T, Failure>)
    ensures r.Ok? <==> outcome.Ok?
    ensures r.Ok? ==> r.value == outcome.value
    ensures r.Err? ==> r.error.message == outcome.error
  {
    match outcome
    case Ok(response) => Ok(response)
    case Err(message) => Err(Failure(message))
  }

  /** The settlement of the by-id operation: an absent (falsy) response is a
      rejection with message "No data", a thrown error a rejection with its
      message, anything else the fulfilled value. */
  function GetPokemonByIdSettle(outcome: Result<Option<PokemonDetail>, string>): (r: Result<PokemonDetail, Failure>)
    ensures r.Ok? <==> outcome.Ok? && outcome.value.Some?
    ensures r.Ok? ==> r.value == outcome.value.value
    ensures outcome.Ok? && outcome.value.None? ==> r == Err(Failure(NoData))
    ensures outcome.Err? ==> r == Err(Failure(outcome.error))
  {
    match outcome
    case Err(message) => Err(Failure(message))
    case Ok(None) => Err(Failure(NoData))
    case Ok(Some(detail)) => Ok(detail)
  }
}
