/** `src/hooks/usePokemonList.ts`: the list transform, its error wrapping, the
    list retry rule and the list cache key. */
module PokemonListQuery {
  import opened Wrappers
  import opened PokemonApi

  /** One entry of the list response's `results`. */
  datatype RawEntry = RawEntry(name: string, url: string)

  /** The list response body: `{ count, next, previous, results }`. */
  datatype RawListResponse =
    RawListResponse(count: nat, next: Option<string>, previous: Option<string>, results: seq<RawEntry>)

  /** `PokemonCard`: the summary record a list entry becomes. */
  datatype PokemonCard = PokemonCard(id: nat, name: string, sprite: string)

  /** What the list query resolves to. */
  datatype ListData =
    ListData(pokemon: seq<PokemonCard>, count: nat, next: Option<string>, previous: Option<string>)

  const LIST_FAILED_MESSAGE: string := "Failed to load Pokémon list"

  /** The body of the `results.map` callback. */
  function ToCard(entry: RawEntry): PokemonCard {
    var id := IdFromUrl(entry.url);
    PokemonCard(id, entry.name, SpriteUrl(id))
  }

  /** `results.map(...)`: one card per entry, in the same order, each with the
      id read from the entry's URL, its name and the sprite for that id. */
  function ToCards(results: seq<RawEntry>): (cards: seq<PokemonCard>)
    ensures |cards| == |results|
    ensures forall i :: 0 <= i < |results| ==>
      cards[i].id == IdFromUrl(results[i].url)
      && cards[i].name == results[i].name
      && cards[i].sprite == SpriteUrl(cards[i].id)
  {
    if results == [] then [] else [ToCard(results[0])] + ToCards(results[1..])
  }

  /** The transform is a map: it commutes with concatenation. */
  lemma {:induction false} ToCardsAppend(a: seq<RawEntry>, b: seq<RawEntry>)
    ensures ToCards(a + b) == ToCards(a) + ToCards(b)
  {
    if a != [] {
      assert (a + b)[1..] == a[1..] + b;
      ToCardsAppend(a[1..], b);
    } else {
      assert a + b == b;
    }
  }

  /** The transformed response: cards plus `count`, `next`, `previous`. */
  function Transform(data: RawListResponse): (d: ListData)
    ensures d.pokemon == ToCards(data.results)
    ensures d.count == data.count && d.next == data.next && d.previous == data.previous
  {
    ListData(ToCards(data.results), data.count, data.next, data.previous)
  }

  /** The `catch` of `fetchAndTransformPokemonList`: an `ApiError` goes on as
      it is, anything else becomes `Error('Failed to load Pokémon list')`. */
  function WrapListFailure(t: Thrown): (w: Thrown)
    ensures IsApiError(t) ==> w == t
    ensures !IsApiError(t) ==> w == ErrorValue(LIST_FAILED_MESSAGE)
  {
    if IsApiError(t) then t else ErrorValue(LIST_FAILED_MESSAGE)
  }

  /** The parsed JSON body of the list request as the transform meets it:
      shaped as a list response, or not (no `results` array, an entry whose
      `url` is not a string), in which case the `map` over `results` throws a
      `TypeError` with the given message. */
  datatype ListBody = WellShaped(response: RawListResponse) | Malformed(typeError: string)

  /** `fetchAndTransformPokemonList` over the outcome of the list request. It
      fails exactly when `fetchApi` fails or the body is malformed, and every
      failure is an `ApiError` or the fixed list-failure `Error`. */
  function FetchAndTransform(o: FetchOutcome<ListBody>): (r: Result<ListData, Thrown>)
    ensures r.Failure? <==> FetchApi(o).Failure? || FetchApi(o).value.Malformed?
    ensures r.Failure? ==> IsApiError(r.error) || r.error == ErrorValue(LIST_FAILED_MESSAGE)
  {
    match FetchApi(o)
    case Success(body) =>
      (match body
       case WellShaped(data) => Success(Transform(data))
       case Malformed(message) => Failure(WrapListFailure(TypeErrorValue(message))))
    case Failure(e) => Failure(WrapListFailure(ApiErrorValue(e)))
  }

  /** Every failure of `fetchApi` reaches the caller as the same `ApiError`;
      a well-shaped body becomes its transform; a body the transform cannot
      read becomes `Error('Failed to load Pokémon list')`, whatever the
      `TypeError` said. */
  lemma FetchAndTransformOutcome(o: FetchOutcome<ListBody>)
    ensures FetchApi(o).Failure? ==> FetchAndTransform(o) == Failure(ApiErrorValue(FetchApi(o).error))
    ensures FetchApi(o).Success? && FetchApi(o).value.WellShaped? ==>
      FetchAndTransform(o) == Success(Transform(FetchApi(o).value.response))
    ensures FetchApi(o).Success? && FetchApi(o).value.Malformed? ==>
      FetchAndTransform(o) == Failure(ErrorValue(LIST_FAILED_MESSAGE))
  {
  }

  /** JavaScript truthiness of an optional numeric status (`error.status &&`). */
  predicate Truthy(status: Option<int>) {
    status.Some? && status.value != 0
  }

  /** An `ApiError` whose status is in [400, 500). */
  predicate IsClientError(t: Thrown) {
    IsApiError(t) && Truthy(t.err.status) && 400 <= t.err.status.value < 500
  }

  /** The list query's `retry` option: a retry only below two failures, and
      never for a 4xx `ApiError`. */
  function ListRetry(failureCount: int, error: Thrown): (retry: bool)
    ensures retry ==> failureCount < 2 && !IsClientError(error)
  {
    if IsClientError(error) then false else failureCount < 2
  }

  /** Never a retry for a 4xx `ApiError`, whatever the failure count. */
  lemma ListNoRetryOnClientError(failureCount: int, error: Thrown)
    requires IsApiError(error) && error.err.status.Some?
    requires 400 <= error.err.status.value < 500
    ensures !ListRetry(failureCount, error)
  {
  }

  /** Any other failure (a 5xx, a status-less error, a non-API error) is retried
      exactly while fewer than two failures have been seen. */
  lemma ListRetryOtherwise(failureCount: int, error: Thrown)
    requires !(IsApiError(error) && error.err.status.Some? && 400 <= error.err.status.value < 500)
    ensures ListRetry(failureCount, error) <==> failureCount < 2
  {
  }

  /** A piece of a cache key: `['pokemon', 'list', limit, offset]`. */
  datatype KeyPart = Text(s: string) | Num(n: int)

  function ListQueryKey(limit: int, offset: int): (key: seq<KeyPart>)
    ensures |key| == 4 && key[0] == Text("pokemon") && key[1] == Text("list")
  {
    [Text("pokemon"), Text("list"), Num(limit), Num(offset)]
  }

  /** Each (limit, offset) pair has a cache entry of its own. */
  lemma ListQueryKeyInjective(l1: int, o1: int, l2: int, o2: int)
    requires ListQueryKey(l1, o1) == ListQueryKey(l2, o2)
    ensures l1 == l2 && o1 == o2
  {
    assert ListQueryKey(l1, o1)[2] == Num(l1) && ListQueryKey(l1, o1)[3] == Num(o1);
  }
}
