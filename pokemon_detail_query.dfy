/** `src/hooks/usePokemonDetail.ts`: the detail retry rule, the `enabled`
    guard and the detail cache key. */
module PokemonDetailQuery {
  import opened Wrappers
  import opened PokemonApi
  import opened PokemonListQuery

  /** `isApiError(error) && error.status === 404`. */
  predicate IsNotFound(error: Thrown) {
    IsApiError(error) && error.err.status == Some(404)
  }

  /** The detail query's `retry` option: a retry only below two failures, and
      never for a 404 `ApiError`. */
  function DetailRetry(failureCount: int, error: Thrown): (retry: bool)
    ensures retry ==> failureCount < 2 && !IsNotFound(error)
  {
    if IsNotFound(error) then false else failureCount < 2
  }

  /** `enabled: !!id`: only a non-empty route id issues a request. */
  function Enabled(id: string): (on: bool)
    ensures on <==> |id| > 0
  {
    id != ""
  }

  /** `['pokemon', 'detail', id]`: two fixed parts and the route id, so
      each route id has a cache entry of its own. */
  function DetailQueryKey(id: string): (key: seq<KeyPart>)
    ensures |key| == 3 && key[0] == Text("pokemon") && key[1] == Text("detail")
    ensures key[2] == Text(id)
  {
    [Text("pokemon"), Text("detail"), Text(id)]
  }

  /** Distinct route ids never share a detail cache entry. */
  lemma DetailQueryKeyInjective(a: string, b: string)
    requires DetailQueryKey(a) == DetailQueryKey(b)
    ensures a == b
  {
    assert DetailQueryKey(a)[2] == Text(a) && DetailQueryKey(b)[2] == Text(b);
  }

  /** Detail keys and list keys never collide. */
  lemma DetailAndListKeysDiffer(id: string, limit: int, offset: int)
    ensures DetailQueryKey(id) != ListQueryKey(limit, offset)
  {
    assert |DetailQueryKey(id)| != |ListQueryKey(limit, offset)|;
  }

  /** A 404 is never retried; any other failure, other 4xx included, is
      retried exactly while fewer than two failures have been seen. */
  lemma DetailRetryRule(failureCount: int, error: Thrown)
    ensures IsNotFound(error) ==> !DetailRetry(failureCount, error)
    ensures !IsNotFound(error) ==> (DetailRetry(failureCount, error) <==> failureCount < 2)
  {
  }

  /** The list rule is the stricter: whenever the list query retries, the
      detail query would too, and they differ exactly on the 4xx other than
      404 below the failure bound. */
  lemma ListRetryStricter(failureCount: int, error: Thrown)
    ensures ListRetry(failureCount, error) ==> DetailRetry(failureCount, error)
    ensures DetailRetry(failureCount, error) && !ListRetry(failureCount, error)
      <==> failureCount < 2 && IsClientError(error) && !IsNotFound(error)
  {
  }
}
