/** Record transport and record transform of `src/api/pokemon.ts`: the error
    classification of `fetchApi` over an abstract fetch outcome, the endpoint
    strings, the id-from-URL pattern and the sprite URL template. */
module PokemonApi {
  import opened Wrappers
  import opened Decimal

  /** `class ApiError extends Error { status?; statusText? }`. */
  datatype ApiError = ApiError(message: string, status: Option<int>, statusText: Option<string>)

  /** A value caught by a `catch` clause. Every kind but the last is an `Error`. */
  datatype Thrown =
    | ApiErrorValue(err: ApiError)
    | TypeErrorValue(message: string)
    | ErrorValue(message: string)
    | NonErrorValue

  /** What `fetch` and `response.json()` did: either the server answered with a
      status (and the body parsed or threw), or `fetch` itself rejected. */
  datatype FetchOutcome<T> =
    | Responded(status: int, statusText: string, body: Result<T, Thrown>)
    | Rejected(reason: Thrown)

  const NETWORK_MESSAGE: string := "Network error: Please check your internet connection"
  const UNEXPECTED_MESSAGE: string := "An unexpected error occurred"
  const FAILED_PREFIX: string := "API request failed: "
  const DEFAULT_LIMIT: int := 16
  const DEFAULT_OFFSET: int := 0
  const SPRITE_PREFIX: string :=
    "https://raw.githubusercontent.com/PokeAPI/sprites/master/sprites/pokemon/other/official-artwork/"
  const SPRITE_SUFFIX: string := ".png"
  const POKEMON_SEGMENT: string := "/pokemon/"

  /** `response.ok`: the Fetch Standard's ok status range 200 to 299. */
  predicate IsOkStatus(status: int) {
    200 <= status <= 299
  }

  /** `error instanceof ApiError`. */
  predicate IsApiError(t: Thrown) {
    t.ApiErrorValue?
  }

  /** `error instanceof Error`. */
  predicate IsError(t: Thrown) {
    !t.NonErrorValue?
  }

  /** `error.message` where the template reads it, else `fallback`. */
  function MessageOr(t: Thrown, fallback: string): string {
    match t
    case ApiErrorValue(e) => e.message
    case TypeErrorValue(m) => m
    case ErrorValue(m) => m
    case NonErrorValue => fallback
  }

  /** The `catch` clause of `fetchApi`: an `ApiError` is rethrown as it is, a
      `TypeError` becomes the status-less network error, another `Error` keeps
      its message, anything else gets the generic message. */
  function Classify(t: Thrown): (e: ApiError)
    ensures IsApiError(t) ==> e == t.err
    ensures !IsApiError(t) ==> e.status == None && e.statusText == None
    ensures t.TypeErrorValue? ==> e.message == NETWORK_MESSAGE
    ensures t.ErrorValue? ==> e.message == t.message
    ensures t.NonErrorValue? ==> e.message == UNEXPECTED_MESSAGE
  {
    match t
    case ApiErrorValue(err) => err
    case TypeErrorValue(_) => ApiError(NETWORK_MESSAGE, None, None)
    case ErrorValue(m) => ApiError(m, None, None)
    case NonErrorValue => ApiError(UNEXPECTED_MESSAGE, None, None)
  }

  /** The `try` block of `fetchApi`: what it returns or throws. */
  function TryFetch<T>(o: FetchOutcome<T>): Result<T, Thrown> {
    match o
    case Rejected(reason) => Failure(reason)
    case Responded(status, statusText, body) =>
      if !IsOkStatus(status) then
        Failure(ApiErrorValue(ApiError(FAILED_PREFIX + statusText, Some(status), Some(statusText))))
      else body
  }

  /** `fetchApi`: whatever fails is reported as an `ApiError`. It yields the
      parsed body exactly when the server answered in 200..299 and the body
      parsed; a rejected `fetch` or a body that would not parse is classified
      by the `catch` clause. */
  function FetchApi<T>(o: FetchOutcome<T>): (r: Result<T, ApiError>)
    ensures r.Success? <==> o.Responded? && IsOkStatus(o.status) && o.body.Success?
    ensures r.Success? ==> r.value == o.body.value
    ensures o.Rejected? ==> r == Failure(Classify(o.reason))
    ensures o.Responded? && IsOkStatus(o.status) && o.body.Failure? ==> r == Failure(Classify(o.body.error))
  {
    match TryFetch(o)
    case Success(v) => Success(v)
    case Failure(t) => Failure(Classify(t))
  }

  /** Neither `fetch` nor `response.json()` ever throws an `ApiError` of their
      own: only `fetchApi` constructs one. */
  predicate ForeignOutcome<T>(o: FetchOutcome<T>) {
    match o
    case Rejected(reason) => !IsApiError(reason)
    case Responded(_, _, body) => body.Failure? ==> !IsApiError(body.error)
  }

  /** A response outside 200..299 fails with its own status and text and the
      message "API request failed: " followed by the text. */
  lemma NonOkResponse<T>(status: int, statusText: string, body: Result<T, Thrown>)
    requires !IsOkStatus(status)
    ensures FetchApi(Responded(status, statusText, body))
      == Failure(ApiError(FAILED_PREFIX + statusText, Some(status), Some(statusText)))
  {
  }

  /** An ok response whose body parsed yields that body. */
  lemma OkResponse<T>(status: int, statusText: string, v: T)
    requires IsOkStatus(status)
    ensures FetchApi(Responded(status, statusText, Success(v))) == Success(v)
  {
  }

  /** A failure carries a status exactly when the server answered outside
      200..299, and then it is that status. */
  lemma StatusOnlyFromServer<T>(o: FetchOutcome<T>)
    requires ForeignOutcome(o)
    ensures FetchApi(o).Failure? && FetchApi(o).error.status.Some?
        <==> o.Responded? && !IsOkStatus(o.status)
    ensures FetchApi(o).Failure? && FetchApi(o).error.status.Some? ==>
        FetchApi(o).error.status == Some(o.status)
  {
  }

  const LIST_PREFIX: string := "/pokemon?limit="

  /** `/pokemon?limit=${limit}&offset=${offset}`, with JavaScript's defaults for
      an omitted argument. Every list endpoint starts with the list prefix. */
  function ListEndpoint(limit: Option<int>, offset: Option<int>): (e: string)
    ensures |e| > |LIST_PREFIX| && e[..|LIST_PREFIX|] == LIST_PREFIX
  {
    LIST_PREFIX + IntToString(limit.GetOr(DEFAULT_LIMIT)) + "&offset=" + IntToString(offset.GetOr(DEFAULT_OFFSET))
  }

  /** An omitted limit is 16 and an omitted offset 0. */
  lemma ListEndpointDefaults(limit: int, offset: int)
    ensures ListEndpoint(None, None) == "/pokemon?limit=16&offset=0"
    ensures ListEndpoint(Some(limit), None) == ListEndpoint(Some(limit), Some(0))
    ensures ListEndpoint(None, Some(offset)) == ListEndpoint(Some(16), Some(offset))
  {
    assert NatToString(16) == "16";
    assert NatToString(0) == "0";
  }

  /** The argument of `fetchPokemonDetail`: a string or a number. */
  datatype IdOrName = Name(name: string) | Number(n: int)

  /** `/pokemon/${idOrName}`: the segment, then a name as it is, or the
      decimal text of a number (after a minus sign when it is negative). */
  function DetailEndpoint(idOrName: IdOrName): (e: string)
    ensures |e| >= |POKEMON_SEGMENT| && e[..|POKEMON_SEGMENT|] == POKEMON_SEGMENT
    ensures idOrName.Name? ==> e[|POKEMON_SEGMENT|..] == idOrName.name
    ensures idOrName.Number? && idOrName.n >= 0 ==>
      var rest := e[|POKEMON_SEGMENT|..];
      AllDigits(rest) && DigitsValue(rest) == idOrName.n
    ensures idOrName.Number? && idOrName.n < 0 ==>
      var rest := e[|POKEMON_SEGMENT|..];
      |rest| > 1 && rest[0] == '-' && AllDigits(rest[1..]) && DigitsValue(rest[1..]) == -idOrName.n
  {
    var rest := match idOrName
      case Name(s) => s
      case Number(n) => IntToString(n);
    assert (POKEMON_SEGMENT + rest)[|POKEMON_SEGMENT|..] == rest;
    POKEMON_SEGMENT + rest
  }

  /** The text after `glue` in `a + glue + b` is `b` when `a` cannot hold the
      first character of `glue`. */
  lemma SplitAtGlue(a: string, b: string, c: string, d: string, glue: string)
    requires |glue| > 0 && glue[0] !in a && glue[0] !in c
    requires a + glue + b == c + glue + d
    ensures a == c && b == d
  {
    var x := a + glue + b;
    assert x[|a|] == glue[0] && x[|c|] == glue[0];
    assert a == x[..|a|] && c == x[..|c|];
    assert b == x[|a| + |glue|..] && d == x[|c| + |glue|..];
  }

  /** Distinct (limit, offset) pairs request distinct list endpoints. */
  lemma ListEndpointInjective(l1: int, o1: int, l2: int, o2: int)
    requires ListEndpoint(Some(l1), Some(o1)) == ListEndpoint(Some(l2), Some(o2))
    ensures l1 == l2 && o1 == o2
  {
    var u := ListQuery(l1, o1);
    var v := ListQuery(l2, o2);
    ListEndpointShape(l1, o1);
    ListEndpointShape(l2, o2);
    var p := LIST_PREFIX;
    assert u == (p + u)[|p|..] && v == (p + v)[|p|..];
    NoAmpersand(l1);
    NoAmpersand(l2);
    SplitAtGlue(IntToString(l1), IntToString(o1), IntToString(l2), IntToString(o2), "&offset=");
    IntToStringInjective(l1, l2);
    IntToStringInjective(o1, o2);
  }

  function ListQuery(limit: int, offset: int): string {
    IntToString(limit) + "&offset=" + IntToString(offset)
  }

  lemma ListEndpointShape(limit: int, offset: int)
    ensures ListEndpoint(Some(limit), Some(offset)) == LIST_PREFIX + ListQuery(limit, offset)
  {
  }

  lemma NoAmpersand(i: int)
    ensures '&' !in IntToString(i)
  {
    var s := IntToString(i);
    if i < 0 {
      assert s == "-" + NatToString(-i);
      assert forall k :: 1 <= k < |s| ==> s[k] == NatToString(-i)[k - 1];
    }
  }

  lemma IntToStringInjective(i: int, j: int)
    requires IntToString(i) == IntToString(j)
    ensures i == j
  {
    if i < 0 && j < 0 {
      assert IntToString(i)[1..] == NatToString(-i);
      assert IntToString(j)[1..] == NatToString(-j);
      NatToStringInjective(-i, -j);
    } else if i >= 0 && j >= 0 {
      NatToStringInjective(i, j);
    }
  }

  /** The id URL pattern `/\/pokemon\/(\d+)\/?$/` matched at the start of the
      suffix `t`: `/pokemon/`, one or more digits, an optional `/`, the end. */
  predicate PatternAt(t: string) {
    |t| > |POKEMON_SEGMENT| && t[..|POKEMON_SEGMENT|] == POKEMON_SEGMENT
    && var rest := t[|POKEMON_SEGMENT|..];
       var digits := if rest[|rest| - 1] == '/' then rest[..|rest| - 1] else rest;
       |digits| > 0 && AllDigits(digits)
  }

  /** The length of the longest run of digits at the end of `s`. */
  function TrailingDigitCount(s: string): (n: nat)
    ensures n <= |s|
    ensures AllDigits(s[|s| - n..])
    ensures n < |s| ==> !IsDigit(s[|s| - n - 1])
  {
    if s == [] || !IsDigit(s[|s| - 1]) then 0
    else
      var init := s[..|s| - 1];
      var m := TrailingDigitCount(init);
      assert s[|s| - (m + 1)..] == init[|init| - m..] + [s[|s| - 1]];
      m + 1
  }

  /** `url` without its one optional trailing `/`. */
  function StripSlash(url: string): (body: string)
    ensures |body| <= |url|
  {
    if |url| > 0 && url[|url| - 1] == '/' then url[..|url| - 1] else url
  }

  /** The digits the pattern captures, if it matches anywhere in `url`. */
  function MatchId(url: string): Option<string> {
    var body := StripSlash(url);
    var n := TrailingDigitCount(body);
    var before := body[..|body| - n];
    if n > 0 && |before| >= |POKEMON_SEGMENT|
       && before[|before| - |POKEMON_SEGMENT|..] == POKEMON_SEGMENT
    then Some(body[|body| - n..])
    else None
  }

  /** `getPokemonIdFromUrl`: `parseInt` of the captured digits, or 0. So a
      URL with no suffix the pattern accepts (a missing `/pokemon/`, a
      non-digit segment, characters after the optional slash) gives 0. */
  function IdFromUrl(url: string): (id: nat)
    ensures (forall k :: 0 <= k <= |url| ==> !PatternAt(url[k..])) ==> id == 0
  {
    match MatchId(url)
    case Some(digits) => MatchIsPattern(url); DigitsValue(digits)
    case None => 0
  }

  /** A trailing digit run after a non-digit is exactly the digits. */
  lemma TrailingDigitsAfter(x: string, d: string)
    requires AllDigits(d) && |x| > 0 && !IsDigit(x[|x| - 1])
    ensures TrailingDigitCount(x + d) == |d|
    decreases |d|
  {
    var s := x + d;
    if d != [] {
      assert s[..|s| - 1] == x + d[..|d| - 1];
      TrailingDigitsAfter(x, d[..|d| - 1]);
    } else {
      assert s == x;
    }
  }

  /** On `.../pokemon/<digits>` and `.../pokemon/<digits>/` the id is the
      decimal value of the digits, whatever precedes them. */
  lemma IdFromWellFormedUrl(prefix: string, d: string, slash: bool)
    requires AllDigits(d) && |d| > 0
    ensures IdFromUrl(prefix + POKEMON_SEGMENT + d + (if slash then "/" else "")) == DigitsValue(d)
  {
    var x := prefix + POKEMON_SEGMENT;
    var url := x + d + (if slash then "/" else "");
    assert prefix + POKEMON_SEGMENT + d + (if slash then "/" else "") == url;
    StripOptionalSlash(x + d, slash);
    assert x[|x| - |POKEMON_SEGMENT|..] == POKEMON_SEGMENT;
    MatchOnBody(x, d);
  }

  /** Stripping undoes the optional slash on a text ending in a digit. */
  lemma StripOptionalSlash(s: string, slash: bool)
    requires |s| > 0 && IsDigit(s[|s| - 1])
    ensures StripSlash(s + (if slash then "/" else "")) == s
  {
    var url := s + (if slash then "/" else "");
    if slash {
      assert url[..|url| - 1] == s;
    } else {
      assert url == s;
    }
  }

  /** The stripped body `x + d`, with `x` ending in `/pokemon/`, captures `d`. */
  lemma MatchOnBody(x: string, d: string)
    requires AllDigits(d) && |d| > 0
    requires |x| >= |POKEMON_SEGMENT| && x[|x| - |POKEMON_SEGMENT|..] == POKEMON_SEGMENT
    ensures var body := x + d;
      TrailingDigitCount(body) == |d| && body[..|body| - |d|] == x && body[|body| - |d|..] == d
  {
    TrailingDigitsAfter(x, d);
    var body := x + d;
    assert body[..|body| - |d|] == x;
    assert body[|body| - |d|..] == d;
  }

  /** When the pattern matches, it matches at some suffix of `url`. */
  lemma MatchIsPattern(url: string)
    requires MatchId(url).Some?
    ensures exists k :: 0 <= k <= |url| && PatternAt(url[k..])
  {
    var head, digits, slash := MatchParts(url);
    PatternAfterHead(url, head, digits, slash);
  }

  /** A match splits `url` into a head, `/pokemon/`, the captured digits and
      an optional `/`. */
  lemma MatchParts(url: string) returns (head: string, digits: string, slash: bool)
    requires MatchId(url).Some?
    ensures |digits| > 0 && AllDigits(digits)
    ensures url == head + POKEMON_SEGMENT + digits + (if slash then "/" else "")
  {
    slash := |url| > 0 && url[|url| - 1] == '/';
    var body := StripSlash(url);
    var n := TrailingDigitCount(body);
    var before := body[..|body| - n];
    digits := body[|body| - n..];
    head := before[..|before| - |POKEMON_SEGMENT|];
    StripSlashParts(url);
    Reassemble(body, n);
  }

  /** `body` cut before its last `n` characters, where the cut-off front ends
      in `/pokemon/`. */
  lemma Reassemble(body: string, n: nat)
    requires n <= |body| && |body| - n >= |POKEMON_SEGMENT|
    requires body[..|body| - n][|body| - n - |POKEMON_SEGMENT|..] == POKEMON_SEGMENT
    ensures body == body[..|body| - n][..|body| - n - |POKEMON_SEGMENT|] + POKEMON_SEGMENT + body[|body| - n..]
  {
    var before := body[..|body| - n];
    assert before == before[..|before| - |POKEMON_SEGMENT|] + POKEMON_SEGMENT;
    assert body == before + body[|body| - n..];
  }

  /** A text that is some head, then `/pokemon/`, a digit run and an optional
      `/`, matches the pattern right after the head. */
  lemma PatternAfterHead(url: string, head: string, digits: string, slash: bool)
    requires |digits| > 0 && AllDigits(digits)
    requires url == head + POKEMON_SEGMENT + digits + (if slash then "/" else "")
    ensures |head| <= |url| && PatternAt(url[|head|..])
  {
    DropHead(head, POKEMON_SEGMENT, digits, if slash then "/" else "");
    PatternOfParts(digits, slash);
  }

  /** `url` is its stripped body followed by the slash that was stripped. */
  lemma StripSlashParts(url: string)
    ensures url == StripSlash(url) + (if |url| > 0 && url[|url| - 1] == '/' then "/" else "")
  {
    if |url| > 0 && url[|url| - 1] == '/' {
      assert url == url[..|url| - 1] + [url[|url| - 1]];
    }
  }

  lemma DropHead(head: string, a: string, b: string, c: string)
    ensures (head + a + b + c)[|head|..] == a + b + c
  {
    assert head + a + b + c == head + (a + b + c);
  }

  /** `/pokemon/`, a digit run and an optional `/` is what the pattern accepts. */
  lemma PatternOfParts(digits: string, slash: bool)
    requires |digits| > 0 && AllDigits(digits)
    ensures PatternAt(POKEMON_SEGMENT + digits + (if slash then "/" else ""))
  {
    var sl := if slash then "/" else "";
    var t := POKEMON_SEGMENT + digits + sl;
    assert t[..|POKEMON_SEGMENT|] == POKEMON_SEGMENT;
    var rest := t[|POKEMON_SEGMENT|..];
    assert rest == digits + sl;
    if slash {
      assert rest[..|rest| - 1] == digits;
    }
  }

  /** `getPokemonSpriteUrl`: the artwork URL template with the decimal id.
      Between the fixed prefix and `.png` there are only digits, and they read
      back as the id. */
  function SpriteUrl(id: nat): (u: string)
    ensures |u| > |SPRITE_PREFIX| + |SPRITE_SUFFIX|
    ensures u[..|SPRITE_PREFIX|] == SPRITE_PREFIX && u[|u| - |SPRITE_SUFFIX|..] == SPRITE_SUFFIX
    ensures var middle := u[|SPRITE_PREFIX|..|u| - |SPRITE_SUFFIX|];
      AllDigits(middle) && DigitsValue(middle) == id
  {
    var u := SPRITE_PREFIX + NatToString(id) + SPRITE_SUFFIX;
    assert u[|SPRITE_PREFIX|..|u| - |SPRITE_SUFFIX|] == NatToString(id);
    assert u[|u| - |SPRITE_SUFFIX|..] == SPRITE_SUFFIX;
    u
  }

  /** The template loses nothing: distinct ids give distinct sprite URLs. */
  lemma SpriteUrlInjective(a: nat, b: nat)
    requires SpriteUrl(a) == SpriteUrl(b)
    ensures a == b
  {
    var u := SpriteUrl(a);
    assert DigitsValue(u[|SPRITE_PREFIX|..|u| - |SPRITE_SUFFIX|]) == a;
  }

  /** The detail endpoint of a numeric id has the shape the id pattern reads,
      so the id comes back out of `base + /pokemon/<id>`. */
  lemma DetailEndpointRoundTrip(base: string, id: nat)
    ensures IdFromUrl(base + DetailEndpoint(Number(id))) == id
  {
    assert base + DetailEndpoint(Number(id)) == base + POKEMON_SEGMENT + NatToString(id) + "";
    IdFromWellFormedUrl(base, NatToString(id), false);
  }
}
