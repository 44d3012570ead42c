/** `src/pages/DetailPage.tsx`: the detail route. What it renders is decided
    from the query state; the record's fields are formatted for display. */
module DetailPage {
  import opened Wrappers
  import opened Decimal
  import opened Text
  import opened PokemonApi
  import opened PokemonDetailQuery
  import opened PokemonCardComponent
  import PokemonListQuery

  /** The fields of a detail record the page formats. Height is in
      decimetres and weight in hectograms, as the API reports them. */
  datatype Detail = Detail(
    id: nat, name: string, height: nat, weight: nat,
    sprite: Option<string>, statNames: seq<string>, abilityNames: seq<string>)

  const NOT_FOUND_TITLE: string := "Pokémon Not Found"
  const FAILURE_TITLE: string := "Oops! Something went wrong"
  const DETAIL_ERROR_FALLBACK: string := "Failed to load Pokémon details"

  /** The header's id: `#` and four digits at least, reading back as the
      record's id; empty without a record. */
  function FormattedId(pokemon: Option<Detail>): (t: string)
    ensures pokemon.None? ==> t == ""
    ensures pokemon.Some? ==>
      |t| >= 5 && t[0] == '#' && AllDigits(t[1..]) && DigitsValue(t[1..]) == pokemon.value.id
  {
    if pokemon.Some? then FormatId(pokemon.value.id, 4) else ""
  }

  lemma FormattedIdExample(d: Detail)
    requires d.id == 25
    ensures FormattedId(Some(d)) == "#0025"
  {
    assert NatToString(25) == "25";
  }

  /** The header's name: the first character upper-cased; empty without a record. */
  function FormattedName(pokemon: Option<Detail>): (t: string)
    ensures pokemon.None? ==> t == ""
    ensures pokemon.Some? ==> |t| == |pokemon.value.name|
    ensures pokemon.Some? && pokemon.value.name != [] ==>
      t[0] == UpperChar(pokemon.value.name[0]) && t[1..] == pokemon.value.name[1..]
  {
    if pokemon.Some? then Capitalize(pokemon.value.name) else ""
  }

  /** `(n / 10).toFixed(1)` for a whole number `n` of tenths: the whole part,
      a dot and the tenths digit. The text reads back as the measured value:
      the digits before the dot are the whole part, the one after it the
      tenths. */
  function Tenths(n: nat): (t: string)
    ensures |t| >= 3 && t[|t| - 2] == '.'
    ensures AllDigits(t[..|t| - 2]) && IsDigit(t[|t| - 1])
    ensures DigitsValue(t[..|t| - 2]) * 10 + DigitValue(t[|t| - 1]) == n
  {
    var w := NatToString(n / 10);
    var t := w + "." + [DigitChar(n % 10)];
    assert t[..|t| - 2] == w;
    assert t[|t| - 1] == DigitChar(n % 10);
    t
  }

  /** The height or weight text: `Tenths` of the field, or `"0"` without a record. */
  function Measure(pokemon: Option<Detail>, field: Detail -> nat): (t: string)
    ensures pokemon.None? ==> t == "0"
    ensures pokemon.Some? ==>
      && |t| >= 3 && t[|t| - 2] == '.' && AllDigits(t[..|t| - 2]) && IsDigit(t[|t| - 1])
      && DigitsValue(t[..|t| - 2]) * 10 + DigitValue(t[|t| - 1]) == field(pokemon.value)
  {
    if pokemon.Some? then Tenths(field(pokemon.value)) else "0"
  }

  /** Different measures never share a text. */
  lemma TenthsInjective(a: nat, b: nat)
    requires Tenths(a) == Tenths(b)
    ensures a == b
  {
  }

  lemma TenthsExamples()
    ensures Tenths(7) == "0.7"
    ensures Tenths(69) == "6.9"
  {
    assert NatToString(0) == "0";
    assert NatToString(6) == "6";
  }

  /** `word.charAt(0).toUpperCase() + word.slice(1)` for every word. */
  function CapitalizeAll(words: seq<string>): (r: seq<string>)
    ensures |r| == |words|
    ensures forall i :: 0 <= i < |words| ==> r[i] == Capitalize(words[i])
  {
    if words == [] then [] else [Capitalize(words[0])] + CapitalizeAll(words[1..])
  }

  /** A stat's label: split at `-`, each word capitalized, joined by spaces.
      The label has the name's length; a hyphen becomes a space, a character
      that starts a word is upper-cased, and every other is kept. */
  function StatLabel(name: string): (text: string)
    ensures |text| == |name|
    ensures forall i :: 0 <= i < |name| ==>
      text[i] == (if name[i] == '-' then ' '
                  else if i == 0 || name[i - 1] == '-' then UpperChar(name[i])
                  else name[i])
  {
    var text := Join(CapitalizeAll(Split(name, '-')), " ");
    JoinedIsRelabel(name, true);
    assert CapitalizeFrom(Split(name, '-'), true) == CapitalizeAll(Split(name, '-'));
    assert text == Relabel(name, true);
    RelabelFromStart(name);
    text
  }

  /** A character-by-character reference for the label: a hyphen turns into
      a space, and a character that starts a word (first, or after a hyphen)
      is upper-cased. */
  function Relabel(s: string, atStart: bool): (r: string)
    ensures |r| == |s|
  {
    if s == [] then []
    else
      var c := if s[0] == '-' then ' ' else if atStart then UpperChar(s[0]) else s[0];
      [c] + Relabel(s[1..], s[0] == '-')
  }

  /** The words of `s` with the first one capitalized only when `capFirst`. */
  function CapitalizeFrom(words: seq<string>, capFirst: bool): seq<string>
    requires |words| > 0
  {
    [if capFirst then Capitalize(words[0]) else words[0]] + CapitalizeAll(words[1..])
  }

  /** Splitting, capitalizing and joining agree with the reference. */
  lemma {:induction false} JoinedIsRelabel(s: string, atStart: bool)
    ensures Join(CapitalizeFrom(Split(s, '-'), atStart), " ") == Relabel(s, atStart)
  {
    if s == [] {
    } else if s[0] == '-' {
      var rest := Split(s[1..], '-');
      JoinedIsRelabel(s[1..], true);
      assert Split(s, '-') == [""] + rest;
      assert CapitalizeFrom(Split(s, '-'), atStart) == [""] + CapitalizeAll(rest);
      assert CapitalizeAll(rest) == CapitalizeFrom(rest, true);
      assert ([""] + CapitalizeAll(rest))[1..] == CapitalizeAll(rest);
    } else {
      var rest := Split(s[1..], '-');
      JoinedIsRelabel(s[1..], false);
      var c := if atStart then UpperChar(s[0]) else s[0];
      assert Split(s, '-') == [[s[0]] + rest[0]] + rest[1..];
      assert CapitalizeFrom(Split(s, '-'), atStart) == [[c] + rest[0]] + CapitalizeAll(rest[1..]);
      JoinConsChar(c, rest[0], CapitalizeAll(rest[1..]), " ");
      assert [rest[0]] + CapitalizeAll(rest[1..]) == CapitalizeFrom(rest, false);
    }
  }

  /** Each character of the reference. */
  lemma {:induction false} RelabelAt(s: string, atStart: bool, i: nat)
    requires i < |s|
    ensures Relabel(s, atStart)[i] ==
      if s[i] == '-' then ' '
      else if (if i == 0 then atStart else s[i - 1] == '-') then UpperChar(s[i])
      else s[i]
  {
    if i > 0 {
      RelabelAt(s[1..], s[0] == '-', i - 1);
    }
  }

  /** Every character of the reference for a name, which starts a word. */
  lemma RelabelFromStart(s: string)
    ensures forall i :: 0 <= i < |s| ==>
      Relabel(s, true)[i] == (if s[i] == '-' then ' '
                              else if i == 0 || s[i - 1] == '-' then UpperChar(s[i])
                              else s[i])
  {
    forall i | 0 <= i < |s| {
      RelabelAt(s, true, i);
    }
  }

  /** An ability's label: only the first hyphen, if any, becomes a space;
      every other character, later hyphens included, is kept. */
  function AbilityLabel(name: string): (text: string)
    ensures |text| == |name|
    ensures forall i :: 0 <= i < |name| ==>
      text[i] == if name[i] == '-' && '-' !in name[..i] then ' ' else name[i]
  {
    ReplaceFirstAll(name, '-', ' ');
    ReplaceFirst(name, '-', ' ')
  }

  /** `is404Error`: the query error is an `ApiError` with status 404. */
  function Is404(error: Option<Thrown>): (notFound: bool)
    ensures notFound <==> error.Some? && error.value.ApiErrorValue? && error.value.err.status == Some(404)
    ensures notFound ==> PokemonListQuery.IsClientError(error.value) && forall k :: !DetailRetry(k, error.value)
  {
    error.Some? && IsNotFound(error.value)
  }

  /** The text of the not-found panel for route id `id`. */
  function NotFoundMessage(id: string): string {
    "Pokémon with ID \"" + id + "\" does not exist. Please check the ID and try again."
  }

  /** What the page renders. */
  datatype DetailView =
    | Spinner
    | ErrorPanel(title: string, message: string, showRetry: bool)
    | Details(name: string, formattedId: string, height: string, weight: string,
              stats: seq<string>, abilities: seq<string>, image: ImageView)

  /** The page: a spinner while loading; the error panel when there is an
      error or no record; the record's details otherwise. A retry is offered
      on every error panel except the not-found one. */
  function Screen(id: string, isLoading: bool, error: Option<Thrown>, pokemon: Option<Detail>,
                  imageLoaded: bool, imageError: bool): (v: DetailView)
    ensures v.Spinner? <==> isLoading
    ensures v.Details? <==> !isLoading && error.None? && pokemon.Some?
    ensures v.ErrorPanel? ==> (v.showRetry <==> !Is404(error))
  {
    if isLoading then Spinner
    else if error.Some? || pokemon.None? then
      var notFound := Is404(error);
      ErrorPanel(
        if notFound then NOT_FOUND_TITLE else FAILURE_TITLE,
        if notFound then NotFoundMessage(id)
        else if error.Some? then MessageOr(error.value, DETAIL_ERROR_FALLBACK)
        else DETAIL_ERROR_FALLBACK,
        !notFound)
    else
      var d := pokemon.value;
      Details(FormattedName(pokemon), FormattedId(pokemon),
              Measure(pokemon, (p: Detail) => p.height), Measure(pokemon, (p: Detail) => p.weight),
              seq(|d.statNames|, k requires 0 <= k < |d.statNames| => StatLabel(d.statNames[k])),
              seq(|d.abilityNames|, k requires 0 <= k < |d.abilityNames| => AbilityLabel(d.abilityNames[k])),
              ImageBox(imageLoaded, imageError))
  }

  /** The error panel: a 404 names the route id and offers no retry; any other
      failure shows the error's message (or the fallback when the thrown value
      is no `Error`, or when there is no record and no error) and offers a retry. */
  lemma ErrorPanelRules(id: string, error: Option<Thrown>, pokemon: Option<Detail>,
                        imageLoaded: bool, imageError: bool)
    requires error.Some? || pokemon.None?
    ensures var v := Screen(id, false, error, pokemon, imageLoaded, imageError);
      && v.ErrorPanel?
      && (v.showRetry <==> !Is404(error))
      && (Is404(error) ==> v.title == NOT_FOUND_TITLE && v.message == NotFoundMessage(id))
      && (!Is404(error) ==> v.title == FAILURE_TITLE)
      && (error.Some? && error.value.ApiErrorValue? && !Is404(error) ==> v.message == error.value.err.message)
      && (error.Some? && (error.value.TypeErrorValue? || error.value.ErrorValue?) ==> v.message == error.value.message)
      && (error.None? || error.value.NonErrorValue? ==> v.message == DETAIL_ERROR_FALLBACK)
  {
  }

  /** The details carry the record's formatted name, id and measures, and
      one label per stat and per ability, in order. */
  lemma DetailsRules(id: string, isLoading: bool, error: Option<Thrown>, pokemon: Option<Detail>,
                     imageLoaded: bool, imageError: bool)
    ensures var v := Screen(id, isLoading, error, pokemon, imageLoaded, imageError);
      v.Details? ==>
            && v.name == Capitalize(pokemon.value.name)
            && v.formattedId == FormatId(pokemon.value.id, 4)
            && v.height == Tenths(pokemon.value.height)
            && v.weight == Tenths(pokemon.value.weight)
            && |v.stats| == |pokemon.value.statNames|
            && (forall k :: 0 <= k < |v.stats| ==> v.stats[k] == StatLabel(pokemon.value.statNames[k]))
            && |v.abilities| == |pokemon.value.abilityNames|
            && (forall k :: 0 <= k < |v.abilities| ==> v.abilities[k] == AbilityLabel(pokemon.value.abilityNames[k]))
  {
  }

  /** A 404 is never retried by the detail query and never offered a retry
      button by the page. */
  lemma NotFoundIsFinal(id: string, e: Thrown, failureCount: int, pokemon: Option<Detail>,
                        imageLoaded: bool, imageError: bool)
    requires IsNotFound(e)
    ensures !DetailRetry(failureCount, e)
    ensures !Screen(id, false, Some(e), pokemon, imageLoaded, imageError).showRetry
  {
  }

  /** The sprite preload effect, once the record is there: a missing or empty
      sprite URL marks the image as failed straight away; otherwise the load
      or error event arrives later through the image state's handlers. */
  method PreloadSprite(img: ImageState, pokemon: Option<Detail>)
    modifies img
    ensures img.loaded == old(img.loaded)
    ensures pokemon.Some? && (pokemon.value.sprite.None? || pokemon.value.sprite.value == "") ==>
      img.errored && img.View().fallback
    ensures !(pokemon.Some? && (pokemon.value.sprite.None? || pokemon.value.sprite.value == "")) ==>
      img.errored == old(img.errored)
  {
    if pokemon.Some? {
      var sprite := pokemon.value.sprite;
      if sprite.None? || sprite.value == "" {
        img.OnError();
      }
    }
  }
}
