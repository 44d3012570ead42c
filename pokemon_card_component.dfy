/** `src/components/PokemonCard.tsx`: one list card, showing the formatted id
    and name and linking to the detail route, with the image's load state. */
module PokemonCardComponent {
  import opened Decimal
  import opened Text
  import opened PokemonApi
  import opened PokemonListQuery

  /** `` `#${String(id).padStart(width, '0')}` ``: a `#` and then digits that
      read back as the id, at least `width` of them; an id of `width` digits
      or more is written as it is. */
  function FormatId(id: nat, width: nat): (r: string)
    ensures |r| == 1 + Max(width, |NatToString(id)|) && r[0] == '#'
    ensures AllDigits(r[1..]) && DigitsValue(r[1..]) == id
    ensures |NatToString(id)| >= width ==> r == "#" + NatToString(id)
  {
    var digits := PadStart(NatToString(id), width, '0');
    PadDigitsKeepsValue(NatToString(id), width);
    assert ("#" + digits)[1..] == digits;
    "#" + digits
  }

  /** Two ids never share a formatted id, whatever the pad widths. */
  lemma FormatIdInjective(a: nat, b: nat, w1: nat, w2: nat)
    requires FormatId(a, w1) == FormatId(b, w2)
    ensures a == b
  {
    assert FormatId(a, w1)[1..] == FormatId(b, w2)[1..];
  }

  /** The card's id text pads to three digits: `#025` for 25. */
  function CardId(card: PokemonCard): (t: string)
    ensures |t| >= 4 && t[0] == '#' && AllDigits(t[1..]) && DigitsValue(t[1..]) == card.id
    ensures card.id >= 100 ==> t == "#" + NatToString(card.id)
  {
    var n := card.id;
    assert n >= 100 ==> |NatToString(n)| >= 3 by {
      if n >= 100 {
        assert NatToString(n) == NatToString(n / 10) + [DigitChar(n % 10)];
        assert NatToString(n / 10) == NatToString(n / 100) + [DigitChar(n / 10 % 10)];
      }
    }
    FormatId(card.id, 3)
  }

  /** The card's name text: the first character upper-cased. */
  function CardName(card: PokemonCard): (t: string)
    ensures |t| == |card.name|
    ensures card.name != [] ==> t[0] == UpperChar(card.name[0]) && t[1..] == card.name[1..]
  {
    Capitalize(card.name)
  }

  /** The link target, `/pokemon/${id}`: the detail route, from which the id
      pattern reads the card's id back. */
  function CardLink(card: PokemonCard): (link: string)
    ensures |link| > |POKEMON_SEGMENT| && link[..|POKEMON_SEGMENT|] == POKEMON_SEGMENT
    ensures IdFromUrl(link) == card.id
  {
    var link := POKEMON_SEGMENT + NatToString(card.id);
    assert "" + POKEMON_SEGMENT + NatToString(card.id) + "" == link;
    IdFromWellFormedUrl("", NatToString(card.id), false);
    link
  }

  /** The card's link leads to the detail route of the card's id: the route
      parameter is the id's decimal text, and the detail query fetches the
      same endpoint as for the number. */
  lemma CardLinkOpensDetail(card: PokemonCard)
    ensures var param := CardLink(card)[|POKEMON_SEGMENT|..];
      && param == NatToString(card.id)
      && DetailEndpoint(Name(param)) == DetailEndpoint(Number(card.id))
  {
    var link := CardLink(card);
    assert link == POKEMON_SEGMENT + NatToString(card.id);
    assert link[|POKEMON_SEGMENT|..] == NatToString(card.id);
  }

  /** Examples of the card's texts. */
  lemma CardTextExamples()
    ensures CardName(PokemonCard(25, "pikachu", "")) == "Pikachu"
    ensures CardName(PokemonCard(0, "", "")) == ""
    ensures CardId(PokemonCard(25, "pikachu", "")) == "#025"
    ensures CardId(PokemonCard(1025, "pecharunt", "")) == "#1025"
  {
    assert NatToString(25) == "25";
    assert NatToString(1025) == "1025";
  }

  /** What the image box shows: the pulsing placeholder over a transparent
      image, the question-mark fallback instead of the image, or the image. */
  datatype ImageView = ImageView(placeholder: bool, fallback: bool, imageOpaque: bool)

  /** The image box for a load state. The box is in exactly one of three
      states: waiting (placeholder over the hidden image), failed (fallback, no
      image) or shown (the opaque image); an error wins over a load. */
  function ImageBox(loaded: bool, errored: bool): (v: ImageView)
    ensures v.placeholder <==> !loaded && !errored
    ensures v.fallback <==> errored
    ensures v.imageOpaque <==> loaded && !errored
    ensures v.placeholder ==> !v.fallback && !v.imageOpaque
    ensures v.fallback ==> !v.placeholder && !v.imageOpaque
    ensures v.placeholder || v.fallback || v.imageOpaque
  {
    ImageView(!loaded && !errored, errored, !errored && loaded)
  }

  /** The `imageLoaded` / `imageError` state pair of a card (and of the detail
      page). Both flags only ever go from false to true. */
  class ImageState {
    var loaded: bool
    var errored: bool

    constructor ()
      ensures !loaded && !errored
      ensures View() == ImageView(true, false, false)
    {
      loaded, errored := false, false;
    }

    function View(): ImageView
      reads this
    {
      ImageBox(loaded, errored)
    }

    /** `onLoad`. */
    method OnLoad()
      modifies this
      ensures loaded && errored == old(errored)
      ensures !View().placeholder
      ensures !errored ==> View().imageOpaque
    {
      loaded := true;
    }

    /** `onError`: the fallback replaces the image for good. */
    method OnError()
      modifies this
      ensures errored && loaded == old(loaded)
      ensures View().fallback && !View().imageOpaque && !View().placeholder
    {
      errored := true;
    }
  }

  /** A client scenario, not a loop of the component: once the image has
      failed, no later load event brings it back. */
  method ErrorIsFinal(img: ImageState, laterLoads: nat)
    modifies img
    ensures img.errored && img.View().fallback && !img.View().imageOpaque
  {
    img.OnError();
    var i := 0;
    while i < laterLoads
      invariant img.errored
    {
      img.OnLoad();
      i := i + 1;
    }
  }
}
