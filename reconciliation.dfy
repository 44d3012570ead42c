/** List reconciliation shared by `src/pages/PokemonsView.tsx` (infinite mode)
    and `src/pages/LoadMoreView.tsx`: each arriving page is filtered against the
    ids already loaded and only unseen records are appended. */
module Reconciliation {
  import opened PokemonListQuery

  /** The ids of a list of cards. */
  function Ids(items: seq<PokemonCard>): set<nat> {
    set c | c in items :: c.id
  }

  lemma IdsAppend(a: seq<PokemonCard>, b: seq<PokemonCard>)
    ensures Ids(a + b) == Ids(a) + Ids(b)
  {
    assert forall c :: c in a + b <==> c in a || c in b;
  }

  /** `page.filter(p => !loadedIds.has(p.id))`. */
  function Unseen(page: seq<PokemonCard>, loaded: set<nat>): (r: seq<PokemonCard>)
    ensures |r| <= |page|
    ensures forall c :: c in r ==> c in page && c.id !in loaded
  {
    if page == [] then []
    else (if page[0].id in loaded then [] else [page[0]]) + Unseen(page[1..], loaded)
  }

  /** No two cards share an id. */
  predicate NoDuplicateIds(items: seq<PokemonCard>) {
    forall i, j :: 0 <= i < j < |items| ==> items[i].id != items[j].id
  }

  /** The filter distributes over concatenation: it keeps page order. */
  lemma {:induction false} UnseenAppend(a: seq<PokemonCard>, b: seq<PokemonCard>, loaded: set<nat>)
    ensures Unseen(a + b, loaded) == Unseen(a, loaded) + Unseen(b, loaded)
  {
    if a == [] {
      assert a + b == b;
    } else {
      assert (a + b)[1..] == a[1..] + b;
      UnseenAppend(a[1..], b, loaded);
    }
  }

  /** The filter keeps every occurrence of a record whose id is not loaded, and
      no occurrence of one whose id is. */
  lemma {:induction false} UnseenCounts(page: seq<PokemonCard>, loaded: set<nat>, c: PokemonCard)
    ensures multiset(Unseen(page, loaded))[c] == if c.id in loaded then 0 else multiset(page)[c]
  {
    if page != [] {
      UnseenCounts(page[1..], loaded, c);
      assert page == [page[0]] + page[1..];
    }
  }

  /** Ids of one page are only checked against earlier pages: a page none of
      whose ids is loaded is appended whole, duplicates within it included. */
  lemma {:induction false} AllUnseenKept(page: seq<PokemonCard>, loaded: set<nat>)
    requires forall c :: c in page ==> c.id !in loaded
    ensures Unseen(page, loaded) == page
  {
    if page != [] {
      assert page[0] in page;
      assert forall c :: c in page[1..] ==> c in page;
      AllUnseenKept(page[1..], loaded);
    }
  }

  /** Two records of one page that share an id (two unresolvable 0s) both get
      through when the id is new. */
  lemma DuplicatesWithinPageKept(a: PokemonCard, b: PokemonCard, loaded: set<nat>)
    requires a.id == b.id && a.id !in loaded
    ensures Unseen([a, b], loaded) == [a, b]
  {
    AllUnseenKept([a, b], loaded);
  }

  /** A page all of whose ids are loaded contributes nothing. */
  lemma {:induction false} AllSeenDropped(page: seq<PokemonCard>, loaded: set<nat>)
    requires forall c :: c in page ==> c.id in loaded
    ensures Unseen(page, loaded) == []
  {
    if page != [] {
      assert page[0] in page;
      assert forall c :: c in page[1..] ==> c in page;
      AllSeenDropped(page[1..], loaded);
    }
  }

  /** Once the unseen records' ids are added, filtering the same page again
      finds nothing: the merge effect settles after one round. */
  lemma MergeSettles(page: seq<PokemonCard>, loaded: set<nat>)
    ensures Unseen(page, loaded + Ids(Unseen(page, loaded))) == []
  {
    var added := Unseen(page, loaded);
    forall c | c in page ensures c.id in loaded + Ids(added) {
      if c.id !in loaded {
        UnseenCounts(page, loaded, c);
        assert multiset(added)[c] > 0;
        assert c in added;
      }
    }
    AllSeenDropped(page, loaded + Ids(added));
  }

  /** A filtered page with distinct ids still has distinct ids. */
  lemma {:induction false} UnseenDistinct(page: seq<PokemonCard>, loaded: set<nat>)
    requires NoDuplicateIds(page)
    ensures NoDuplicateIds(Unseen(page, loaded))
  {
    if page != [] {
      var rest := Unseen(page[1..], loaded);
      UnseenDistinct(page[1..], loaded);
      if page[0].id !in loaded {
        forall c | c in rest ensures c.id != page[0].id {
          var k :| 0 <= k < |page[1..]| && page[1..][k] == c;
          assert page[k + 1] == c;
        }
        ConsDistinct(page[0], rest);
      }
    }
  }

  /** A card whose id none of a duplicate-free list has can go in front of it. */
  lemma ConsDistinct(x: PokemonCard, rest: seq<PokemonCard>)
    requires NoDuplicateIds(rest)
    requires forall c :: c in rest ==> c.id != x.id
    ensures NoDuplicateIds([x] + rest)
  {
    var r := [x] + rest;
    forall i, j | 0 <= i < j < |r| ensures r[i].id != r[j].id {
      assert r[j] == rest[j - 1];
      if i > 0 {
        assert r[i] == rest[i - 1];
      }
    }
  }

  /** Appending the unseen records of a page with distinct ids keeps the list
      free of duplicate ids and its id set equal to the loaded ids plus the new ones. */
  lemma MergeKeepsInvariant(items: seq<PokemonCard>, loaded: set<nat>, page: seq<PokemonCard>)
    requires Ids(items) == loaded && NoDuplicateIds(items) && NoDuplicateIds(page)
    ensures NoDuplicateIds(items + Unseen(page, loaded))
    ensures Ids(items + Unseen(page, loaded)) == loaded + Ids(Unseen(page, loaded))
  {
    var added := Unseen(page, loaded);
    IdsAppend(items, added);
    UnseenDistinct(page, loaded);
    var r := items + added;
    forall i, j | 0 <= i < j < |r| ensures r[i].id != r[j].id {
      if j >= |items| && i < |items| {
        assert r[i] in items && r[i].id in loaded;
        assert r[j] == added[j - |items|] && r[j] in added;
      } else if i >= |items| {
        assert r[i] == added[i - |items|] && r[j] == added[j - |items|];
      }
    }
  }

  /** A list without duplicate ids has exactly as many cards as distinct ids. */
  lemma {:induction false} DistinctCount(items: seq<PokemonCard>)
    requires NoDuplicateIds(items)
    ensures |Ids(items)| == |items|
  {
    if items != [] {
      var last := items[|items| - 1];
      var init := items[..|items| - 1];
      DistinctCount(init);
      assert items == init + [last];
      IdsAppend(init, [last]);
      assert Ids([last]) == {last.id};
      assert last.id !in Ids(init);
    }
  }

  /** The list that accumulation builds from empty over a series of pages. */
  function Accumulate(pages: seq<seq<PokemonCard>>): seq<PokemonCard> {
    if pages == [] then []
    else
      var items := Accumulate(pages[..|pages| - 1]);
      items + Unseen(pages[|pages| - 1], Ids(items))
  }

  /** Every id ever seen across the pages. */
  function AllIds(pages: seq<seq<PokemonCard>>): set<nat> {
    if pages == [] then {} else AllIds(pages[..|pages| - 1]) + Ids(pages[|pages| - 1])
  }

  /** Whatever the overlap between pages (each free of duplicates in itself),
      the accumulated list has no duplicate id and exactly one card per id seen. */
  lemma {:induction false} AccumulateCountsEveryIdOnce(pages: seq<seq<PokemonCard>>)
    requires forall k :: 0 <= k < |pages| ==> NoDuplicateIds(pages[k])
    ensures Ids(Accumulate(pages)) == AllIds(pages)
    ensures NoDuplicateIds(Accumulate(pages))
    ensures |Accumulate(pages)| == |AllIds(pages)|
  {
    if pages != [] {
      var init := pages[..|pages| - 1];
      var page := pages[|pages| - 1];
      AccumulateCountsEveryIdOnce(init);
      var items := Accumulate(init);
      MergeKeepsInvariant(items, Ids(items), page);
      var added := Unseen(page, Ids(items));
      assert Ids(items) + Ids(added) == Ids(items) + Ids(page) by {
        forall c | c in page && c.id !in Ids(items) ensures c.id in Ids(added) {
          UnseenCounts(page, Ids(items), c);
          assert multiset(added)[c] > 0;
          assert c in added;
        }
      }
    }
    DistinctCount(Accumulate(pages));
  }
}
