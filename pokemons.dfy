/** The catalog's entities and the list merge applied when a page of the
    list arrives: entities whose id is already listed are dropped, the rest
    are appended in the order they arrived. */
module Pokemons {
  import opened Wrappers

  /** One catalog entity; its identity is `id`. */
  datatype Pokemon = Pokemon(id: int, name: string, url: string, types: seq<string>)

  /** The detail record: the shown entity and its neighbours, each possibly null. */
  datatype PokemonDetail = PokemonDetail(
    pokemon: Option<Pokemon>,
    nextPokemon: Option<Pokemon>,
    previousPokemon: Option<Pokemon>)

  const EmptyDetail := PokemonDetail(None, None, None)

  /** The set of ids present in a list. */
  function Ids(ps: seq<Pokemon>): set<int> {
    set p | p in ps :: p.id
  }

  /** No two entities of the list share an id. */
  predicate DistinctIds(ps: seq<Pokemon>) {
    forall i, j :: 0 <= i < j < |ps| ==> ps[i].id != ps[j].id
  }

  lemma ButLast<T>(s: seq<T>)
    requires |s| > 0
    ensures s[..|s| - 1] + [s[|s| - 1]] == s
  {
  }

  lemma ConcatButLast<T>(a: seq<T>, b: seq<T>)
    requires |b| > 0
    ensures a + b == (a + b[..|b| - 1]) + [b[|b| - 1]]
  {
  }

  lemma ConcatEmpty<T>(a: seq<T>)
    ensures a + [] == a
  {
  }

  lemma IdsAppend(a: seq<Pokemon>, b: seq<Pokemon>)
    ensures Ids(a + b) == Ids(a) + Ids(b)
  {
    forall x | x in Ids(a + b) ensures x in Ids(a) + Ids(b) {
      var p :| p in a + b && p.id == x;
      assert p in a || p in b;
    }
    forall x | x in Ids(a) + Ids(b) ensures x in Ids(a + b) {
      if x in Ids(a) {
        var p :| p in a && p.id == x;
        assert p in a + b;
      } else {
        var p :| p in b && p.id == x;
        assert p in a + b;
      }
    }
  }

  /** A concatenation repeats no id exactly when neither part does and the parts share none. */
  lemma DistinctConcat(a: seq<Pokemon>, b: seq<Pokemon>)
    ensures DistinctIds(a + b) <==> DistinctIds(a) && DistinctIds(b) && Ids(a) !! Ids(b)
  {
    var ab := a + b;
    if DistinctIds(ab) {
      forall i, j | 0 <= i < j < |a| ensures a[i].id != a[j].id {
        assert ab[i] == a[i] && ab[j] == a[j];
      }
      forall i, j | 0 <= i < j < |b| ensures b[i].id != b[j].id {
        assert ab[|a| + i] == b[i] && ab[|a| + j] == b[j];
      }
      forall p, q | p in a && q in b ensures p.id != q.id {
        var i :| 0 <= i < |a| && a[i] == p;
        var j :| 0 <= j < |b| && b[j] == q;
        assert ab[i] == p && ab[|a| + j] == q;
      }
    }
    if DistinctIds(a) && DistinctIds(b) && Ids(a) !! Ids(b) {
      forall i, j | 0 <= i < j < |ab| ensures ab[i].id != ab[j].id {
        if j < |a| {
          assert ab[i] == a[i] && ab[j] == a[j];
        } else if |a| <= i {
          assert ab[i] == b[i - |a|] && ab[j] == b[j - |a|];
        } else {
          assert ab[i] == a[i] && ab[j] == b[j - |a|];
          assert ab[i].id in Ids(a) && ab[j].id in Ids(b);
        }
      }
    }
  }

  /** The entities of the payload, in payload order, whose id is not in `seen`. */
  function Unseen(seen: set<int>, payload: seq<Pokemon>): (kept: seq<Pokemon>)
    ensures forall p :: p in kept <==> p in payload && p.id !in seen
    ensures |kept| <= |payload|
  {
    if payload == [] then []
    else (if payload[0].id in seen then [] else [payload[0]]) + Unseen(seen, payload[1..])
  }

  /** The list after an appending page: the current list, then the unseen part of the page. */
  function AppendUnseen(current: seq<Pokemon>, payload: seq<Pokemon>): (merged: seq<Pokemon>)
    ensures current <= merged
    ensures forall p :: p in merged[|current|..] <==> p in payload && p.id !in Ids(current)
  {
    var merged := current + Unseen(Ids(current), payload);
    assert merged[|current|..] == Unseen(Ids(current), payload);
    merged
  }

  /** Every id of the page is listed after the merge, either already or by being appended. */
  lemma AppendUnseenCoversPayload(current: seq<Pokemon>, payload: seq<Pokemon>)
    ensures forall p :: p in payload ==> p.id in Ids(AppendUnseen(current, payload))
  {
    var kept := Unseen(Ids(current), payload);
    IdsAppend(current, kept);
    forall p | p in payload ensures p.id in Ids(current) + Ids(kept) {
      if p.id !in Ids(current) {
        assert p in kept;
      }
    }
  }

  /** Filtering a concatenation filters each part: the order of the payload is kept. */
  lemma {:induction false} UnseenAppend(seen: set<int>, a: seq<Pokemon>, b: seq<Pokemon>)
    ensures Unseen(seen, a + b) == Unseen(seen, a) + Unseen(seen, b)
    decreases |a|
  {
    if a != [] {
      assert (a + b)[1..] == a[1..] + b;
      UnseenAppend(seen, a[1..], b);
    } else {
      assert a + b == b;
    }
  }

  /** A payload without repeated ids keeps that property when filtered. */
  lemma {:induction false} UnseenKeepsDistinct(seen: set<int>, payload: seq<Pokemon>)
    requires DistinctIds(payload)
    ensures DistinctIds(Unseen(seen, payload))
    decreases |payload|
  {
    if payload != [] {
      var head, rest := [payload[0]], payload[1..];
      assert payload == head + rest;
      DistinctConcat(head, rest);
      UnseenKeepsDistinct(seen, rest);
      var tail := Unseen(seen, rest);
      var first := if payload[0].id in seen then [] else head;
      assert Unseen(seen, payload) == first + tail;
      assert Ids(tail) <= Ids(rest) by {
        forall x | x in Ids(tail) ensures x in Ids(rest) {
          var p :| p in tail && p.id == x;
          assert p in rest;
        }
      }
      assert Ids(first) <= Ids(head);
      DistinctConcat(first, tail);
    }
  }

  /** Merging a page keeps the list free of repeated ids, provided the page has none itself. */
  lemma AppendUnseenKeepsDistinct(current: seq<Pokemon>, payload: seq<Pokemon>)
    requires DistinctIds(current) && DistinctIds(payload)
    ensures DistinctIds(AppendUnseen(current, payload))
  {
    var kept := Unseen(Ids(current), payload);
    UnseenKeepsDistinct(Ids(current), payload);
    assert Ids(current) !! Ids(kept) by {
      forall x | x in Ids(kept) ensures x !in Ids(current) {
        var p :| p in kept && p.id == x;
      }
    }
    DistinctConcat(current, kept);
  }

  /** The merge does not deduplicate within one page: two unseen entities
      with the same id both land in the list. */
  lemma PageDuplicatesSurvive(current: seq<Pokemon>, x: Pokemon, y: Pokemon)
    requires x.id == y.id && x.id !in Ids(current)
    ensures !DistinctIds(AppendUnseen(current, [x, y]))
  {
    var merged := AppendUnseen(current, [x, y]);
    assert [x, y][1..] == [y];
    assert Unseen(Ids(current), [x, y]) == [x, y];
    assert merged == current + [x, y];
    assert merged[|current|].id == merged[|current| + 1].id;
  }

  /** The list of two overlapping pages: [1, 2] then [2, 3] gives [1, 2, 3]. */
  lemma OverlappingPagesMerge(p1: Pokemon, p2: Pokemon, p3: Pokemon)
    requires p1.id == 1 && p2.id == 2 && p3.id == 3
    ensures AppendUnseen([], [p1, p2]) == [p1, p2]
    ensures AppendUnseen([p1, p2], [p2, p3]) == [p1, p2, p3]
  {
    assert Ids([]) == {};
    assert [p1, p2][1..] == [p2] && [p2][1..] == [];
    assert Unseen({}, [p2]) == [p2];
    assert Unseen({}, [p1, p2]) == [p1, p2];
    var seen := Ids([p1, p2]);
    assert p2 in [p1, p2];
    assert p2.id in seen;
    assert p3.id !in seen;
    assert [p2, p3][1..] == [p3] && [p3][1..] == [];
    assert Unseen(seen, [p3]) == [p3];
    assert Unseen(seen, [p2, p3]) == [p3];
  }

  /** Reference definition of the deduplicated list: each id once, at its first occurrence. */
  function FirstSeen(ps: seq<Pokemon>): seq<Pokemon> {
    if ps == [] then []
    else
      var init := FirstSeen(ps[..|ps| - 1]);
      var last := ps[|ps| - 1];
      if last.id in Ids(init) then init else init + [last]
  }

  /** In a list without repeated ids, the last id does not occur before it. */
  lemma LastIdIsNew(ps: seq<Pokemon>)
    requires |ps| > 0 && DistinctIds(ps)
    ensures ps[|ps| - 1].id !in Ids(ps[..|ps| - 1])
  {
    ButLast(ps);
    DistinctConcat(ps[..|ps| - 1], [ps[|ps| - 1]]);
    assert ps[|ps| - 1].id in Ids([ps[|ps| - 1]]);
  }

  /** The reference list repeats no id and holds exactly the ids of its input. */
  lemma {:induction false} FirstSeenSound(ps: seq<Pokemon>)
    ensures DistinctIds(FirstSeen(ps))
    ensures Ids(FirstSeen(ps)) == Ids(ps)
    decreases |ps|
  {
    if ps != [] {
      var prefix := ps[..|ps| - 1];
      var last := ps[|ps| - 1];
      var init := FirstSeen(prefix);
      FirstSeenSound(prefix);
      ButLast(ps);
      IdsAppend(prefix, [last]);
      IdsAppend(init, [last]);
      assert Ids([last]) == {last.id};
      DistinctConcat(init, [last]);
    }
  }

  /** One unfolding of FirstSeen at a list given as a prefix and a last entity. */
  lemma FirstSeenSnoc(init: seq<Pokemon>, x: Pokemon)
    ensures FirstSeen(init + [x]) ==
      if x.id in Ids(FirstSeen(init)) then FirstSeen(init) else FirstSeen(init) + [x]
  {
    assert (init + [x])[..|init + [x]| - 1] == init;
  }

  lemma {:induction false} FirstSeenOfDistinct(ps: seq<Pokemon>)
    requires DistinctIds(ps)
    ensures FirstSeen(ps) == ps
    decreases |ps|
  {
    if ps != [] {
      var init := ps[..|ps| - 1];
      var last := ps[|ps| - 1];
      ButLast(ps);
      DistinctConcat(init, [last]);
      FirstSeenOfDistinct(init);
      LastIdIsNew(ps);
      FirstSeenSnoc(init, last);
    }
  }

  /** Deduplicating a prefix first changes nothing about the deduplicated whole. */
  lemma {:induction false} FirstSeenAbsorbs(a: seq<Pokemon>, b: seq<Pokemon>)
    ensures FirstSeen(FirstSeen(a) + b) == FirstSeen(a + b)
    decreases |b|
  {
    if b == [] {
      ConcatEmpty(FirstSeen(a));
      ConcatEmpty(a);
      FirstSeenSound(a);
      FirstSeenOfDistinct(FirstSeen(a));
    } else {
      var b' := b[..|b| - 1];
      var x := b[|b| - 1];
      FirstSeenAbsorbs(a, b');
      ConcatButLast(FirstSeen(a), b);
      ConcatButLast(a, b);
      FirstSeenSnoc(FirstSeen(a) + b', x);
      FirstSeenSnoc(a + b', x);
    }
  }

  /** Merging a page that ends in x: the merge of the rest, then x unless its id was listed. */
  lemma AppendUnseenSnoc(current: seq<Pokemon>, init: seq<Pokemon>, x: Pokemon)
    ensures AppendUnseen(current, init + [x]) ==
      AppendUnseen(current, init) + if x.id in Ids(current) then [] else [x]
  {
    UnseenAppend(Ids(current), init, [x]);
    assert [x][1..] == [];
  }

  /** First-seen deduplication of a list followed by a page that ends in an id
      new to the page: the deduplication of the rest, then x unless its id was listed. */
  lemma FirstSeenSnocNew(current: seq<Pokemon>, init: seq<Pokemon>, x: Pokemon)
    requires x.id !in Ids(init)
    ensures FirstSeen(current + (init + [x])) ==
      FirstSeen(current + init) + if x.id in Ids(current) then [] else [x]
  {
    assert current + (init + [x]) == (current + init) + [x];
    FirstSeenSnoc(current + init, x);
    FirstSeenSound(current + init);
    IdsAppend(current, init);
  }

  /** Merging a page without repeated ids into a list without repeated ids is
      exactly first-seen deduplication of the list followed by the page. */
  lemma {:induction false} AppendUnseenIsFirstSeen(current: seq<Pokemon>, payload: seq<Pokemon>)
    requires DistinctIds(current) && DistinctIds(payload)
    ensures AppendUnseen(current, payload) == FirstSeen(current + payload)
    decreases |payload|
  {
    if payload == [] {
      ConcatEmpty(current);
      FirstSeenOfDistinct(current);
    } else {
      var init := payload[..|payload| - 1];
      var x := payload[|payload| - 1];
      ButLast(payload);
      DistinctConcat(init, [x]);
      LastIdIsNew(payload);
      AppendUnseenIsFirstSeen(current, init);
      AppendUnseenSnoc(current, init, x);
      FirstSeenSnocNew(current, init, x);
    }
  }

  /** Successive appending pages, the first page first. */
  function MergePages(current: seq<Pokemon>, pages: seq<seq<Pokemon>>): seq<Pokemon>
    decreases |pages|
  {
    if pages == [] then current else MergePages(AppendUnseen(current, pages[0]), pages[1..])
  }

  function Flatten(pages: seq<seq<Pokemon>>): seq<Pokemon> {
    if pages == [] then [] else pages[0] + Flatten(pages[1..])
  }

  lemma FlattenAfter(current: seq<Pokemon>, pages: seq<seq<Pokemon>>)
    requires pages != []
    ensures current + pages[0] + Flatten(pages[1..]) == current + Flatten(pages)
  {
  }

  /** However the pages overlap, the list after them holds each id once, in
      first-seen order, provided no page repeats an id within itself. */
  lemma {:induction false} MergePagesIsFirstSeen(current: seq<Pokemon>, pages: seq<seq<Pokemon>>)
    requires DistinctIds(current)
    requires forall page :: page in pages ==> DistinctIds(page)
    ensures MergePages(current, pages) == FirstSeen(current + Flatten(pages))
    decreases |pages|
  {
    if pages == [] {
      ConcatEmpty(current);
      FirstSeenOfDistinct(current);
    } else {
      var next := AppendUnseen(current, pages[0]);
      var rest := pages[1..];
      assert DistinctIds(pages[0]) by {
        assert pages[0] in pages;
      }
      assert DistinctIds(next) && next == FirstSeen(current + pages[0]) by {
        AppendUnseenKeepsDistinct(current, pages[0]);
        AppendUnseenIsFirstSeen(current, pages[0]);
      }
      calc {
        MergePages(current, pages);
        MergePages(next, rest);
        {
          assert forall page :: page in rest ==> page in pages;
          MergePagesIsFirstSeen(next, rest);
        }
        FirstSeen(next + Flatten(rest));
        { FirstSeenAbsorbs(current + pages[0], Flatten(rest)); }
        FirstSeen(current + pages[0] + Flatten(rest));
        { FlattenAfter(current, pages); }
        FirstSeen(current + Flatten(pages));
      }
    }
  }
}
