/** The scraper's pivot of per-player records: a list of "season to value"
    dictionaries becomes one dictionary from each season to the list of
    values recorded for it, in the order of the input list. */
module Pivot {
  import opened Tables

  /** The result after one more input dictionary: each of its seasons gets its
      value appended, creating the season's list when it is new. */
  function AddEntry<V>(r: map<Season, seq<V>>, e: map<Season, V>): map<Season, seq<V>>
  {
    map s | s in r.Keys + e.Keys ::
      (if s in r then r[s] else []) + (if s in e then [e[s]] else [])
  }

  /** The pivot of the whole input list. */
  function PivotAll<V>(es: seq<map<Season, V>>): map<Season, seq<V>>
  {
    if es == [] then map[] else AddEntry(PivotAll(es[..|es| - 1]), es[|es| - 1])
  }

  /** Reference definition: the values the input list records for a season,
      in input order; a dictionary without the season contributes nothing. */
  function SeasonValues<V>(es: seq<map<Season, V>>, s: Season): seq<V>
  {
    if es == [] then []
    else
      var last := es[|es| - 1];
      SeasonValues(es[..|es| - 1], s) + (if s in last then [last[s]] else [])
  }

  /** Some input dictionary records the season. */
  predicate Recorded<V>(es: seq<map<Season, V>>, s: Season)
  {
    exists i :: 0 <= i < |es| && s in es[i]
  }

  /** The seasons of the result are exactly the seasons recorded anywhere in
      the input, and each season's list is its values in input order. */
  lemma {:induction false} PivotContents<V>(es: seq<map<Season, V>>, s: Season)
    ensures s in PivotAll(es) <==> Recorded(es, s)
    ensures s in PivotAll(es) ==> PivotAll(es)[s] == SeasonValues(es, s)
    ensures s !in PivotAll(es) ==> SeasonValues(es, s) == []
  {
    if es != [] {
      var init := es[..|es| - 1];
      PivotContents(init, s);
      if Recorded(es, s) {
        var i :| 0 <= i < |es| && s in es[i];
        if i < |es| - 1 {
          assert init[i] == es[i];
        }
      }
      if Recorded(init, s) {
        var i :| 0 <= i < |init| && s in init[i];
        assert s in es[i];
      }
    }
  }

  /** A season's list is never empty. */
  lemma PivotListsNonEmpty<V>(es: seq<map<Season, V>>, s: Season)
    requires s in PivotAll(es)
    ensures |PivotAll(es)[s]| > 0
  {
    PivotContents(es, s);
    var i :| 0 <= i < |es| && s in es[i];
    SeasonValuesHas(es, s, i);
  }

  lemma {:induction false} SeasonValuesHas<V>(es: seq<map<Season, V>>, s: Season, i: int)
    requires 0 <= i < |es| && s in es[i]
    ensures |SeasonValues(es, s)| > 0
  {
    if i < |es| - 1 {
      SeasonValuesHas(es[..|es| - 1], s, i);
    }
  }

  /** Pivoting two lists one after the other appends each season's values:
      order across dictionaries is kept. */
  lemma {:induction false} SeasonValuesAppend<V>(a: seq<map<Season, V>>, b: seq<map<Season, V>>, s: Season)
    ensures SeasonValues(a + b, s) == SeasonValues(a, s) + SeasonValues(b, s)
  {
    if b == [] {
      assert a + b == a;
    } else {
      assert (a + b)[..|a + b| - 1] == a + b[..|b| - 1];
      assert (a + b)[|a + b| - 1] == b[|b| - 1];
      SeasonValuesAppend(a, b[..|b| - 1], s);
    }
  }

  // ---------------------------------------------------------------------
  // Nothing is lost: the lists hold one value per (dictionary, season) pair
  // ---------------------------------------------------------------------

  /** The number of (dictionary, season) pairs in the input. */
  function Pairs<V>(es: seq<map<Season, V>>): nat
  {
    if es == [] then 0 else Pairs(es[..|es| - 1]) + |es[|es| - 1].Keys|
  }

  /** The summed length of the lists of the given seasons. */
  function TotalLength<V>(r: map<Season, seq<V>>, keys: seq<Season>): nat
  {
    if keys == [] then 0
    else
      var k := keys[|keys| - 1];
      TotalLength(r, keys[..|keys| - 1]) + (if k in r then |r[k]| else 0)
  }

  /** How many of `keys` lie in `s`. */
  function CountIn(keys: seq<Season>, s: set<Season>): nat
  {
    if keys == [] then 0
    else CountIn(keys[..|keys| - 1], s) + (if keys[|keys| - 1] in s then 1 else 0)
  }

  predicate Distinct(keys: seq<Season>)
  {
    forall i, j :: 0 <= i < j < |keys| ==> keys[i] != keys[j]
  }

  lemma {:induction false} AddEntryLength<V>(r: map<Season, seq<V>>, e: map<Season, V>, keys: seq<Season>)
    ensures TotalLength(AddEntry(r, e), keys) == TotalLength(r, keys) + CountIn(keys, e.Keys)
  {
    if keys != [] {
      AddEntryLength(r, e, keys[..|keys| - 1]);
    }
  }

  lemma {:induction false} TotalLengthEmpty<V>(r: map<Season, seq<V>>, keys: seq<Season>)
    requires r == map[]
    ensures TotalLength(r, keys) == 0
  {
    if keys != [] {
      TotalLengthEmpty(r, keys[..|keys| - 1]);
    }
  }

  lemma {:induction false} CountInCard(keys: seq<Season>, s: set<Season>)
    requires Distinct(keys)
    ensures CountIn(keys, s) == |s * set k | k in keys|
  {
    if keys != [] {
      var init, k := keys[..|keys| - 1], keys[|keys| - 1];
      CountInCard(init, s);
      var before := s * set x | x in init;
      var after := s * set x | x in keys;
      assert k !in before by {
        forall j | 0 <= j < |init| ensures init[j] != k {
          assert init[j] == keys[j];
        }
      }
      if k in s {
        assert after == before + {k};
      } else {
        assert after == before;
      }
    }
  }

  lemma {:induction false} PivotLengthCover<V>(es: seq<map<Season, V>>, keys: seq<Season>)
    requires Distinct(keys) && PivotAll(es).Keys <= set k | k in keys
    ensures TotalLength(PivotAll(es), keys) == Pairs(es)
  {
    if es == [] {
      TotalLengthEmpty(PivotAll(es), keys);
    } else {
      var init, last := es[..|es| - 1], es[|es| - 1];
      assert PivotAll(init).Keys <= PivotAll(es).Keys;
      assert last.Keys <= PivotAll(es).Keys;
      PivotLengthCover(init, keys);
      AddEntryLength(PivotAll(init), last, keys);
      CountInCard(keys, last.Keys);
      assert last.Keys * (set k | k in keys) == last.Keys;
    }
  }

  /** Listing each season of the result once, the lists' lengths add up to
      the number of (dictionary, season) pairs of the input. */
  lemma PivotLength<V>(es: seq<map<Season, V>>, keys: seq<Season>)
    requires Distinct(keys) && (forall k :: k in keys <==> k in PivotAll(es))
    ensures TotalLength(PivotAll(es), keys) == Pairs(es)
  {
    PivotLengthCover(es, keys);
  }

  // ---------------------------------------------------------------------
  // The loop
  // ---------------------------------------------------------------------

  /** `result.setdefault(season, []).append(value)` for every season of every
      dictionary, dictionary by dictionary. */
  method ConvertSeasonData<V>(es: seq<map<Season, V>>) returns (result: map<Season, seq<V>>)
    ensures result == PivotAll(es)
  {
    result := map[];
    for i := 0 to |es|
      invariant result == PivotAll(es[..i])
    {
      var entry := es[i];
      result := AppendEntry(result, entry);
      assert es[..i + 1][..i] == es[..i];
    }
    assert es[..|es|] == es;
  }

  /** The seasons of `e` that lie in `done`, with their values. */
  function Restrict<V>(e: map<Season, V>, done: set<Season>): map<Season, V>
  {
    map k | k in e.Keys * done :: e[k]
  }

  lemma AddEntryStep<V>(r0: map<Season, seq<V>>, e: map<Season, V>, done: set<Season>, s: Season)
    requires s in e && s !in done
    ensures var r := AddEntry(r0, Restrict(e, done));
      AddEntry(r0, Restrict(e, done + {s})) == r[s := (if s in r then r[s] else []) + [e[s]]]
  {
    var r := AddEntry(r0, Restrict(e, done));
    var before, after := Restrict(e, done), Restrict(e, done + {s});
    assert after == before[s := e[s]];
    var lhs := AddEntry(r0, after);
    var rhs := r[s := (if s in r then r[s] else []) + [e[s]]];
    forall k ensures (k in lhs <==> k in rhs) && (k in lhs ==> lhs[k] == rhs[k]) {
      if k == s {
        assert s !in before;
      }
    }
    assert lhs == rhs;
  }

  lemma AddEntryNothing<V>(r0: map<Season, seq<V>>, e: map<Season, V>)
    ensures AddEntry(r0, Restrict(e, {})) == r0
  {
    assert Restrict(e, {}) == map[];
    forall k | k in r0 ensures r0[k] + [] == r0[k] {}
  }

  lemma RestrictAll<V>(e: map<Season, V>, done: set<Season>)
    requires done == e.Keys
    ensures Restrict(e, done) == e
  {
  }

  /** The inner loop over one dictionary's seasons, in whatever order the
      dictionary yields them. */
  method AppendEntry<V>(r0: map<Season, seq<V>>, e: map<Season, V>) returns (r: map<Season, seq<V>>)
    ensures r == AddEntry(r0, e)
  {
    r := r0;
    var todo := e.Keys;
    ghost var done: set<Season> := {};
    AddEntryNothing(r0, e);
    while todo != {}
      invariant todo == e.Keys - done && done <= e.Keys
      invariant r == AddEntry(r0, Restrict(e, done))
      decreases |todo|
    {
      var s :| s in todo;
      AddEntryStep(r0, e, done, s);
      r := r[s := (if s in r then r[s] else []) + [e[s]]];
      todo := todo - {s};
      done := done + {s};
    }
    RestrictAll(e, done);
  }
}
