/** Population normalisation: every tracked ratio, the fantasy points and the team
    fantasy scores are min-max rescaled to [0,1] within one season. */
module Normalization {
  import opened Tables
  import opened MinMax
  import opened Fantasy

  // ---------------------------------------------------------------------------
  // Ratio normalisation (`normalize_ratios`)
  // ---------------------------------------------------------------------------

  /** The record has `<stat>_ratio` for every stat. */
  predicate HasRatios(r: Record, stats: seq<string>)
  {
    forall i :: 0 <= i < |stats| ==> RatioField(stats[i]) in r
  }

  /** Every listed player present in the season's ratio table has `<stat>_ratio` for every stat. */
  predicate RatiosReady(tbl: Table, players: seq<PlayerId>, stats: seq<string>)
  {
    forall p :: p in players && p in tbl ==> HasRatios(tbl[p], stats)
  }

  /** Every listed player present in the table has the field. */
  predicate ColumnReady(tbl: Table, players: seq<PlayerId>, field: string)
  {
    forall p :: p in players && p in tbl ==> field in tbl[p]
  }

  /** `[tbl[pid][field] for pid in players if pid in tbl]`. */
  function Column(tbl: Table, players: seq<PlayerId>, field: string): seq<real>
    requires ColumnReady(tbl, players, field)
  {
    if players == [] then []
    else
      assert forall p :: p in players[1..] ==> p in players;
      var rest := Column(tbl, players[1..], field);
      if players[0] in tbl then [tbl[players[0]][field]] + rest else rest
  }

  /** The field of every listed, present player is a value of the column. */
  lemma {:induction false} ColumnHas(tbl: Table, players: seq<PlayerId>, field: string, p: PlayerId)
    requires ColumnReady(tbl, players, field)
    requires p in players && p in tbl
    ensures tbl[p][field] in Column(tbl, players, field)
  {
    assert forall q :: q in players[1..] ==> q in players;
    if p != players[0] {
      assert p in players[1..];
      ColumnHas(tbl, players[1..], field, p);
    }
  }

  /** The column is empty exactly when no listed player is present. */
  lemma {:induction false} ColumnEmpty(tbl: Table, players: seq<PlayerId>, field: string)
    requires ColumnReady(tbl, players, field)
    ensures |Column(tbl, players, field)| == 0 <==> Present(tbl, players) == {}
  {
    if players != [] {
      assert forall q :: q in players[1..] ==> q in players;
      ColumnEmpty(tbl, players[1..], field);
      if players[0] !in tbl {
        assert forall q :: q in players && q != players[0] ==> q in players[1..];
        assert Present(tbl, players) == Present(tbl, players[1..]);
      }
    }
  }

  /** Every value of the column is the field of some listed, present player. */
  lemma {:induction false} ColumnMembers(tbl: Table, players: seq<PlayerId>, field: string, v: real)
    requires ColumnReady(tbl, players, field)
    requires v in Column(tbl, players, field)
    ensures exists p :: p in players && p in tbl && tbl[p][field] == v
  {
    assert players != [];
    assert forall p :: p in players[1..] ==> p in players;
    if !(players[0] in tbl && v == tbl[players[0]][field]) {
      ColumnMembers(tbl, players[1..], field, v);
    }
  }

  lemma ColumnReadyAt(tbl: Table, players: seq<PlayerId>, stats: seq<string>, j: nat)
    requires RatiosReady(tbl, players, stats) && j < |stats|
    ensures ColumnReady(tbl, players, RatioField(stats[j]))
  {
  }

  /** The rescaled `<stat>_ratio` of a present player. */
  function NormValue(tbl: Table, players: seq<PlayerId>, stat: string, p: PlayerId): real
    requires ColumnReady(tbl, players, RatioField(stat))
    requires p in players && p in tbl
  {
    ColumnHas(tbl, players, RatioField(stat), p);
    Rescale(tbl[p][RatioField(stat)], Column(tbl, players, RatioField(stat)))
  }

  /** The normalised record of player `p` after the stats of `stats` have been processed,
      in that order. */
  function NormRecord(tbl: Table, players: seq<PlayerId>, stats: seq<string>, p: PlayerId): Record
    requires RatiosReady(tbl, players, stats)
    requires p in players && p in tbl
  {
    if stats == [] then map[]
    else
      var n := |stats| - 1;
      RatiosReadyPrefix(tbl, players, stats, n);
      ColumnReadyAt(tbl, players, stats, n);
      NormRecord(tbl, players, stats[..n], p)[NormField(stats[n]) := NormValue(tbl, players, stats[n], p)]
  }

  lemma RatiosReadyPrefix(tbl: Table, players: seq<PlayerId>, stats: seq<string>, k: nat)
    requires RatiosReady(tbl, players, stats) && k <= |stats|
    ensures RatiosReady(tbl, players, stats[..k])
  {
    forall p | p in players && p in tbl ensures HasRatios(tbl[p], stats[..k]) {
      assert forall i :: 0 <= i < k ==> stats[..k][i] == stats[i];
    }
  }

  /** What `normalize_ratios(season)` returns, given the season's ratio table. */
  function NormalizeSpec(tbl: Table, players: seq<PlayerId>, stats: seq<string>): Result<Table>
    requires RatiosReady(tbl, players, stats)
  {
    if stats == [] then Ok(map[])
    else if Present(tbl, players) == {} then Err(EmptyPopulation)
    else Ok(map p | p in Present(tbl, players) :: NormRecord(tbl, players, stats, p))
  }

  /** One more stat processed: the record gains that stat's `_norm` field, and setting it
      again changes nothing. */
  lemma NormRecordStep(tbl: Table, players: seq<PlayerId>, stats: seq<string>, k: nat, p: PlayerId)
    requires RatiosReady(tbl, players, stats) && k < |stats|
    requires p in players && p in tbl
    ensures RatiosReady(tbl, players, stats[..k]) && RatiosReady(tbl, players, stats[..k + 1])
    ensures ColumnReady(tbl, players, RatioField(stats[k]))
    ensures NormRecord(tbl, players, stats[..k + 1], p)
            == NormRecord(tbl, players, stats[..k], p)[NormField(stats[k]) := NormValue(tbl, players, stats[k], p)]
    ensures NormRecord(tbl, players, stats[..k + 1], p)[NormField(stats[k]) := NormValue(tbl, players, stats[k], p)]
            == NormRecord(tbl, players, stats[..k + 1], p)
  {
    RatiosReadyPrefix(tbl, players, stats, k);
    RatiosReadyPrefix(tbl, players, stats, k + 1);
    ColumnReadyAt(tbl, players, stats, k);
    assert stats[..k + 1][..k] == stats[..k];
    assert stats[..k + 1][k] == stats[k];
  }

  /** The record the output holds for a player so far: `{}` before the player's first field. */
  function Entry(out: Table, p: PlayerId): Record
  {
    if p in out then out[p] else map[]
  }

  /** The output records agree with the stats before `stats[k]` or up to it, and the first `i`
      listed players are done. */
  predicate StepInvariant(tbl: Table, players: seq<PlayerId>, stats: seq<string>, k: nat, i: nat, out: Table)
    requires RatiosReady(tbl, players, stats) && k < |stats| && i <= |players|
    requires RatiosReady(tbl, players, stats[..k]) && RatiosReady(tbl, players, stats[..k + 1])
  {
    && out.Keys <= Present(tbl, players)
    && (forall p :: p in Present(tbl, players) ==>
          Entry(out, p) == NormRecord(tbl, players, stats[..k], p) || Entry(out, p) == NormRecord(tbl, players, stats[..k + 1], p))
    && (forall j :: 0 <= j < i && players[j] in tbl ==>
          players[j] in out && out[players[j]] == NormRecord(tbl, players, stats[..k + 1], players[j]))
  }

  /** The inner loop of `normalize_ratios` for the stat `stats[k]`: every listed player present
      gets that stat's rescaled ratio added to the record built so far. */
  method RescaleStat(tbl: Table, players: seq<PlayerId>, stats: seq<string>, k: nat,
                     lo: real, hi: real, out: Table) returns (out': Table)
    requires RatiosReady(tbl, players, stats) && k < |stats|
    requires ColumnReady(tbl, players, RatioField(stats[k]))
    requires |Column(tbl, players, RatioField(stats[k]))| > 0
    requires lo == MinOf(Column(tbl, players, RatioField(stats[k])))
    requires hi == MaxOf(Column(tbl, players, RatioField(stats[k])))
    requires RatiosReady(tbl, players, stats[..k])
    requires out.Keys <= Present(tbl, players)
    requires forall p :: p in Present(tbl, players) ==> Entry(out, p) == NormRecord(tbl, players, stats[..k], p)
    ensures RatiosReady(tbl, players, stats[..k + 1])
    ensures out'.Keys == Present(tbl, players)
    ensures forall p :: p in out' ==> out'[p] == NormRecord(tbl, players, stats[..k + 1], p)
  {
    RatiosReadyPrefix(tbl, players, stats, k + 1);
    out' := out;
    var i := 0;
    while i < |players|
      invariant 0 <= i <= |players|
      invariant StepInvariant(tbl, players, stats, k, i, out')
    {
      out' := RescalePlayer(tbl, players, stats, k, lo, hi, i, out');
      i := i + 1;
    }
    forall p | p in Present(tbl, players) ensures p in out' {
      var j :| 0 <= j < |players| && players[j] == p;
    }
  }

  /** One iteration of the inner loop: player `players[i]`, when present, gets the rescaled
      `stats[k]` ratio added to its record. */
  method RescalePlayer(tbl: Table, players: seq<PlayerId>, stats: seq<string>, k: nat,
                       lo: real, hi: real, i: nat, out: Table) returns (out': Table)
    requires RatiosReady(tbl, players, stats) && k < |stats| && i < |players|
    requires ColumnReady(tbl, players, RatioField(stats[k]))
    requires |Column(tbl, players, RatioField(stats[k]))| > 0
    requires lo == MinOf(Column(tbl, players, RatioField(stats[k])))
    requires hi == MaxOf(Column(tbl, players, RatioField(stats[k])))
    requires RatiosReady(tbl, players, stats[..k]) && RatiosReady(tbl, players, stats[..k + 1])
    requires StepInvariant(tbl, players, stats, k, i, out)
    ensures StepInvariant(tbl, players, stats, k, i + 1, out')
  {
    var player := players[i];
    out' := out;
    if player in tbl {
      var rec := Entry(out, player);
      var val := Scale(tbl[player][RatioField(stats[k])], lo, hi);
      assert val == NormValue(tbl, players, stats[k], player);
      NormRecordStep(tbl, players, stats, k, player);
      var after := NormRecord(tbl, players, stats[..k + 1], player);
      assert rec[NormField(stats[k]) := val] == after;
      out' := out[player := after];
      forall p | p in Present(tbl, players) && p != player ensures Entry(out', p) == Entry(out, p) {
      }
      forall j | 0 <= j < i + 1 && players[j] in tbl
        ensures players[j] in out' && out'[players[j]] == NormRecord(tbl, players, stats[..k + 1], players[j])
      {
        if players[j] != player {
          assert j < i;
        }
      }
    }
  }

  /** The loops of `normalize_ratios`: for every stat, the season's minimum and maximum over
      the listed players present, then every such player's value rescaled. */
  method NormalizeRatios(tbl: Table, players: seq<PlayerId>, stats: seq<string>) returns (r: Result<Table>)
    requires RatiosReady(tbl, players, stats)
    ensures r == NormalizeSpec(tbl, players, stats)
  {
    var out: Table := map[];
    ghost var present := Present(tbl, players);
    var k := 0;
    while k < |stats|
      invariant 0 <= k <= |stats|
      invariant k > 0 ==> present != {} && out.Keys == present
      invariant k == 0 ==> out == map[]
      invariant RatiosReady(tbl, players, stats[..k])
      invariant forall p :: p in out ==> out[p] == NormRecord(tbl, players, stats[..k], p)
    {
      var field := RatioField(stats[k]);
      ColumnReadyAt(tbl, players, stats, k);
      var values := Column(tbl, players, field);
      ColumnEmpty(tbl, players, field);
      if |values| == 0 {
        return Err(EmptyPopulation);
      }
      var lo, hi := MinOf(values), MaxOf(values);
      assert k == 0 ==> stats[..k] == [];
      out := RescaleStat(tbl, players, stats, k, lo, hi, out);
      k := k + 1;
    }
    assert stats[..k] == stats;
    if stats == [] {
      return Ok(out);
    }
    var spec := map p | p in present :: NormRecord(tbl, players, stats, p);
    assert out.Keys == spec.Keys;
    assert out == spec;
    return Ok(out);
  }

  /** The normalised record of a present player holds exactly the `<stat>_norm` fields, each
      the player's ratio rescaled by that stat's season population. */
  lemma {:induction false} NormRecordAt(tbl: Table, players: seq<PlayerId>, stats: seq<string>, p: PlayerId, j: nat)
    requires RatiosReady(tbl, players, stats)
    requires p in players && p in tbl && j < |stats|
    ensures NormField(stats[j]) in NormRecord(tbl, players, stats, p)
    ensures ColumnReady(tbl, players, RatioField(stats[j]))
    ensures NormRecord(tbl, players, stats, p)[NormField(stats[j])] == NormValue(tbl, players, stats[j], p)
  {
    ColumnReadyAt(tbl, players, stats, j);
    var n := |stats| - 1;
    RatiosReadyPrefix(tbl, players, stats, n);
    if j < n && NormField(stats[j]) != NormField(stats[n]) {
      assert stats[..n][j] == stats[j];
      NormRecordAt(tbl, players, stats[..n], p, j);
    } else if j < n {
      NormFieldInjective(stats[j], stats[n]);
    }
  }

  /** The normalised record holds no field other than the `<stat>_norm` ones. */
  lemma {:induction false} NormRecordKeys(tbl: Table, players: seq<PlayerId>, stats: seq<string>, p: PlayerId)
    requires RatiosReady(tbl, players, stats)
    requires p in players && p in tbl
    ensures forall f :: f in NormRecord(tbl, players, stats, p) ==> exists j :: 0 <= j < |stats| && f == NormField(stats[j])
  {
    if stats != [] {
      var n := |stats| - 1;
      RatiosReadyPrefix(tbl, players, stats, n);
      NormRecordKeys(tbl, players, stats[..n], p);
      forall f | f in NormRecord(tbl, players, stats, p)
        ensures exists j :: 0 <= j < |stats| && f == NormField(stats[j])
      {
        if f != NormField(stats[n]) {
          assert f in NormRecord(tbl, players, stats[..n], p);
          var j :| 0 <= j < |stats[..n]| && f == NormField(stats[..n][j]);
          assert stats[..n][j] == stats[j];
        }
      }
    }
  }

  /** `normalize_ratios` fails exactly on an empty population (and a non-empty stat list); on
      success with some stat its entries are exactly the listed players present in the season's
      table, and with no stat the result is empty. */
  lemma NormalizeShape(tbl: Table, players: seq<PlayerId>, stats: seq<string>)
    requires RatiosReady(tbl, players, stats)
    ensures NormalizeSpec(tbl, players, stats).Err? <==> |stats| > 0 && (forall p :: p in players ==> p !in tbl)
    ensures NormalizeSpec(tbl, players, stats).Ok? && |stats| > 0 ==>
      forall p :: p in NormalizeSpec(tbl, players, stats).value <==> p in players && p in tbl
    ensures stats == [] ==> NormalizeSpec(tbl, players, stats) == Ok(map[])
  {
    if |stats| > 0 && (forall p :: p in players ==> p !in tbl) {
      assert Present(tbl, players) == {};
    }
  }

  /** Every `<stat>_norm` value lies in [0,1]. */
  lemma NormalizedInUnit(tbl: Table, players: seq<PlayerId>, stats: seq<string>, p: PlayerId, j: nat)
    requires RatiosReady(tbl, players, stats)
    requires NormalizeSpec(tbl, players, stats).Ok? && p in NormalizeSpec(tbl, players, stats).value
    requires j < |stats|
    ensures NormField(stats[j]) in NormalizeSpec(tbl, players, stats).value[p]
    ensures 0.0 <= NormalizeSpec(tbl, players, stats).value[p][NormField(stats[j])] <= 1.0
  {
    NormRecordAt(tbl, players, stats, p, j);
    var field := RatioField(stats[j]);
    ColumnHas(tbl, players, field, p);
    RescaleInUnit(tbl[p][field], Column(tbl, players, field));
    assert NormalizeSpec(tbl, players, stats).value[p] == NormRecord(tbl, players, stats, p);
  }

  /** The player holding the season minimum of a stat maps to 0; the one holding the maximum
      maps to 1 unless every value is the same, in which case every value maps to 0. */
  lemma NormalizedExtremes(tbl: Table, players: seq<PlayerId>, stats: seq<string>, p: PlayerId, j: nat)
    requires RatiosReady(tbl, players, stats)
    requires NormalizeSpec(tbl, players, stats).Ok? && p in NormalizeSpec(tbl, players, stats).value
    requires j < |stats|
    ensures ColumnReady(tbl, players, RatioField(stats[j]))
    ensures |Column(tbl, players, RatioField(stats[j]))| > 0
    ensures NormField(stats[j]) in NormalizeSpec(tbl, players, stats).value[p]
    ensures var field := RatioField(stats[j]);
      var col := Column(tbl, players, field);
      var v := NormalizeSpec(tbl, players, stats).value[p][NormField(stats[j])];
      && (tbl[p][field] == MinOf(col) ==> v == 0.0)
      && (tbl[p][field] == MaxOf(col) && !AllEqual(col) ==> v == 1.0)
      && (AllEqual(col) ==> v == 0.0)
  {
    NormRecordAt(tbl, players, stats, p, j);
    ColumnHas(tbl, players, RatioField(stats[j]), p);
    assert NormalizeSpec(tbl, players, stats).value[p] == NormRecord(tbl, players, stats, p);
    var col := Column(tbl, players, RatioField(stats[j]));
    RescaleAtMin(col);
    RescaleAtMax(col);
    if AllEqual(col) {
      RescaleDegenerate(tbl[p][RatioField(stats[j])], col);
    }
  }

  /** Three players with faceoff ratios 0.40, 0.55 and 0.70 normalise to 0, 0.5 and 1. */
  lemma FaceoffScenario()
    ensures var tbl: Table := map[
        "A" := map["faceoff_ratio" := 0.40], "B" := map["faceoff_ratio" := 0.55],
        "C" := map["faceoff_ratio" := 0.70]];
      RatiosReady(tbl, ["A", "B", "C"], ["faceoff"])
      && NormalizeSpec(tbl, ["A", "B", "C"], ["faceoff"]) == Ok(map[
        "A" := map["faceoff_norm" := 0.0], "B" := map["faceoff_norm" := 0.5],
        "C" := map["faceoff_norm" := 1.0]])
  {
    var tbl: Table := map[
        "A" := map["faceoff_ratio" := 0.40], "B" := map["faceoff_ratio" := 0.55],
        "C" := map["faceoff_ratio" := 0.70]];
    var players, stats := ["A", "B", "C"], ["faceoff"];
    assert RatioField("faceoff") == "faceoff_ratio";
    assert NormField("faceoff") == "faceoff_norm";
    assert RatiosReady(tbl, players, stats);
    var col := Column(tbl, players, "faceoff_ratio");
    assert players[1..] == ["B", "C"] && players[1..][1..] == ["C"] && players[1..][1..][1..] == [];
    assert col == [0.40, 0.55, 0.70];
    assert MinOf(col) == 0.40 && MaxOf(col) == 0.70;
    assert NormValue(tbl, players, "faceoff", "A") == 0.0;
    assert NormValue(tbl, players, "faceoff", "B") == 0.5;
    assert NormValue(tbl, players, "faceoff", "C") == 1.0;
    assert stats[..0] == [];
    assert Present(tbl, players) == {"A", "B", "C"};
    assert NormRecord(tbl, players, stats, "A") == map["faceoff_norm" := 0.0];
    assert NormRecord(tbl, players, stats, "B") == map["faceoff_norm" := 0.5];
    assert NormRecord(tbl, players, stats, "C") == map["faceoff_norm" := 1.0];
    var spec := NormalizeSpec(tbl, players, stats).value;
    assert spec.Keys == {"A", "B", "C"};
    assert spec["A"] == map["faceoff_norm" := 0.0];
    assert spec["B"] == map["faceoff_norm" := 0.5];
    assert spec["C"] == map["faceoff_norm" := 1.0];
    assert spec == map["A" := map["faceoff_norm" := 0.0], "B" := map["faceoff_norm" := 0.5],
        "C" := map["faceoff_norm" := 1.0]];
  }

  // ---------------------------------------------------------------------------
  // Fantasy-point normalisation (`get_normalized_fantasy_points`)
  // ---------------------------------------------------------------------------

  /** Every listed player present in the season's "full" table can be scored. */
  predicate FullReady(full: Table, players: seq<PlayerId>)
  {
    forall p :: p in players && p in full ==> FantasyReady(full[p])
  }

  /** `[get_fantasy_points(pid, season) for pid in players if pid in full]`. */
  function FantasyColumn(full: Table, players: seq<PlayerId>): seq<real>
    requires FullReady(full, players)
  {
    if players == [] then []
    else
      var n := |players| - 1;
      assert forall p :: p in players[..n] ==> p in players;
      var init := FantasyColumn(full, players[..n]);
      if players[n] in full then init + [FantasyPoints(full[players[n]])] else init
  }

  /** The fantasy points of every listed, present player are a value of the column. */
  lemma {:induction false} FantasyColumnHas(full: Table, players: seq<PlayerId>, p: PlayerId)
    requires FullReady(full, players)
    requires p in players && p in full
    ensures FantasyPoints(full[p]) in FantasyColumn(full, players)
  {
    var n := |players| - 1;
    assert forall q :: q in players[..n] ==> q in players;
    if p != players[n] {
      assert p in players[..n];
      FantasyColumnHas(full, players[..n], p);
    }
  }

  /** The column is empty exactly when no listed player is present. */
  lemma {:induction false} FantasyColumnEmpty(full: Table, players: seq<PlayerId>)
    requires FullReady(full, players)
    ensures |FantasyColumn(full, players)| == 0 <==> Present(full, players) == {}
  {
    if players != [] {
      var n := |players| - 1;
      assert forall q :: q in players[..n] ==> q in players;
      FantasyColumnEmpty(full, players[..n]);
      if players[n] !in full {
        assert forall q :: q in players && q != players[n] ==> q in players[..n];
        assert Present(full, players) == Present(full, players[..n]);
      }
    }
  }

  /** What `get_normalized_fantasy_points(season)` returns, given the season's "full" table. */
  function FantasyNormSpec(full: Table, players: seq<PlayerId>): Result<map<PlayerId, real>>
    requires FullReady(full, players)
  {
    if Present(full, players) == {} then Err(EmptyPopulation)
    else
      FantasyColumnEmpty(full, players);
      Ok(map p | p in Present(full, players) :: Rescale(FantasyPoints(full[p]), FantasyColumn(full, players)))
  }

  /** The two loops of `get_normalized_fantasy_points`. */
  method NormalizeFantasyPoints(full: Table, players: seq<PlayerId>) returns (r: Result<map<PlayerId, real>>)
    requires FullReady(full, players)
    ensures r == FantasyNormSpec(full, players)
  {
    var values: seq<real> := [];
    var i := 0;
    while i < |players|
      invariant 0 <= i <= |players|
      invariant FullReady(full, players[..i])
      invariant values == FantasyColumn(full, players[..i])
    {
      assert players[..i + 1][..i] == players[..i];
      assert forall p :: p in players[..i + 1] ==> p in players;
      if players[i] in full {
        var fp := GetFantasyPoints(full, players[i]);
        values := values + [fp];
      }
      i := i + 1;
    }
    assert players[..i] == players;
    FantasyColumnEmpty(full, players);
    if |values| == 0 {
      return Err(EmptyPopulation);
    }
    var lo, hi := MinOf(values), MaxOf(values);
    var out: map<PlayerId, real> := map[];
    i := 0;
    while i < |players|
      invariant 0 <= i <= |players|
      invariant out.Keys == Present(full, players[..i])
      invariant forall p :: p in out ==> (p in full && p in players
        && out[p] == Rescale(FantasyPoints(full[p]), values))
    {
      var player := players[i];
      assert players[..i + 1] == players[..i] + [player];
      if player in full {
        var fp := GetFantasyPoints(full, player);
        out := out[player := Scale(fp, lo, hi)];
      }
      i := i + 1;
    }
    assert players[..i] == players;
    ghost var spec := map p | p in Present(full, players) :: Rescale(FantasyPoints(full[p]), values);
    assert out.Keys == spec.Keys;
    assert out == spec;
    return Ok(out);
  }

  /** `get_normalized_fantasy_points` fails exactly on an empty population; otherwise its
      entries are exactly the listed players present in the season. */
  lemma FantasyNormShape(full: Table, players: seq<PlayerId>)
    requires FullReady(full, players)
    ensures FantasyNormSpec(full, players).Err? <==> (forall p :: p in players ==> p !in full)
    ensures FantasyNormSpec(full, players).Ok? ==>
      forall p :: p in FantasyNormSpec(full, players).value <==> p in players && p in full
  {
    if forall p :: p in players ==> p !in full {
      assert Present(full, players) == {};
    }
  }

  /** Every normalised fantasy score lies in [0,1]. */
  lemma FantasyNormInUnit(full: Table, players: seq<PlayerId>, p: PlayerId)
    requires FullReady(full, players)
    requires FantasyNormSpec(full, players).Ok? && p in FantasyNormSpec(full, players).value
    ensures 0.0 <= FantasyNormSpec(full, players).value[p] <= 1.0
  {
    FantasyColumnHas(full, players, p);
    RescaleInUnit(FantasyPoints(full[p]), FantasyColumn(full, players));
  }

  /** The season's lowest scorer maps to 0, the highest to 1 unless every score is equal, in
      which case every player maps to 0. */
  lemma FantasyNormExtremes(full: Table, players: seq<PlayerId>, p: PlayerId)
    requires FullReady(full, players)
    requires FantasyNormSpec(full, players).Ok? && p in FantasyNormSpec(full, players).value
    ensures |FantasyColumn(full, players)| > 0
    ensures var col := FantasyColumn(full, players);
      var v := FantasyNormSpec(full, players).value[p];
      && (FantasyPoints(full[p]) == MinOf(col) ==> v == 0.0)
      && (FantasyPoints(full[p]) == MaxOf(col) && !AllEqual(col) ==> v == 1.0)
      && (AllEqual(col) ==> v == 0.0)
  {
    FantasyColumnHas(full, players, p);
    var col := FantasyColumn(full, players);
    RescaleAtMin(col);
    RescaleAtMax(col);
    if AllEqual(col) {
      RescaleDegenerate(FantasyPoints(full[p]), col);
    }
  }
}
