/** Fantasy points: a fixed weighted sum of a player's season stats, per game played. */
module Fantasy {
  import opened Tables
  import opened Config

  /** The record holds `<stat><suffix>` for every weighted stat. */
  predicate HasWeighted(r: Record, weights: seq<(string, real)>, suffix: string)
  {
    forall i :: 0 <= i < |weights| ==> weights[i].0 + suffix in r
  }

  /** Sum of `r[<stat><suffix>] * weight` over the weight list (callers guarantee the fields
      exist, see `HasWeighted`; a missing one would read as 0). */
  function WeightedSum(r: Record, weights: seq<(string, real)>, suffix: string): real
  {
    if weights == [] then 0.0
    else
      var last := weights[|weights| - 1];
      WeightedSum(r, weights[..|weights| - 1], suffix) + GetOr0(r, last.0 + suffix) * last.1
  }

  /** The stats that carry a fantasy weight. */
  predicate IsFantasyStat(stat: string)
  {
    stat == "points" || stat == "plusMinus" || stat == "faceoff" || stat == "shg"
    || stat == "blocks" || stat == "pim" || stat == "hits"
  }

  /** The record holds `<stat><suffix>` for the seven weighted stats. */
  predicate HasFantasyFields(r: Record, suffix: string)
  {
    && "points" + suffix in r && "plusMinus" + suffix in r && "faceoff" + suffix in r
    && "shg" + suffix in r && "blocks" + suffix in r && "pim" + suffix in r && "hits" + suffix in r
  }

  /** What `get_fantasy_points` needs of a "full" record: the seven raw totals and a non-zero "gp". */
  predicate FantasyReady(r: Record)
  {
    HasRawFantasyFields(r) && "gp" in r && r["gp"] != 0.0
  }

  /** The seven raw totals the weights apply to. */
  predicate HasRawFantasyFields(r: Record)
  {
    && "points" in r && "plusMinus" in r && "faceoff" in r && "shg" in r
    && "blocks" in r && "pim" in r && "hits" in r
  }

  /** The raw totals are the weighted fields with the empty suffix. */
  lemma RawFantasyFields(r: Record)
    requires FantasyReady(r)
    ensures HasFantasyFields(r, "")
  {
    assert "points" + "" == "points" && "plusMinus" + "" == "plusMinus" && "faceoff" + "" == "faceoff";
    assert "shg" + "" == "shg" && "blocks" + "" == "blocks" && "pim" + "" == "pim" && "hits" + "" == "hits";
  }

  /** What `get_fantasy_ratio` needs of a "full" record: the seven ratio fields and a non-zero "gp". */
  predicate FantasyRatioReady(r: Record)
  {
    HasFantasyFields(r, "_ratio") && "gp" in r && r["gp"] != 0.0
  }

  /** The weight list names exactly the fantasy stats. */
  lemma FantasyWeightsCover(r: Record, suffix: string)
    requires HasFantasyFields(r, suffix)
    ensures HasWeighted(r, FANTASY_WEIGHTS, suffix)
  {
    forall i | 0 <= i < |FANTASY_WEIGHTS| ensures FANTASY_WEIGHTS[i].0 + suffix in r {
      assert IsFantasyStat(FANTASY_WEIGHTS[i].0);
    }
  }

  /** Fantasy points per game of one season record. */
  function FantasyPoints(r: Record): real
    requires FantasyReady(r)
  {
    WeightedSum(r, FANTASY_WEIGHTS, "") / r["gp"]
  }

  /** Fantasy ratio of a player in one season's "full" table: 0 when the player is absent. */
  function FantasyRatio(full: Table, player: PlayerId): real
    requires player in full ==> FantasyRatioReady(full[player])
  {
    if player !in full then 0.0
    else WeightedSum(full[player], FANTASY_WEIGHTS, "_ratio") / full[player]["gp"]
  }

  /** The accumulation loop of `get_fantasy_points` and `get_fantasy_ratio`. */
  method AccumulateWeighted(r: Record, weights: seq<(string, real)>, suffix: string) returns (fp: real)
    requires HasWeighted(r, weights, suffix)
    ensures fp == WeightedSum(r, weights, suffix)
  {
    fp := 0.0;
    var i := 0;
    while i < |weights|
      invariant 0 <= i <= |weights|
      invariant fp == WeightedSum(r, weights[..i], suffix)
    {
      assert weights[..i + 1][..i] == weights[..i];
      fp := fp + r[weights[i].0 + suffix] * weights[i].1;
      i := i + 1;
    }
    assert weights[..i] == weights;
  }

  /** `get_fantasy_points(player, season)` over that season's "full" table. */
  method GetFantasyPoints(full: Table, player: PlayerId) returns (fp: real)
    requires player in full && FantasyReady(full[player])
    ensures fp == FantasyPoints(full[player])
  {
    RawFantasyFields(full[player]);
    FantasyWeightsCover(full[player], "");
    var sum := AccumulateWeighted(full[player], FANTASY_WEIGHTS, "");
    fp := sum / full[player]["gp"];
  }

  /** `get_fantasy_ratio(player, season)` over that season's "full" table. */
  method GetFantasyRatio(full: Table, player: PlayerId) returns (fr: real)
    requires player in full ==> FantasyRatioReady(full[player])
    ensures fr == FantasyRatio(full, player)
    ensures player !in full ==> fr == 0.0
  {
    if player !in full {
      return 0.0;
    }
    FantasyWeightsCover(full[player], "_ratio");
    var sum := AccumulateWeighted(full[player], FANTASY_WEIGHTS, "_ratio");
    fr := sum / full[player]["gp"];
  }

  /** The weight list spelled out: 0.5 points, 2 plus-minus, 1 faceoff, 2 shorthanded goals,
      3 blocks, 5 penalty minutes and 7 hits, divided by games played. */
  lemma FantasyPointsClosedForm(r: Record)
    requires FantasyReady(r)
    ensures FantasyPoints(r) ==
      (0.5 * r["points"] + 2.0 * r["plusMinus"] + 1.0 * r["faceoff"] + 2.0 * r["shg"]
       + 3.0 * r["blocks"] + 5.0 * r["pim"] + 7.0 * r["hits"]) / r["gp"]
  {
    RawFantasyFields(r);
    WeightedSumClosedForm(r, "");
    // With the empty suffix the weighted keys are the raw field names.
    assert "points" + "" == "points" && "plusMinus" + "" == "plusMinus" && "faceoff" + "" == "faceoff";
    assert "shg" + "" == "shg" && "blocks" + "" == "blocks" && "pim" + "" == "pim" && "hits" + "" == "hits";
  }

  /** The same weights applied to the per-game ratio fields. */
  lemma FantasyRatioClosedForm(full: Table, player: PlayerId)
    requires player in full && FantasyRatioReady(full[player])
    ensures var r := full[player];
      FantasyRatio(full, player) ==
      (0.5 * r[RatioField("points")] + 2.0 * r[RatioField("plusMinus")] + 1.0 * r[RatioField("faceoff")]
       + 2.0 * r[RatioField("shg")] + 3.0 * r[RatioField("blocks")] + 5.0 * r[RatioField("pim")]
       + 7.0 * r[RatioField("hits")]) / r["gp"]
  {
    WeightedSumClosedForm(full[player], "_ratio");
  }

  lemma WeightedSumClosedForm(r: Record, suffix: string)
    requires HasFantasyFields(r, suffix)
    ensures WeightedSum(r, FANTASY_WEIGHTS, suffix) ==
      0.5 * r["points" + suffix] + 2.0 * r["plusMinus" + suffix] + 1.0 * r["faceoff" + suffix]
      + 2.0 * r["shg" + suffix] + 3.0 * r["blocks" + suffix] + 5.0 * r["pim" + suffix]
      + 7.0 * r["hits" + suffix]
  {
    var w := FANTASY_WEIGHTS;
    assert w[..1][..0] == [];
    assert WeightedSum(r, w[..1], suffix) == 0.5 * r["points" + suffix];
    assert w[..2][..1] == w[..1];
    assert WeightedSum(r, w[..2], suffix) == WeightedSum(r, w[..1], suffix) + 2.0 * r["plusMinus" + suffix];
    assert w[..3][..2] == w[..2];
    assert WeightedSum(r, w[..3], suffix) == WeightedSum(r, w[..2], suffix) + 1.0 * r["faceoff" + suffix];
    assert w[..4][..3] == w[..3];
    assert WeightedSum(r, w[..4], suffix) == WeightedSum(r, w[..3], suffix) + 2.0 * r["shg" + suffix];
    assert w[..5][..4] == w[..4];
    assert WeightedSum(r, w[..5], suffix) == WeightedSum(r, w[..4], suffix) + 3.0 * r["blocks" + suffix];
    assert w[..6][..5] == w[..5];
    assert WeightedSum(r, w[..6], suffix) == WeightedSum(r, w[..5], suffix) + 5.0 * r["pim" + suffix];
    assert w[..7][..6] == w[..6];
    assert w[..7] == w;
    assert WeightedSum(r, w, suffix) == WeightedSum(r, w[..6], suffix) + 7.0 * r["hits" + suffix];
  }

  /** Raising one weighted field raises the weighted sum, when every weight is positive. */
  lemma {:induction false} WeightedSumRaise(r: Record, weights: seq<(string, real)>, suffix: string, k: nat, v: real)
    requires forall i :: 0 <= i < |weights| ==> weights[i].1 > 0.0
    requires k < |weights|
    requires v > GetOr0(r, weights[k].0 + suffix)
    ensures WeightedSum(r[weights[k].0 + suffix := v], weights, suffix) > WeightedSum(r, weights, suffix)
  {
    var n := |weights| - 1;
    if k == n {
      WeightedSumRaiseLast(r, weights, suffix, v);
    } else {
      var key := weights[k].0 + suffix;
      var init := weights[..n];
      assert init[k] == weights[k];
      WeightedSumRaise(r, init, suffix, k, v);
      WeightedSumFrameLast(r, weights[n], suffix, key, v);
      WeightedSumUnfold(r, weights, suffix);
      WeightedSumUnfold(r[key := v], weights, suffix);
      assert WeightedSum(r[key := v], init, suffix) > WeightedSum(r, init, suffix);
      assert GetOr0(r[key := v], weights[n].0 + suffix) * weights[n].1 >= GetOr0(r, weights[n].0 + suffix) * weights[n].1;
      assert WeightedSum(r, weights, suffix) == WeightedSum(r, init, suffix) + GetOr0(r, weights[n].0 + suffix) * weights[n].1;
      assert WeightedSum(r[key := v], weights, suffix) == WeightedSum(r[key := v], init, suffix) + GetOr0(r[key := v], weights[n].0 + suffix) * weights[n].1;
    }
  }

  lemma WeightedSumUnfold(r: Record, weights: seq<(string, real)>, suffix: string)
    requires weights != []
    ensures var n := |weights| - 1;
      WeightedSum(r, weights, suffix) == WeightedSum(r, weights[..n], suffix) + GetOr0(r, weights[n].0 + suffix) * weights[n].1
  {
  }

  /** The case where the raised field is the last one weighted. */
  lemma WeightedSumRaiseLast(r: Record, weights: seq<(string, real)>, suffix: string, v: real)
    requires forall i :: 0 <= i < |weights| ==> weights[i].1 > 0.0
    requires weights != []
    requires v > GetOr0(r, weights[|weights| - 1].0 + suffix)
    ensures WeightedSum(r[weights[|weights| - 1].0 + suffix := v], weights, suffix) > WeightedSum(r, weights, suffix)
  {
    var n := |weights| - 1;
    var key := weights[n].0 + suffix;
    WeightedSumFrame(r, weights[..n], suffix, key, v);
    RaiseLast(r, weights[n], suffix, key, v);
    WeightedSumUnfold(r, weights, suffix);
    WeightedSumUnfold(r[key := v], weights, suffix);
    assert WeightedSum(r[key := v], weights[..n], suffix) >= WeightedSum(r, weights[..n], suffix);
    assert GetOr0(r[key := v], weights[n].0 + suffix) * weights[n].1 > GetOr0(r, weights[n].0 + suffix) * weights[n].1;
    assert WeightedSum(r, weights, suffix) == WeightedSum(r, weights[..n], suffix) + GetOr0(r, weights[n].0 + suffix) * weights[n].1;
    assert WeightedSum(r[key := v], weights, suffix) == WeightedSum(r[key := v], weights[..n], suffix) + GetOr0(r[key := v], weights[n].0 + suffix) * weights[n].1;
    assert WeightedSum(r[key := v], weights, suffix) > WeightedSum(r, weights, suffix);
  }

  lemma RaiseLast(r: Record, last: (string, real), suffix: string, key: string, v: real)
    requires last.1 > 0.0 && last.0 + suffix == key && v > GetOr0(r, key)
    ensures GetOr0(r[key := v], last.0 + suffix) * last.1 > GetOr0(r, last.0 + suffix) * last.1
  {
    StrictProduct(GetOr0(r, key), v, last.1);
  }

  /** Raising a field never lowers the weighted sum. */
  lemma {:induction false} WeightedSumFrame(r: Record, weights: seq<(string, real)>, suffix: string, key: string, v: real)
    requires forall i :: 0 <= i < |weights| ==> weights[i].1 > 0.0
    requires v >= GetOr0(r, key)
    ensures WeightedSum(r[key := v], weights, suffix) >= WeightedSum(r, weights, suffix)
  {
    if weights != [] {
      var r' := r[key := v];
      var n := |weights| - 1;
      var init, last := weights[..n], weights[n];
      WeightedSumFrame(r, init, suffix, key, v);
      assert last.1 > 0.0;
      WeightedSumFrameLast(r, last, suffix, key, v);
      assert WeightedSum(r, weights, suffix) == WeightedSum(r, init, suffix) + GetOr0(r, last.0 + suffix) * last.1;
      assert WeightedSum(r', weights, suffix) == WeightedSum(r', init, suffix) + GetOr0(r', last.0 + suffix) * last.1;
    }
  }

  lemma WeightedSumFrameLast(r: Record, last: (string, real), suffix: string, key: string, v: real)
    requires last.1 > 0.0 && v >= GetOr0(r, key)
    ensures GetOr0(r[key := v], last.0 + suffix) * last.1 >= GetOr0(r, last.0 + suffix) * last.1
  {
    if last.0 + suffix == key {
      StrictProductWeak(GetOr0(r, key), v, last.1);
    }
  }

  lemma StrictProduct(a: real, b: real, w: real)
    requires a < b && w > 0.0
    ensures a * w < b * w
  {
    assert b * w - a * w == (b - a) * w;
  }

  lemma StrictProductWeak(a: real, b: real, w: real)
    requires a <= b && w > 0.0
    ensures a * w <= b * w
  {
    assert b * w - a * w == (b - a) * w;
  }

  /** With games played positive, raising any weighted raw total strictly raises fantasy points. */
  lemma FantasyPointsRaise(r: Record, stat: string, v: real)
    requires FantasyReady(r) && r["gp"] > 0.0
    requires IsFantasyStat(stat)
    requires v > r[stat]
    ensures FantasyReady(r[stat := v])
    ensures FantasyPoints(r[stat := v]) > FantasyPoints(r)
  {
    // The raw totals are the weighted fields with the empty suffix.
    assert stat + "" == stat && stat != "gp";
    RawFantasyFields(r);
    var k :| 0 <= k < |FANTASY_WEIGHTS| && FANTASY_WEIGHTS[k].0 == stat by {
      assert stat == FANTASY_WEIGHTS[0].0 || stat == FANTASY_WEIGHTS[1].0 || stat == FANTASY_WEIGHTS[2].0
        || stat == FANTASY_WEIGHTS[3].0 || stat == FANTASY_WEIGHTS[4].0 || stat == FANTASY_WEIGHTS[5].0
        || stat == FANTASY_WEIGHTS[6].0;
    }
    WeightedSumRaise(r, FANTASY_WEIGHTS, "", k, v);
    var r' := r[stat := v];
    assert r'["gp"] == r["gp"];
    DivStrictPos(WeightedSum(r, FANTASY_WEIGHTS, ""), WeightedSum(r', FANTASY_WEIGHTS, ""), r["gp"]);
  }

  lemma DivStrictPos(a: real, b: real, c: real)
    requires a < b && c > 0.0
    ensures a / c < b / c
  {
    assert b / c - a / c == (b - a) / c;
  }
}
