/** The player rating (`get_rating`): per season, a weighted sum of ratios, the normalised
    fantasy points and the games played, scaled by the season's recency weight; the sum over
    seasons is then multiplied by the age factor and the team multiplier. The weight tables
    are those the manager was constructed with, passed in as a `Weights` value. */
module PlayerRating {
  import opened Tables
  import opened Config
  import opened Fantasy
  import opened AgeCurve

  /** The stats table holds the ten weights the rating reads. */
  predicate RatingWeightsReady(w: Weights)
  {
    && "points" in w.stats && "plusMinus" in w.stats && "shg" in w.stats && "faceoff" in w.stats
    && "blocks" in w.stats && "hits" in w.stats && "pim" in w.stats && "fights" in w.stats
    && "fr" in w.stats && "gp" in w.stats
  }

  /** The eight ratio terms of a season, in the order the rating adds them, with their weights. */
  function RatingTerms(w: Weights): (ts: seq<(string, real)>)
    requires RatingWeightsReady(w)
    ensures |ts| == 8
  {
    [("points", w.stats["points"]), ("plusMinus", w.stats["plusMinus"]),
     ("shg", w.stats["shg"]), ("faceoff", w.stats["faceoff"]),
     ("blocks", w.stats["blocks"]), ("hits", w.stats["hits"]),
     ("pim", w.stats["pim"]), ("fights", w.stats["fights"])]
  }

  /** Every weight the rating multiplies by is positive: the ten stat weights, the season
      weights and the team multipliers. */
  predicate PositiveWeights(w: Weights)
  {
    && RatingWeightsReady(w)
    && w.stats["points"] > 0.0 && w.stats["plusMinus"] > 0.0 && w.stats["shg"] > 0.0
    && w.stats["faceoff"] > 0.0 && w.stats["blocks"] > 0.0 && w.stats["hits"] > 0.0
    && w.stats["pim"] > 0.0 && w.stats["fights"] > 0.0 && w.stats["fr"] > 0.0 && w.stats["gp"] > 0.0
    && (forall s :: s in w.years ==> w.years[s] > 0.0)
    && (forall t :: t in w.teams ==> w.teams[t] > 0.0)
  }

  /** The constructor's tables meet both requirements. */
  lemma DefaultWeightsPositive()
    ensures RatingWeightsReady(DEFAULT_WEIGHTS) && PositiveWeights(DEFAULT_WEIGHTS)
  {
    forall s | s in YEAR_WEIGHTS ensures YEAR_WEIGHTS[s] > 0.0 {
      YearWeightsPositive(s);
    }
    TeamWeightsInBand();
  }

  /** The record holds the eight ratio fields the rating reads. */
  predicate HasRatingFields(r: Record)
  {
    && "points_ratio" in r && "plusMinus_ratio" in r && "shg_ratio" in r && "faceoff_ratio" in r
    && "blocks_ratio" in r && "hits_ratio" in r && "pim_ratio" in r && "fights_ratio" in r
  }

  /** Season `s` can be rated for player `p`: the lookups `get_rating` makes succeed. */
  predicate SeasonReady(w: Weights, ratios: Category, full: Category, fnorms: map<Season, map<PlayerId, real>>,
                        s: Season, p: PlayerId)
  {
    && s in ratios
    && (p in ratios[s] ==>
          && s in w.years
          && HasRatingFields(ratios[s][p])
          && s in fnorms && p in fnorms[s]
          && s in full && p in full[s] && "gp" in full[s][p])
  }

  /** Every listed season can be rated for `p`. */
  predicate SeasonsReady(w: Weights, ratios: Category, full: Category, fnorms: map<Season, map<PlayerId, real>>,
                         seasons: seq<Season>, p: PlayerId)
  {
    forall i :: 0 <= i < |seasons| ==> SeasonReady(w, ratios, full, fnorms, seasons[i], p)
  }

  /** One season's subscore from the player's ratio record, normalised fantasy points and games. */
  function SeasonSubscore(w: Weights, r: Record, fnorm: real, gp: real): real
    requires RatingWeightsReady(w)
  {
    WeightedSum(r, RatingTerms(w), "_ratio") + fnorm * w.stats["fr"] + (gp / 82.0) * w.stats["gp"]
  }

  /** What season `s` adds to the rating: nothing when the player has no ratios that season. */
  function SeasonTerm(w: Weights, ratios: Category, full: Category, fnorms: map<Season, map<PlayerId, real>>,
                      s: Season, p: PlayerId): real
    requires RatingWeightsReady(w) && SeasonReady(w, ratios, full, fnorms, s, p)
  {
    if p !in ratios[s] then 0.0
    else SeasonSubscore(w, ratios[s][p], fnorms[s][p], full[s][p]["gp"]) * w.years[s]
  }

  /** The sum of the season terms over `seasons`. */
  function RatingSum(w: Weights, ratios: Category, full: Category, fnorms: map<Season, map<PlayerId, real>>,
                     seasons: seq<Season>, p: PlayerId): real
    requires RatingWeightsReady(w) && SeasonsReady(w, ratios, full, fnorms, seasons, p)
  {
    if seasons == [] then 0.0
    else
      var n := |seasons| - 1;
      RatingSum(w, ratios, full, fnorms, seasons[..n], p) + SeasonTerm(w, ratios, full, fnorms, seasons[n], p)
  }

  /** The season sum multiplied by the player's age factor and team multiplier. */
  function Scaled(w: Weights, sum: real, bio: Bio): real
  {
    sum * AgeRatio(bio.age) * TeamWeight(w.teams, bio.team)
  }

  /** `get_rating(p)` as a value. */
  function Rating(w: Weights, ratios: Category, full: Category, fnorms: map<Season, map<PlayerId, real>>,
                  bios: map<PlayerId, Bio>, seasons: seq<Season>, p: PlayerId): real
    requires RatingWeightsReady(w) && SeasonsReady(w, ratios, full, fnorms, seasons, p) && p in bios
  {
    Scaled(w, RatingSum(w, ratios, full, fnorms, seasons, p), bios[p])
  }

  /** The chain of `season_rating += ...` statements for one season. */
  method SeasonRating(w: Weights, r: Record, fnorm: real, gp: real) returns (sr: real)
    requires RatingWeightsReady(w) && HasRatingFields(r)
    ensures sr == SeasonSubscore(w, r, fnorm, gp)
  {
    sr := 0.0;
    sr := sr + r["points_ratio"] * w.stats["points"];
    sr := sr + r["plusMinus_ratio"] * w.stats["plusMinus"];
    sr := sr + r["shg_ratio"] * w.stats["shg"];
    sr := sr + r["faceoff_ratio"] * w.stats["faceoff"];
    sr := sr + r["blocks_ratio"] * w.stats["blocks"];
    sr := sr + r["hits_ratio"] * w.stats["hits"];
    sr := sr + r["pim_ratio"] * w.stats["pim"];
    sr := sr + r["fights_ratio"] * w.stats["fights"];
    sr := sr + fnorm * w.stats["fr"];
    sr := sr + (gp / 82.0) * w.stats["gp"];
    RatingTermsClosedForm(w, r);
  }

  /** `get_rating(p)`: the loop over seasons, then the age and team multipliers. */
  method GetRating(w: Weights, ratios: Category, full: Category, fnorms: map<Season, map<PlayerId, real>>,
                   bios: map<PlayerId, Bio>, seasons: seq<Season>, p: PlayerId) returns (rating: real)
    requires RatingWeightsReady(w) && SeasonsReady(w, ratios, full, fnorms, seasons, p) && p in bios
    ensures rating == Rating(w, ratios, full, fnorms, bios, seasons, p)
  {
    var sum := SumSeasons(w, ratios, full, fnorms, seasons, p);
    rating := Scaled(w, sum, bios[p]);
  }

  /** The loop of `get_rating` over the seasons. */
  method SumSeasons(w: Weights, ratios: Category, full: Category, fnorms: map<Season, map<PlayerId, real>>,
                    seasons: seq<Season>, p: PlayerId) returns (rating: real)
    requires RatingWeightsReady(w) && SeasonsReady(w, ratios, full, fnorms, seasons, p)
    ensures rating == RatingSum(w, ratios, full, fnorms, seasons, p)
  {
    rating := 0.0;
    var i := 0;
    while i < |seasons|
      invariant 0 <= i <= |seasons|
      invariant SeasonsReady(w, ratios, full, fnorms, seasons[..i], p)
      invariant rating == RatingSum(w, ratios, full, fnorms, seasons[..i], p)
    {
      var s := seasons[i];
      RatingSumStep(w, ratios, full, fnorms, seasons, i, p);
      if p in ratios[s] {
        var sr := SeasonRating(w, ratios[s][p], fnorms[s][p], full[s][p]["gp"]);
        rating := rating + sr * w.years[s];
      }
      i := i + 1;
    }
    assert seasons[..i] == seasons;
  }

  /** One season further, the sum gains that season's term. */
  lemma RatingSumStep(w: Weights, ratios: Category, full: Category, fnorms: map<Season, map<PlayerId, real>>,
                      seasons: seq<Season>, i: nat, p: PlayerId)
    requires RatingWeightsReady(w) && SeasonsReady(w, ratios, full, fnorms, seasons, p) && i < |seasons|
    ensures SeasonReady(w, ratios, full, fnorms, seasons[i], p)
    ensures SeasonsReady(w, ratios, full, fnorms, seasons[..i], p)
    ensures SeasonsReady(w, ratios, full, fnorms, seasons[..i + 1], p)
    ensures RatingSum(w, ratios, full, fnorms, seasons[..i + 1], p)
            == RatingSum(w, ratios, full, fnorms, seasons[..i], p) + SeasonTerm(w, ratios, full, fnorms, seasons[i], p)
  {
    SeasonsReadyPrefix(w, ratios, full, fnorms, seasons, i, p);
    SeasonsReadyPrefix(w, ratios, full, fnorms, seasons, i + 1, p);
    assert seasons[..i + 1][..i] == seasons[..i] && seasons[..i + 1][i] == seasons[i];
  }

  /** The rating's ratio terms spelled out. */
  lemma RatingTermsClosedForm(w: Weights, r: Record)
    requires RatingWeightsReady(w) && HasRatingFields(r)
    ensures WeightedSum(r, RatingTerms(w), "_ratio") ==
      r["points_ratio"] * w.stats["points"] + r["plusMinus_ratio"] * w.stats["plusMinus"]
      + r["shg_ratio"] * w.stats["shg"] + r["faceoff_ratio"] * w.stats["faceoff"]
      + r["blocks_ratio"] * w.stats["blocks"] + r["hits_ratio"] * w.stats["hits"]
      + r["pim_ratio"] * w.stats["pim"] + r["fights_ratio"] * w.stats["fights"]
  {
    var t := RatingTerms(w);
    assert t[0].0 + "_ratio" == "points_ratio" && t[1].0 + "_ratio" == "plusMinus_ratio";
    assert t[2].0 + "_ratio" == "shg_ratio" && t[3].0 + "_ratio" == "faceoff_ratio";
    assert t[4].0 + "_ratio" == "blocks_ratio" && t[5].0 + "_ratio" == "hits_ratio";
    assert t[6].0 + "_ratio" == "pim_ratio" && t[7].0 + "_ratio" == "fights_ratio";
    assert t[..1][..0] == [];
    assert WeightedSum(r, t[..1], "_ratio") == r["points_ratio"] * w.stats["points"];
    assert t[..2][..1] == t[..1];
    assert WeightedSum(r, t[..2], "_ratio") == WeightedSum(r, t[..1], "_ratio") + r["plusMinus_ratio"] * w.stats["plusMinus"];
    assert t[..3][..2] == t[..2];
    assert WeightedSum(r, t[..3], "_ratio") == WeightedSum(r, t[..2], "_ratio") + r["shg_ratio"] * w.stats["shg"];
    assert t[..4][..3] == t[..3];
    assert WeightedSum(r, t[..4], "_ratio") == WeightedSum(r, t[..3], "_ratio") + r["faceoff_ratio"] * w.stats["faceoff"];
    assert t[..5][..4] == t[..4];
    assert WeightedSum(r, t[..5], "_ratio") == WeightedSum(r, t[..4], "_ratio") + r["blocks_ratio"] * w.stats["blocks"];
    assert t[..6][..5] == t[..5];
    assert WeightedSum(r, t[..6], "_ratio") == WeightedSum(r, t[..5], "_ratio") + r["hits_ratio"] * w.stats["hits"];
    assert t[..7][..6] == t[..6];
    assert WeightedSum(r, t[..7], "_ratio") == WeightedSum(r, t[..6], "_ratio") + r["pim_ratio"] * w.stats["pim"];
    assert t[..8][..7] == t[..7];
    assert t[..8] == t;
    assert WeightedSum(r, t, "_ratio") == WeightedSum(r, t[..7], "_ratio") + r["fights_ratio"] * w.stats["fights"];
  }

  /** With the constructor's tables, the season subscore is the eight ratios weighted 0.10,
      0.25, 0.20, 0.45, 0.65, 0.90, 0.65 and 0.80, the normalised fantasy points at weight 1
      and games played over 82 at weight 0.5. */
  lemma DefaultSubscoreClosedForm(r: Record, fnorm: real, gp: real)
    requires HasRatingFields(r)
    ensures RatingWeightsReady(DEFAULT_WEIGHTS)
    ensures SeasonSubscore(DEFAULT_WEIGHTS, r, fnorm, gp) ==
      r["points_ratio"] * 0.10 + r["plusMinus_ratio"] * 0.25 + r["shg_ratio"] * 0.20
      + r["faceoff_ratio"] * 0.45 + r["blocks_ratio"] * 0.65 + r["hits_ratio"] * 0.90
      + r["pim_ratio"] * 0.65 + r["fights_ratio"] * 0.80 + fnorm * 1.00 + (gp / 82.0) * 0.50
  {
    DefaultWeightsPositive();
    RatingTermsClosedForm(DEFAULT_WEIGHTS, r);
  }

  lemma SeasonsReadyPrefix(w: Weights, ratios: Category, full: Category, fnorms: map<Season, map<PlayerId, real>>,
                           seasons: seq<Season>, k: nat, p: PlayerId)
    requires SeasonsReady(w, ratios, full, fnorms, seasons, p) && k <= |seasons|
    ensures SeasonsReady(w, ratios, full, fnorms, seasons[..k], p)
    ensures SeasonsReady(w, ratios, full, fnorms, seasons[k..], p)
  {
    assert forall i :: 0 <= i < k ==> seasons[..k][i] == seasons[i];
    assert forall i :: 0 <= i < |seasons| - k ==> seasons[k..][i] == seasons[k + i];
  }

  /** The rating sum adds up over a split of the seasons. */
  lemma {:induction false} RatingSumSplit(w: Weights, ratios: Category, full: Category,
                                          fnorms: map<Season, map<PlayerId, real>>,
                                          a: seq<Season>, b: seq<Season>, p: PlayerId)
    requires RatingWeightsReady(w) && SeasonsReady(w, ratios, full, fnorms, a + b, p)
    ensures SeasonsReady(w, ratios, full, fnorms, a, p) && SeasonsReady(w, ratios, full, fnorms, b, p)
    ensures RatingSum(w, ratios, full, fnorms, a + b, p)
            == RatingSum(w, ratios, full, fnorms, a, p) + RatingSum(w, ratios, full, fnorms, b, p)
  {
    SeasonsReadyPrefix(w, ratios, full, fnorms, a + b, |a|, p);
    assert (a + b)[..|a|] == a && (a + b)[|a|..] == b;
    if b == [] {
      assert a + b == a;
    } else {
      var n := |b| - 1;
      var ab := a + b;
      assert ab[..|ab| - 1] == a + b[..n] && ab[|ab| - 1] == b[n];
      SeasonsReadyPrefix(w, ratios, full, fnorms, ab, |ab| - 1, p);
      RatingSumSplit(w, ratios, full, fnorms, a, b[..n], p);
      SeasonsReadyPrefix(w, ratios, full, fnorms, b, n, p);
      assert RatingSum(w, ratios, full, fnorms, ab, p)
        == RatingSum(w, ratios, full, fnorms, a + b[..n], p) + SeasonTerm(w, ratios, full, fnorms, b[n], p);
      assert RatingSum(w, ratios, full, fnorms, b, p)
        == RatingSum(w, ratios, full, fnorms, b[..n], p) + SeasonTerm(w, ratios, full, fnorms, b[n], p);
    }
  }

  /** A season in which the player has no ratios contributes nothing, wherever it is listed. */
  lemma RatingIgnoresAbsentSeason(w: Weights, ratios: Category, full: Category,
                                  fnorms: map<Season, map<PlayerId, real>>,
                                  a: seq<Season>, s: Season, b: seq<Season>, p: PlayerId)
    requires RatingWeightsReady(w) && SeasonsReady(w, ratios, full, fnorms, a + [s] + b, p)
    requires s in ratios && p !in ratios[s]
    ensures SeasonsReady(w, ratios, full, fnorms, a + b, p)
    ensures RatingSum(w, ratios, full, fnorms, a + [s] + b, p) == RatingSum(w, ratios, full, fnorms, a + b, p)
  {
    RatingSumSplit(w, ratios, full, fnorms, a + [s], b, p);
    RatingSumSplit(w, ratios, full, fnorms, a, [s], p);
    assert [s][..0] == [];
    forall i | 0 <= i < |a + b| ensures SeasonReady(w, ratios, full, fnorms, (a + b)[i], p) {
      if i < |a| {
        assert (a + b)[i] == (a + [s] + b)[i];
      } else {
        assert (a + b)[i] == (a + [s] + b)[i + 1];
      }
    }
    RatingSumSplit(w, ratios, full, fnorms, a, b, p);
  }

  /** A player with no ratios in any listed season rates 0. */
  lemma RatingAllAbsent(w: Weights, ratios: Category, full: Category, fnorms: map<Season, map<PlayerId, real>>,
                        bios: map<PlayerId, Bio>, seasons: seq<Season>, p: PlayerId)
    requires RatingWeightsReady(w) && SeasonsReady(w, ratios, full, fnorms, seasons, p) && p in bios
    requires forall i :: 0 <= i < |seasons| ==> p !in ratios[seasons[i]]
    ensures Rating(w, ratios, full, fnorms, bios, seasons, p) == 0.0
  {
    RatingSumAllAbsent(w, ratios, full, fnorms, seasons, p);
  }

  lemma {:induction false} RatingSumAllAbsent(w: Weights, ratios: Category, full: Category,
                                              fnorms: map<Season, map<PlayerId, real>>,
                                              seasons: seq<Season>, p: PlayerId)
    requires RatingWeightsReady(w) && SeasonsReady(w, ratios, full, fnorms, seasons, p)
    requires forall i :: 0 <= i < |seasons| ==> p !in ratios[seasons[i]]
    ensures RatingSum(w, ratios, full, fnorms, seasons, p) == 0.0
  {
    if seasons != [] {
      var n := |seasons| - 1;
      SeasonsReadyPrefix(w, ratios, full, fnorms, seasons, n, p);
      assert forall i :: 0 <= i < n ==> seasons[..n][i] == seasons[i];
      RatingSumAllAbsent(w, ratios, full, fnorms, seasons[..n], p);
    }
  }

  /** The ratio tables with one rated ratio of player `p` in season `s` set to `v`. */
  function Raise(w: Weights, ratios: Category, s: Season, p: PlayerId, k: nat, v: real): Category
    requires RatingWeightsReady(w) && s in ratios && p in ratios[s] && k < 8
  {
    ratios[s := ratios[s][p := ratios[s][p][RatioField(RatingTerms(w)[k].0) := v]]]
  }

  /** The raised tables can be rated wherever the original ones could. */
  lemma RaiseKeepsReady(w: Weights, ratios: Category, full: Category, fnorms: map<Season, map<PlayerId, real>>,
                        seasons: seq<Season>, s: Season, p: PlayerId, k: nat, v: real)
    requires RatingWeightsReady(w) && SeasonsReady(w, ratios, full, fnorms, seasons, p)
    requires s in ratios && p in ratios[s] && k < 8
    ensures SeasonsReady(w, Raise(w, ratios, s, p, k, v), full, fnorms, seasons, p)
  {
    var ratios' := Raise(w, ratios, s, p, k, v);
    forall i | 0 <= i < |seasons| ensures SeasonReady(w, ratios', full, fnorms, seasons[i], p) {
      assert SeasonReady(w, ratios, full, fnorms, seasons[i], p);
      if seasons[i] == s {
        assert HasRatingFields(ratios'[s][p]);
      }
    }
  }

  /** Raising one rated ratio in season `s` raises that season's term and leaves the others. */
  lemma SeasonTermRaise(w: Weights, ratios: Category, full: Category, fnorms: map<Season, map<PlayerId, real>>,
                        t: Season, s: Season, p: PlayerId, k: nat, v: real)
    requires PositiveWeights(w) && SeasonReady(w, ratios, full, fnorms, t, p)
    requires s in ratios && p in ratios[s] && k < 8
    requires RatioField(RatingTerms(w)[k].0) in ratios[s][p] && v > ratios[s][p][RatioField(RatingTerms(w)[k].0)]
    ensures SeasonReady(w, Raise(w, ratios, s, p, k, v), full, fnorms, t, p)
    ensures t != s ==> SeasonTerm(w, Raise(w, ratios, s, p, k, v), full, fnorms, t, p) == SeasonTerm(w, ratios, full, fnorms, t, p)
    ensures t == s ==> SeasonTerm(w, Raise(w, ratios, s, p, k, v), full, fnorms, t, p) > SeasonTerm(w, ratios, full, fnorms, t, p)
  {
    var ratios' := Raise(w, ratios, s, p, k, v);
    if t == s {
      var r := ratios[s][p];
      var key := RatioField(RatingTerms(w)[k].0);
      var r' := r[key := v];
      assert ratios'[s][p] == r';
      assert HasRatingFields(r');
      var terms := RatingTerms(w);
      assert forall i :: 0 <= i < |terms| ==> terms[i].1 > 0.0;
      WeightedSumRaise(r, terms, "_ratio", k, v);
      var fn, gp := fnorms[s][p], full[s][p]["gp"];
      var lo, hi := SeasonSubscore(w, r, fn, gp), SeasonSubscore(w, r', fn, gp);
      assert lo < hi;
      StrictProduct(lo, hi, w.years[s]);
      assert SeasonTerm(w, ratios, full, fnorms, s, p) == lo * w.years[s];
      assert SeasonTerm(w, ratios', full, fnorms, s, p) == hi * w.years[s];
    }
  }

  /** Raising one rated ratio of a present season never lowers the rating sum, and raises it
      when that season is listed. */
  lemma {:induction false} RatingSumRaise(w: Weights, ratios: Category, full: Category,
                                          fnorms: map<Season, map<PlayerId, real>>,
                                          seasons: seq<Season>, s: Season, p: PlayerId, k: nat, v: real)
    requires PositiveWeights(w) && SeasonsReady(w, ratios, full, fnorms, seasons, p)
    requires s in ratios && p in ratios[s] && k < 8
    requires RatioField(RatingTerms(w)[k].0) in ratios[s][p] && v > ratios[s][p][RatioField(RatingTerms(w)[k].0)]
    ensures SeasonsReady(w, Raise(w, ratios, s, p, k, v), full, fnorms, seasons, p)
    ensures RatingSum(w, Raise(w, ratios, s, p, k, v), full, fnorms, seasons, p) >= RatingSum(w, ratios, full, fnorms, seasons, p)
    ensures s in seasons ==>
      RatingSum(w, Raise(w, ratios, s, p, k, v), full, fnorms, seasons, p) > RatingSum(w, ratios, full, fnorms, seasons, p)
  {
    var ratios' := Raise(w, ratios, s, p, k, v);
    RaiseKeepsReady(w, ratios, full, fnorms, seasons, s, p, k, v);
    if seasons != [] {
      var n := |seasons| - 1;
      SeasonsReadyPrefix(w, ratios, full, fnorms, seasons, n, p);
      SeasonsReadyPrefix(w, ratios', full, fnorms, seasons, n, p);
      RatingSumRaise(w, ratios, full, fnorms, seasons[..n], s, p, k, v);
      SeasonTermRaise(w, ratios, full, fnorms, seasons[n], s, p, k, v);
      assert RatingSum(w, ratios, full, fnorms, seasons, p)
        == RatingSum(w, ratios, full, fnorms, seasons[..n], p) + SeasonTerm(w, ratios, full, fnorms, seasons[n], p);
      assert RatingSum(w, ratios', full, fnorms, seasons, p)
        == RatingSum(w, ratios', full, fnorms, seasons[..n], p) + SeasonTerm(w, ratios', full, fnorms, seasons[n], p);
      if s in seasons && s != seasons[n] {
        assert s in seasons[..n];
      }
    }
  }

  /** With positive weights, and since the age factor is at least 0.8, raising one rated ratio
      of a listed season strictly raises the rating. */
  lemma RatingRaise(w: Weights, ratios: Category, full: Category, fnorms: map<Season, map<PlayerId, real>>,
                    bios: map<PlayerId, Bio>, seasons: seq<Season>, s: Season, p: PlayerId, k: nat, v: real)
    requires PositiveWeights(w) && SeasonsReady(w, ratios, full, fnorms, seasons, p) && p in bios
    requires s in seasons && s in ratios && p in ratios[s] && k < 8
    requires RatioField(RatingTerms(w)[k].0) in ratios[s][p] && v > ratios[s][p][RatioField(RatingTerms(w)[k].0)]
    ensures SeasonsReady(w, Raise(w, ratios, s, p, k, v), full, fnorms, seasons, p)
    ensures Rating(w, Raise(w, ratios, s, p, k, v), full, fnorms, bios, seasons, p) > Rating(w, ratios, full, fnorms, bios, seasons, p)
  {
    RatingSumRaise(w, ratios, full, fnorms, seasons, s, p, k, v);
    var lo := RatingSum(w, ratios, full, fnorms, seasons, p);
    var hi := RatingSum(w, Raise(w, ratios, s, p, k, v), full, fnorms, seasons, p);
    ScaledRaise(w, lo, hi, bios[p]);
  }

  /** With positive team multipliers, scaling keeps a strict order. */
  lemma ScaledRaise(w: Weights, lo: real, hi: real, bio: Bio)
    requires PositiveWeights(w) && lo < hi
    ensures Scaled(w, lo, bio) < Scaled(w, hi, bio)
  {
    AgeRatioBounds(bio.age);
    var age, team := AgeRatio(bio.age), TeamWeight(w.teams, bio.team);
    assert team > 0.0;
    StrictProduct(lo, hi, age);
    StrictProduct(lo * age, hi * age, team);
  }
}
