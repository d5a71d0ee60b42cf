/** The engine's fixed configuration: tracked stats, seasons and weight tables. */
module Config {
  import opened Tables

  /** The stats whose `<stat>_ratio` fields are normalised, in order. */
  const STATS: seq<string> := ["points", "plusMinus", "shg", "faceoff", "blocks", "hits", "pim", "fights", "age"]

  /** The configured seasons, oldest first. */
  const SEASONS: seq<Season> := ["20222023", "20232024", "20242025"]

  /** Per-stat weights of the rating formula ("gp" weights games played over 82,
      "fr" the normalised fantasy points; "age" and "team" are not used by the rating). */
  const STATS_WEIGHTS: map<string, real> := map[
    "points" := 0.10, "plusMinus" := 0.25, "shg" := 0.20, "faceoff" := 0.45,
    "blocks" := 0.65, "hits" := 0.90, "pim" := 0.65, "gp" := 0.50,
    "fights" := 0.80, "age" := 0.50, "fr" := 1.00, "team" := 0.20]

  /** Recency weight of each season. */
  const YEAR_WEIGHTS: map<Season, real> := map["20222023" := 0.3, "20232024" := 0.5, "20242025" := 0.9]

  /** Team-strength multiplier of each team code. */
  const TEAM_WEIGHTS: map<string, real> := map[
    "ARI" := 0.99, "ANA" := 1.01, "BOS" := 1.09, "BUF" := 1.02, "CGY" := 1.05,
    "CAR" := 0.99, "CBJ" := 1.06, "CHI" := 0.94, "COL" := 0.93, "DAL" := 0.91,
    "DET" := 1.01, "EDM" := 0.90, "FLA" := 1.10, "LAK" := 0.98, "MIN" := 0.92,
    "MTL" := 1.07, "NSH" := 1.03, "NJD" := 1.04, "NYI" := 1.01, "NYR" := 1.06,
    "OTT" := 1.07, "PHI" := 1.02, "PIT" := 0.99, "SJS" := 0.95, "SEA" := 0.98,
    "STL" := 1.02, "TBL" := 0.94, "TOR" := 1.06, "VAN" := 1.09, "VGK" := 0.98,
    "WPG" := 1.04]

  /** The fantasy-point weights, in the order the source's dictionary lists them. */
  const FANTASY_WEIGHTS: seq<(string, real)> := [
    ("points", 0.5), ("plusMinus", 2.0), ("faceoff", 1.0), ("shg", 2.0),
    ("blocks", 3.0), ("pim", 5.0), ("hits", 7.0)]

  /** The three weight tables a `DataManager` is constructed with. */
  datatype Weights = Weights(stats: map<string, real>, years: map<Season, real>, teams: map<string, real>)

  /** The tables of the constructor. */
  const DEFAULT_WEIGHTS: Weights := Weights(STATS_WEIGHTS, YEAR_WEIGHTS, TEAM_WEIGHTS)

  /** `team_weights.get(team, 1.0)`. */
  function TeamWeight(teams: map<string, real>, team: string): real
  {
    if team in teams then teams[team] else 1.0
  }

  /** Every configured team multiplier, including the default for unknown codes, lies in [0.9, 1.1]. */
  lemma TeamWeightRange(team: string)
    ensures 0.9 <= TeamWeight(TEAM_WEIGHTS, team) <= 1.1
  {
    TeamWeightsInBand();
  }

  lemma TeamWeightsInBand()
    ensures forall t :: t in TEAM_WEIGHTS ==> 0.9 <= TEAM_WEIGHTS[t] <= 1.1
  {
  }

  /** Every season recency weight is positive. */
  lemma YearWeightsPositive(s: Season)
    requires s in YEAR_WEIGHTS
    ensures YEAR_WEIGHTS[s] > 0.0
  {
  }

  /** Every configured season has a recency weight, and more recent seasons weigh more. */
  lemma YearWeightsIncreasing(i: nat, j: nat)
    requires i < j < |SEASONS|
    ensures SEASONS[i] in YEAR_WEIGHTS && SEASONS[j] in YEAR_WEIGHTS
    ensures YEAR_WEIGHTS[SEASONS[i]] < YEAR_WEIGHTS[SEASONS[j]]
  {
  }
}
