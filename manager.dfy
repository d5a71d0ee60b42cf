/** The data manager: the tables loaded at start-up, the values derived from
    them and the user's annotations, kept in one object whose methods fill and
    update its fields in place. */
module Manager {
  import opened Tables
  import opened Config
  import opened Fantasy
  import opened Normalization
  import opened TeamScores
  import opened PlayerRating
  import opened Stitching
  import opened Annotations
  import opened Query
  import SeasonFiles
  import PlayerList

  // ---------------------------------------------------------------------------
  // Per-season results (`_store_normalized_ratios`, `_store_team_fantasy_scores`,
  // `_store_fantasy_norms`)
  // ---------------------------------------------------------------------------

  /** The per-season results gathered in season order; the first season whose
      computation fails ends the gathering with its error. */
  function BySeason<V>(seasons: seq<Season>, per: map<Season, Result<V>>): Result<map<Season, V>>
    requires forall s :: s in seasons ==> s in per
  {
    if seasons == [] then Ok(map[])
    else
      var n := |seasons| - 1;
      assert forall s :: s in seasons[..n] ==> s in seasons;
      match BySeason(seasons[..n], per)
      case Err(e) => Err(e)
      case Ok(m) => if per[seasons[n]].Err? then Err(per[seasons[n]].error) else Ok(m[seasons[n] := per[seasons[n]].value])
  }

  /** The gathering fails at season index `i`: every earlier season succeeds,
      season `i` fails, and its error is the one reported. */
  predicate FailsAt<V>(seasons: seq<Season>, per: map<Season, Result<V>>, i: int)
    requires forall s :: s in seasons ==> s in per
  {
    && 0 <= i < |seasons|
    && per[seasons[i]].Err?
    && (forall j :: 0 <= j < i ==> per[seasons[j]].Ok?)
    && BySeason(seasons, per) == Err(per[seasons[i]].error)
  }

  /** The gathering succeeds exactly when every season succeeds, and then it
      maps each season, and nothing else, to that season's value; when it
      fails, it reports the first failing season's error. */
  lemma {:induction false} BySeasonContents<V>(seasons: seq<Season>, per: map<Season, Result<V>>)
    requires forall s :: s in seasons ==> s in per
    ensures BySeason(seasons, per).Ok? <==> (forall i :: 0 <= i < |seasons| ==> per[seasons[i]].Ok?)
    ensures BySeason(seasons, per).Ok? ==>
      && (forall s :: s in BySeason(seasons, per).value <==> s in seasons)
      && (forall s :: s in BySeason(seasons, per).value ==> per[s] == Ok(BySeason(seasons, per).value[s]))
    ensures BySeason(seasons, per).Err? ==> exists i :: FailsAt(seasons, per, i)
  {
    if seasons != [] {
      var n := |seasons| - 1;
      var init := seasons[..n];
      assert forall s :: s in init ==> s in seasons;
      BySeasonContents(init, per);
      assert forall i :: 0 <= i < n ==> init[i] == seasons[i];
      assert forall s :: s in seasons <==> s in init || s == seasons[n];
      if BySeason(init, per).Err? {
        var i :| FailsAt(init, per, i);
        assert FailsAt(seasons, per, i);
      } else if per[seasons[n]].Err? {
        assert FailsAt(seasons, per, n);
      }
    }
  }

  /** One more season processed by a store loop. */
  lemma BySeasonStep<V>(seasons: seq<Season>, per: map<Season, Result<V>>, i: nat)
    requires forall s :: s in seasons ==> s in per
    requires i < |seasons|
    ensures forall s :: s in seasons[..i + 1] ==> s in per
    ensures forall s :: s in seasons[..i] ==> s in per
    ensures BySeason(seasons[..i + 1], per) ==
      match BySeason(seasons[..i], per)
      case Err(e) => Err(e)
      case Ok(m) => if per[seasons[i]].Err? then Err(per[seasons[i]].error) else Ok(m[seasons[i] := per[seasons[i]].value])
  {
    assert forall s :: s in seasons[..i + 1] ==> s in seasons;
    assert seasons[..i + 1][..i] == seasons[..i];
  }

  /** Once the gathering of a prefix has failed, the whole gathering fails
      with the same error. */
  lemma {:induction false} BySeasonErrPersists<V>(seasons: seq<Season>, per: map<Season, Result<V>>, k: nat)
    requires forall s :: s in seasons ==> s in per
    requires k <= |seasons|
    ensures forall s :: s in seasons[..k] ==> s in per
    ensures BySeason(seasons[..k], per).Err? ==> BySeason(seasons, per) == BySeason(seasons[..k], per)
    decreases |seasons| - k
  {
    assert forall s :: s in seasons[..k] ==> s in seasons;
    if k < |seasons| {
      BySeasonErrPersists(seasons, per, k + 1);
      BySeasonStep(seasons, per, k);
    } else {
      assert seasons[..k] == seasons;
    }
  }

  /** `normalize_ratios(s)` for every configured season. */
  function NormsPer(ratios: Category, players: seq<PlayerId>, stats: seq<string>, seasons: seq<Season>)
    : map<Season, Result<Table>>
    requires forall s :: s in seasons ==> s in ratios && RatiosReady(ratios[s], players, stats)
  {
    map s | s in seasons :: NormalizeSpec(ratios[s], players, stats)
  }

  /** `get_team_fantasy_scores(s)` for every configured season. */
  function TeamScoresPer(full: Category, bios: map<PlayerId, Bio>, players: seq<PlayerId>, seasons: seq<Season>)
    : map<Season, Result<map<string, real>>>
    requires forall s :: s in seasons ==> s in full && TeamReady(full[s], bios, players)
  {
    map s | s in seasons :: TeamScoresSpec(full[s], bios, players)
  }

  /** `get_normalized_fantasy_points(s)` for every configured season. */
  function FantasyNormsPer(full: Category, players: seq<PlayerId>, seasons: seq<Season>)
    : map<Season, Result<map<PlayerId, real>>>
    requires forall s :: s in seasons ==> s in full && FullReady(full[s], players)
  {
    map s | s in seasons :: FantasyNormSpec(full[s], players)
  }

  /** What the stored ratio norms hold once every season succeeds: for every
      configured season, the normalised ratios of that season, all in [0,1]. */
  lemma StoredNormsInUnit(ratios: Category, players: seq<PlayerId>, stats: seq<string>, seasons: seq<Season>,
                          s: Season, p: PlayerId, j: nat)
    requires forall s :: s in seasons ==> s in ratios && RatiosReady(ratios[s], players, stats)
    requires BySeason(seasons, NormsPer(ratios, players, stats, seasons)).Ok?
    requires var norms := BySeason(seasons, NormsPer(ratios, players, stats, seasons)).value;
      s in norms && p in norms[s] && j < |stats|
    ensures s in seasons
    ensures var norms := BySeason(seasons, NormsPer(ratios, players, stats, seasons)).value;
      NormalizeSpec(ratios[s], players, stats) == Ok(norms[s])
      && NormField(stats[j]) in norms[s][p] && 0.0 <= norms[s][p][NormField(stats[j])] <= 1.0
  {
    BySeasonContents(seasons, NormsPer(ratios, players, stats, seasons));
    NormalizeShape(ratios[s], players, stats);
    NormalizedInUnit(ratios[s], players, stats, p, j);
  }

  /** The loop of `_store_normalized_ratios`, season by season, over the
      "ratios" category. */
  method GatherNorms(ratios: Category, players: seq<PlayerId>, stats: seq<string>, seasons: seq<Season>,
                     ghost per: map<Season, Result<Table>>)
    returns (norms: Category, err: Option<Error>)
    requires forall s :: s in seasons ==> s in ratios && RatiosReady(ratios[s], players, stats)
    requires forall s :: s in seasons ==> s in per && per[s] == NormalizeSpec(ratios[s], players, stats)
    ensures err.None? <==> BySeason(seasons, per).Ok?
    ensures err.None? ==> norms == BySeason(seasons, per).value
    ensures err.Some? ==> err.value == BySeason(seasons, per).error
  {
    norms := map[];
    assert seasons[..0] == [];
    for i := 0 to |seasons|
      invariant forall s :: s in seasons[..i] ==> s in per
      invariant BySeason(seasons[..i], per) == Ok(norms)
    {
      BySeasonStep(seasons, per, i);
      var t := NormalizeRatios(ratios[seasons[i]], players, stats);
      if t.Err? {
        BySeasonErrPersists(seasons, per, i + 1);
        return norms, Some(t.error);
      }
      norms := norms[seasons[i] := t.value];
    }
    assert seasons[..|seasons|] == seasons;
    err := None;
  }

  /** The loop of `_store_team_fantasy_scores`. */
  method GatherTeamScores(full: Category, bios: map<PlayerId, Bio>, players: seq<PlayerId>, seasons: seq<Season>,
                          ghost per: map<Season, Result<map<string, real>>>)
    returns (scores: map<Season, map<string, real>>, err: Option<Error>)
    requires forall s :: s in seasons ==> s in full && TeamReady(full[s], bios, players)
    requires forall s :: s in seasons ==> s in per && per[s] == TeamScoresSpec(full[s], bios, players)
    ensures err.None? <==> BySeason(seasons, per).Ok?
    ensures err.None? ==> scores == BySeason(seasons, per).value
    ensures err.Some? ==> err.value == BySeason(seasons, per).error
  {
    scores := map[];
    assert seasons[..0] == [];
    for i := 0 to |seasons|
      invariant forall s :: s in seasons[..i] ==> s in per
      invariant BySeason(seasons[..i], per) == Ok(scores)
    {
      BySeasonStep(seasons, per, i);
      var t := GetTeamFantasyScores(full[seasons[i]], bios, players);
      if t.Err? {
        BySeasonErrPersists(seasons, per, i + 1);
        return scores, Some(t.error);
      }
      scores := scores[seasons[i] := t.value];
    }
    assert seasons[..|seasons|] == seasons;
    err := None;
  }

  /** The loop of `_store_fantasy_norms`. */
  method GatherFantasyNorms(full: Category, players: seq<PlayerId>, seasons: seq<Season>,
                            ghost per: map<Season, Result<map<PlayerId, real>>>)
    returns (norms: map<Season, map<PlayerId, real>>, err: Option<Error>)
    requires forall s :: s in seasons ==> s in full && FullReady(full[s], players)
    requires forall s :: s in seasons ==> s in per && per[s] == FantasyNormSpec(full[s], players)
    ensures err.None? <==> BySeason(seasons, per).Ok?
    ensures err.None? ==> norms == BySeason(seasons, per).value
    ensures err.Some? ==> err.value == BySeason(seasons, per).error
  {
    norms := map[];
    assert seasons[..0] == [];
    for i := 0 to |seasons|
      invariant forall s :: s in seasons[..i] ==> s in per
      invariant BySeason(seasons[..i], per) == Ok(norms)
    {
      BySeasonStep(seasons, per, i);
      var t := NormalizeFantasyPoints(full[seasons[i]], players);
      if t.Err? {
        BySeasonErrPersists(seasons, per, i + 1);
        return norms, Some(t.error);
      }
      norms := norms[seasons[i] := t.value];
    }
    assert seasons[..|seasons|] == seasons;
    err := None;
  }

  // ---------------------------------------------------------------------------
  // The manager
  // ---------------------------------------------------------------------------

  /** The base information of the roster: every roster player, from the
      biography. */
  ghost predicate HoldsBase(base: map<PlayerId, Row>, before: map<PlayerId, Row>, players: seq<PlayerId>,
                            bios: map<PlayerId, Bio>)
  {
    && (forall p :: p in base ==> p in before || p in players)
    && (forall p :: p in players ==> p in base && p in bios && base[p] == BaseOf(p, bios[p]))
    && (forall p :: p in before && p !in players ==> p in base && base[p] == before[p])
  }

  /** One more roster player stored by `_store_player_data`. */
  lemma HoldsBaseStep(base: map<PlayerId, Row>, before: map<PlayerId, Row>, players: seq<PlayerId>,
                      bios: map<PlayerId, Bio>, i: nat)
    requires i < |players| && players[i] in bios
    requires HoldsBase(base, before, players[..i], bios)
    ensures HoldsBase(base[players[i] := BaseOf(players[i], bios[players[i]])], before, players[..i + 1], bios)
  {
    var q := players[i];
    var b := BaseOf(q, bios[q]);
    var after := base[q := b];
    assert players[..i + 1] == players[..i] + [q];
    forall p | p in after ensures p in before || p in players[..i + 1] {
      if p != q {
        assert p in base;
      }
    }
    forall p | p in players[..i + 1] ensures p in after && p in bios && after[p] == BaseOf(p, bios[p]) {
      if p != q {
        assert p in players[..i];
      }
    }
    forall p | p in before && p !in players[..i + 1] ensures p in after && after[p] == before[p] {
      assert p != q && p !in players[..i];
    }
  }

  class DataManager {
    var weights: Weights
    var stats: seq<string>
    var data: map<string, Category>
    var bios: map<PlayerId, Bio>
    var players: seq<PlayerId>
    var seasons: seq<Season>
    var meta: Meta
    var base: map<PlayerId, Row>
    var teamFantasyScores: map<Season, map<string, real>>
    var fantasyNorms: map<Season, map<PlayerId, real>>

    /** Start-up up to the loading of the season files: the configured weights,
        stats and seasons, the biographies, the active roster read from the
        roster lines, the annotations restored from the snapshot (or blank),
        and the season files of the data directory. */
    constructor (bioTable: map<PlayerId, Bio>, lines: seq<string>, snapshot: Option<Meta>,
                 files: map<string, Table>, listing: seq<string>)
      requires PlayerList.ActivePlayers(lines, bioTable).Ok?
      ensures weights == DEFAULT_WEIGHTS && stats == STATS && seasons == SEASONS
      ensures bios == bioTable && players == PlayerList.ActivePlayers(lines, bioTable).value
      ensures snapshot.Some? ==> meta == snapshot.value
      ensures snapshot.None? ==> (forall p :: p in meta <==> p in players) && (forall p :: p in meta ==> meta[p] == BLANK)
      ensures data == SeasonFiles.LoadAll(map[], files, listing)
      ensures base == map[] && teamFantasyScores == map[] && fantasyNorms == map[]
    {
      var roster := PlayerList.ActivePlayers(lines, bioTable).value;
      var annotations := LoadMeta(snapshot, roster);
      var loaded := SeasonFiles.LoadBulkData(files, listing);
      weights := DEFAULT_WEIGHTS;
      stats := STATS;
      bios := bioTable;
      players := roster;
      seasons := SEASONS;
      meta := annotations;
      base := map[];
      teamFantasyScores := map[];
      fantasyNorms := map[];
      data := loaded;
    }

    /** `_add_ratios_to_data`: the "ratios" category is stitched from "full"
        and the biographies; nothing else changes. */
    method AddRatiosToData()
      requires "full" in data && "ratios" in data && Ready(data["ratios"], data["full"], bios, players, seasons)
      modifies this`data
      ensures data == old(data)["ratios" := StitchAll(old(data)["ratios"], old(data)["full"], bios, players, seasons)]
    {
      var stitched := AddRatios(data["ratios"], data["full"], bios, players, seasons);
      data := data["ratios" := stitched];
    }

    /** `_store_normalized_ratios`: the "norms" category gets every configured
        season's normalised ratios, or the loop stops at the first season with
        an empty population and reports it. */
    method StoreNormalizedRatios() returns (err: Option<Error>)
      requires "ratios" in data
      requires forall s :: s in seasons ==> s in data["ratios"] && RatiosReady(data["ratios"][s], players, stats)
      modifies this`data
      ensures var res := BySeason(seasons, NormsPer(old(data)["ratios"], players, stats, seasons));
        && (err.None? <==> res.Ok?)
        && (res.Ok? ==> data == old(data)["norms" := res.value])
        && (res.Err? ==> err == Some(res.error))
      ensures "norms" in data && data.Keys == old(data).Keys + {"norms"}
      ensures forall c :: c in old(data) && c != "norms" ==> data[c] == old(data)[c]
    {
      var norms;
      norms, err := GatherNorms(data["ratios"], players, stats, seasons, NormsPer(data["ratios"], players, stats, seasons));
      data := data["norms" := norms];
    }

    /** `_store_team_fantasy_scores`: every configured season's normalised
        team scores, or the first failing season's error. */
    method StoreTeamFantasyScores() returns (err: Option<Error>)
      requires "full" in data
      requires forall s :: s in seasons ==> s in data["full"] && TeamReady(data["full"][s], bios, players)
      modifies this`teamFantasyScores
      ensures var res := BySeason(seasons, TeamScoresPer(data["full"], bios, players, seasons));
        && (err.None? <==> res.Ok?)
        && (res.Ok? ==> teamFantasyScores == res.value)
        && (res.Err? ==> err == Some(res.error))
    {
      teamFantasyScores, err := GatherTeamScores(data["full"], bios, players, seasons,
                                                 TeamScoresPer(data["full"], bios, players, seasons));
    }

    /** `_store_fantasy_norms`: every configured season's normalised fantasy
        points, or the first failing season's error. */
    method StoreFantasyNorms() returns (err: Option<Error>)
      requires "full" in data
      requires forall s :: s in seasons ==> s in data["full"] && FullReady(data["full"][s], players)
      modifies this`fantasyNorms
      ensures var res := BySeason(seasons, FantasyNormsPer(data["full"], players, seasons));
        && (err.None? <==> res.Ok?)
        && (res.Ok? ==> fantasyNorms == res.value)
        && (res.Err? ==> err == Some(res.error))
    {
      fantasyNorms, err := GatherFantasyNorms(data["full"], players, seasons, FantasyNormsPer(data["full"], players, seasons));
    }

    /** `_store_player_data`: every roster player's base information, from
        the biography; other entries are kept. */
    method StorePlayerData()
      requires forall p :: p in players ==> p in bios
      modifies this`base
      ensures HoldsBase(base, old(base), players, bios)
    {
      for i := 0 to |players|
        invariant HoldsBase(base, old(base), players[..i], bios)
      {
        HoldsBaseStep(base, old(base), players, bios, i);
        var player := players[i];
        base := base[player := BaseOf(player, bios[player])];
      }
      assert players[..|players|] == players;
    }

    /** `set_pick`: only the player's flag changes. */
    method SetPick(player: PlayerId, pick: bool)
      requires player in meta
      modifies this`meta
      ensures meta == Pick(old(meta), player, pick)
    {
      meta := meta[player := meta[player].(picked := pick)];
    }

    /** `set_note`: only the player's note changes. */
    method SetNote(player: PlayerId, note: string)
      requires player in meta
      modifies this`meta
      ensures meta == Note(old(meta), player, note)
    {
      meta := meta[player := meta[player].(note := note)];
    }

    /** The lookups `get_rating(p)` makes succeed. */
    predicate RatingReady(p: PlayerId)
      reads this
    {
      && "ratios" in data && "full" in data && RatingWeightsReady(weights) && p in bios
      && SeasonsReady(weights, data["ratios"], data["full"], fantasyNorms, seasons, p)
    }

    /** The rating of every roster player that can be rated. */
    function Ratings(): (rs: map<PlayerId, real>)
      reads this
      ensures forall p :: p in rs <==> p in players && RatingReady(p)
    {
      map p | p in players && RatingReady(p) :: Rating(weights, data["ratios"], data["full"], fantasyNorms, bios, seasons, p)
    }

    /** `get_rating(p)` over the manager's tables. */
    method GetRating(p: PlayerId) returns (rating: real)
      requires RatingReady(p)
      ensures rating == Rating(weights, data["ratios"], data["full"], fantasyNorms, bios, seasons, p)
    {
      rating := PlayerRating.GetRating(weights, data["ratios"], data["full"], fantasyNorms, bios, seasons, p);
    }

    /** The loop shared by the five listings: every roster player present in
        the season's "full" table, in roster order, gives one row. */
    method ListView(view: View, season: Season) returns (rows: seq<Row>)
      requires "full" in data && season in data["full"]
      requires ListingReady(players, data["full"][season], meta, base, Ratings())
      ensures rows == Listing(view, players, data["full"][season], meta, base, Ratings())
    {
      var full := data["full"][season];
      ghost var ratings := Ratings();
      rows := [];
      for i := 0 to |players|
        invariant ListingReady(players[..i], full, meta, base, ratings)
        invariant rows == Listing(view, players[..i], full, meta, base, ratings)
      {
        var player := players[i];
        ListingStep(view, players, full, meta, base, ratings, i);
        if player in full {
          var rating := GetRating(player);
          var cells := StageView(view, full, player, rating);
          rows := rows + [RowOf(meta[player].picked, base[player], cells)];
        }
      }
      assert players[..|players|] == players;
    }

    /** `get_totals(season)`. */
    method GetTotals(season: Season) returns (rows: seq<Row>)
      requires "full" in data && season in data["full"]
      requires ListingReady(players, data["full"][season], meta, base, Ratings())
      ensures rows == Listing(Totals, players, data["full"][season], meta, base, Ratings())
    {
      rows := ListView(Totals, season);
    }

    /** `get_averages(season)`. */
    method GetAverages(season: Season) returns (rows: seq<Row>)
      requires "full" in data && season in data["full"]
      requires ListingReady(players, data["full"][season], meta, base, Ratings())
      ensures rows == Listing(Averages, players, data["full"][season], meta, base, Ratings())
    {
      rows := ListView(Averages, season);
    }

    /** `get_std(season)`. */
    method GetStd(season: Season) returns (rows: seq<Row>)
      requires "full" in data && season in data["full"]
      requires ListingReady(players, data["full"][season], meta, base, Ratings())
      ensures rows == Listing(Deviations, players, data["full"][season], meta, base, Ratings())
    {
      rows := ListView(Deviations, season);
    }

    /** `get_ratios(season)`. */
    method GetRatios(season: Season) returns (rows: seq<Row>)
      requires "full" in data && season in data["full"]
      requires ListingReady(players, data["full"][season], meta, base, Ratings())
      ensures rows == Listing(Ratios, players, data["full"][season], meta, base, Ratings())
    {
      rows := ListView(Ratios, season);
    }

    /** `get_fullset(season)`. */
    method GetFullset(season: Season) returns (rows: seq<Row>)
      requires "full" in data && season in data["full"]
      requires ListingReady(players, data["full"][season], meta, base, Ratings())
      ensures rows == Listing(FullSet, players, data["full"][season], meta, base, Ratings())
    {
      rows := ListView(FullSet, season);
    }
  }
}
