/** The listings the data manager hands to the user interface: one row per
    roster player present in a season's "full" table, made of the player's
    "Picked" flag, the player's base information and the season's staged
    statistics. */
module Query {
  import opened Tables
  import opened Fantasy
  import opened Annotations

  /** A cell of a listing row. */
  datatype Value = Flag(b: bool) | Str(s: string) | Int(i: int) | Num(x: real)

  /** A listing row, keyed by column name. */
  type Row = map<string, Value>

  /** The statistics every listing shows, in the order they are staged. */
  const STAGED_STATS: seq<string> := ["hits", "blocks", "pim", "faceoff", "shg", "plusMinus", "points", "fights"]

  /** The columns of the base information. */
  const BASE_KEYS: set<string> := {"Team", "ID", "Name", "Pos", "Age"}

  // ---------------------------------------------------------------------------
  // Base information (`_store_player_data`)
  // ---------------------------------------------------------------------------

  /** A player's base information, from the biography. */
  function BaseOf(id: PlayerId, bio: Bio): (row: Row)
    ensures row.Keys == BASE_KEYS
    ensures row["ID"] == Str(id) && row["Team"] == Str(bio.team) && row["Name"] == Str(bio.name)
    ensures row["Pos"] == Str(bio.position) && row["Age"] == Int(bio.age)
  {
    map["Team" := Str(bio.team), "ID" := Str(id), "Name" := Str(bio.name),
        "Pos" := Str(bio.position), "Age" := Int(bio.age)]
  }

  // ---------------------------------------------------------------------------
  // Staging one season record (`stage_data`)
  // ---------------------------------------------------------------------------

  /** The field suffix of a dataset: "_avg" for "avg"; no suffix when no
      dataset is named (the empty name stands for Python's `None`). */
  function Tag(dataset: string): (tag: string)
    ensures tag == "" <==> dataset == ""
    ensures dataset != "" ==> tag[0] == '_' && tag[1..] == dataset
  {
    if dataset != "" then "_" + dataset else ""
  }

  /** The cells written before the statistics: games played, the rating when
      the row is ranked, and the fantasy points per game. */
  function Header(gp: real, rating: Option<real>, fp: real): Row
  {
    var head := map["GP" := Num(gp)];
    var ranked := if rating.Some? then head["Rating" := Num(rating.value)] else head;
    ranked["FP/GP" := Num(fp)]
  }

  /** The statistic cells, one per stat, written in order. */
  function StatCells(r: Record, stats: seq<string>, tag: string): Row
  {
    if stats == [] then map[]
    else
      var n := |stats| - 1;
      StatCells(r, stats[..n], tag)[stats[n] + tag := Num(GetOr0(r, stats[n] + tag))]
  }

  /** The staged row of one record. */
  function StagedRow(r: Record, rating: Option<real>, tag: string): Row
    requires FantasyReady(r)
  {
    Header(GetOr0(r, "gp"), rating, FantasyPoints(r)) + StatCells(r, STAGED_STATS, tag)
  }

  /** The tagged names of some stats. */
  function Tagged(stats: seq<string>, tag: string): set<string>
  {
    set s | s in stats :: s + tag
  }

  /** The statistic cells are exactly the tagged stat names, each holding the
      record's field of that name, 0 when the record lacks it. */
  lemma {:induction false} StatCellsContents(r: Record, stats: seq<string>, tag: string)
    ensures StatCells(r, stats, tag).Keys == Tagged(stats, tag)
    ensures forall k :: k in StatCells(r, stats, tag) ==> StatCells(r, stats, tag)[k] == Num(GetOr0(r, k))
  {
    if stats != [] {
      var n := |stats| - 1;
      StatCellsContents(r, stats[..n], tag);
      assert stats == stats[..n] + [stats[n]];
      assert Tagged(stats, tag) == Tagged(stats[..n], tag) + {stats[n] + tag};
    }
  }

  /** The name starts with a lower-case letter, as every staged stat does and
      no header, flag or base column does. */
  predicate LowerStart(k: string)
  {
    |k| > 0 && 'a' <= k[0] <= 'z'
  }

  lemma StagedStatsLower()
    ensures forall s :: s in STAGED_STATS ==> LowerStart(s)
  {
  }

  /** Tagging keeps the first letter. */
  lemma TaggedLower(stats: seq<string>, tag: string)
    requires forall s :: s in stats ==> LowerStart(s)
    ensures forall k :: k in Tagged(stats, tag) ==> LowerStart(k)
  {
    forall k | k in Tagged(stats, tag) ensures LowerStart(k) {
      var s :| s in stats && k == s + tag;
      assert k[0] == s[0];
    }
  }

  /** The shape of a staged row whose statistic columns are `keys`: games
      played, fantasy points per game, the rating exactly when ranked, and every
      statistic column holding the record's field of that name, 0 when the
      record lacks it. */
  predicate StagedShape(row: Row, r: Record, gp: real, fp: real, rating: Option<real>, keys: set<string>)
  {
    && row.Keys == {"GP", "FP/GP"} + (if rating.Some? then {"Rating"} else {}) + keys
    && row["GP"] == Num(gp) && row["FP/GP"] == Num(fp)
    && ("Rating" in row <==> rating.Some?)
    && (rating.Some? ==> row["Rating"] == Num(rating.value))
    && (forall k :: k in keys ==> LowerStart(k) && row[k] == Num(GetOr0(r, k)))
  }

  /** What a staged row holds: games played (the record's "gp"), the fantasy
      points per game, the rating exactly when the row is ranked, and for every
      staged stat its tagged field. No cell hides another. */
  lemma StagedRowContents(r: Record, rating: Option<real>, tag: string)
    requires FantasyReady(r)
    ensures StagedShape(StagedRow(r, rating, tag), r, r["gp"], FantasyPoints(r), rating, Tagged(STAGED_STATS, tag))
  {
    StatCellsContents(r, STAGED_STATS, tag);
    StagedStatsLower();
    TaggedLower(STAGED_STATS, tag);
    var cells := StatCells(r, STAGED_STATS, tag);
    assert "GP" !in cells && "FP/GP" !in cells && "Rating" !in cells by {
      forall k | k in cells ensures k != "GP" && k != "FP/GP" && k != "Rating" {
        assert LowerStart(k);
      }
    }
  }

  /** Writing a cell into a merged row writes it into the later part. */
  lemma UpdateUnion(head: Row, cells: Row, k: string, v: Value)
    ensures (head + cells)[k := v] == head + cells[k := v]
  {
  }

  /** `stage_data`: games played, the rating when ranked, the fantasy points
      per game, then the loop over the staged stats. The rating is computed by
      the caller. */
  method StageData(full: Table, player: PlayerId, rating: Option<real>, tag: string) returns (out: Row)
    requires player in full && FantasyReady(full[player])
    ensures out == StagedRow(full[player], rating, tag)
  {
    var r := full[player];
    out := map[];
    out := out["GP" := Num(GetOr0(r, "gp"))];
    if rating.Some? {
      out := out["Rating" := Num(rating.value)];
    }
    var fp := GetFantasyPoints(full, player);
    out := out["FP/GP" := Num(fp)];
    assert out == Header(GetOr0(r, "gp"), rating, fp) + StatCells(r, STAGED_STATS[..0], tag);
    for i := 0 to |STAGED_STATS|
      invariant out == Header(GetOr0(r, "gp"), rating, fp) + StatCells(r, STAGED_STATS[..i], tag)
    {
      var key := STAGED_STATS[i] + tag;
      UpdateUnion(Header(GetOr0(r, "gp"), rating, fp), StatCells(r, STAGED_STATS[..i], tag), key, Num(GetOr0(r, key)));
      out := out[key := Num(GetOr0(r, key))];
      assert STAGED_STATS[..i + 1][..i] == STAGED_STATS[..i];
    }
    assert STAGED_STATS[..|STAGED_STATS|] == STAGED_STATS;
  }

  // ---------------------------------------------------------------------------
  // Rows and listings (`get_totals`, `get_averages`, `get_std`, `get_ratios`,
  // `get_fullset`)
  // ---------------------------------------------------------------------------

  /** A listing row: `{'Picked': ..., **base, **stats}`, later cells winning. */
  function RowOf(picked: bool, base: Row, stats: Row): Row
  {
    map["Picked" := Flag(picked)] + base + stats
  }

  /** A row built from base information and stats that avoid the other
      columns keeps every cell: the flag, each base cell and each stat. */
  lemma RowKeepsEverything(picked: bool, id: PlayerId, bio: Bio, stats: Row)
    requires "Picked" !in stats && stats.Keys !! BASE_KEYS
    ensures var row := RowOf(picked, BaseOf(id, bio), stats);
      && row.Keys == {"Picked"} + BASE_KEYS + stats.Keys
      && row["Picked"] == Flag(picked)
      && (forall k :: k in BASE_KEYS ==> row[k] == BaseOf(id, bio)[k])
      && (forall k :: k in stats ==> row[k] == stats[k])
  {
  }

  /** The five listings. */
  datatype View = Totals | Averages | Deviations | Ratios | FullSet

  /** The stats part of a row of a listing: the totals, averages, standard
      deviations or ratios staged with the rating; the full set merges the
      ranked ratios with the unranked totals, averages and deviations. */
  function ViewStats(view: View, r: Record, rating: real): Row
    requires FantasyReady(r)
  {
    if view == FullSet then
      StagedRow(r, Some(rating), Tag("ratio")) + StagedRow(r, None, Tag(""))
        + StagedRow(r, None, Tag("avg")) + StagedRow(r, None, Tag("sd"))
    else StagedRow(r, Some(rating), ViewTag(view))
  }

  /** The suffix of the single-dataset listings. */
  function ViewTag(view: View): string
  {
    match view
    case Totals => Tag("")
    case Averages => Tag("avg")
    case Deviations => Tag("sd")
    case _ => Tag("ratio")
  }

  /** The stats part of a row, staged as the listings do: one staging, or
      four for the full set. The rating is computed by the caller. */
  method StageView(view: View, full: Table, player: PlayerId, rating: real) returns (cells: Row)
    requires player in full && FantasyReady(full[player])
    ensures cells == ViewStats(view, full[player], rating)
  {
    if view == FullSet {
      var tot := StageData(full, player, None, Tag(""));
      var avg := StageData(full, player, None, Tag("avg"));
      var sd := StageData(full, player, None, Tag("sd"));
      var rat := StageData(full, player, Some(rating), Tag("ratio"));
      cells := rat + tot + avg + sd;
    } else {
      cells := StageData(full, player, Some(rating), ViewTag(view));
    }
  }

  /** The full set holds the rating from the ranked part (the later, unranked
      parts carry none to override it), the games and fantasy points, and every
      staged stat under each of the four tags "_ratio", "", "_avg" and "_sd". */
  lemma FullSetContents(r: Record, rating: real)
    requires FantasyReady(r)
    ensures var row := ViewStats(FullSet, r, rating);
      && row.Keys == {"GP", "FP/GP", "Rating"} + Tagged(STAGED_STATS, "_ratio") + Tagged(STAGED_STATS, "")
                     + Tagged(STAGED_STATS, "_avg") + Tagged(STAGED_STATS, "_sd")
      && row["Rating"] == Num(rating)
      && row["GP"] == Num(r["gp"]) && row["FP/GP"] == Num(FantasyPoints(r))
      && (forall k :: k in row && k !in {"GP", "FP/GP", "Rating"} ==> LowerStart(k) && row[k] == Num(GetOr0(r, k)))
  {
    assert Tag("ratio") == "_ratio" && Tag("avg") == "_avg" && Tag("sd") == "_sd";
    StagedRowContents(r, Some(rating), "_ratio");
    StagedRowContents(r, None, "");
    StagedRowContents(r, None, "_avg");
    StagedRowContents(r, None, "_sd");
    MergeShapes(StagedRow(r, Some(rating), "_ratio"), StagedRow(r, None, ""),
                StagedRow(r, None, "_avg"), StagedRow(r, None, "_sd"), r, r["gp"], FantasyPoints(r), rating,
                Tagged(STAGED_STATS, "_ratio"), Tagged(STAGED_STATS, ""),
                Tagged(STAGED_STATS, "_avg"), Tagged(STAGED_STATS, "_sd"));
  }

  /** Merging a ranked staged row with three unranked ones of the same record:
      the rating survives, and no statistic column is shadowed by a header. */
  lemma MergeShapes(a: Row, b: Row, c: Row, d: Row, r: Record, gp: real, fp: real, rating: real,
                    ka: set<string>, kb: set<string>, kc: set<string>, kd: set<string>)
    requires StagedShape(a, r, gp, fp, Some(rating), ka) && StagedShape(b, r, gp, fp, None, kb)
    requires StagedShape(c, r, gp, fp, None, kc) && StagedShape(d, r, gp, fp, None, kd)
    ensures var row := a + b + c + d;
      && row.Keys == {"GP", "FP/GP", "Rating"} + ka + kb + kc + kd
      && row["Rating"] == Num(rating)
      && row["GP"] == Num(gp) && row["FP/GP"] == Num(fp)
      && (forall k :: k in row && k !in {"GP", "FP/GP", "Rating"} ==> LowerStart(k) && row[k] == Num(GetOr0(r, k)))
  {
    var row := a + b + c + d;
    assert "Rating" !in b && "Rating" !in c && "Rating" !in d;
    forall k | k in row && k !in {"GP", "FP/GP", "Rating"} ensures LowerStart(k) && row[k] == Num(GetOr0(r, k)) {
      if k in d { assert k in kd; } else if k in c { assert k in kc; } else if k in b { assert k in kb; } else { assert k in ka; }
    }
  }

  /** Columns that are headers or start with a lower-case letter are never
      the flag or a base column. */
  lemma ColumnsAvoidBase(stats: Row)
    requires forall k :: k in stats ==> k in {"GP", "FP/GP", "Rating"} || LowerStart(k)
    ensures "Picked" !in stats && stats.Keys !! BASE_KEYS
  {
  }

  /** The stats of every listing avoid the flag and base columns. */
  lemma ViewStatsAvoidsBase(view: View, r: Record, rating: real)
    requires FantasyReady(r)
    ensures "Picked" !in ViewStats(view, r, rating) && ViewStats(view, r, rating).Keys !! BASE_KEYS
  {
    var stats := ViewStats(view, r, rating);
    if view == FullSet {
      FullSetContents(r, rating);
    } else {
      StagedRowContents(r, Some(rating), ViewTag(view));
    }
    ColumnsAvoidBase(stats);
  }

  /** The players of the roster present in the season, in roster order. */
  function InSeason(players: seq<PlayerId>, full: Table): seq<PlayerId>
  {
    if players == [] then []
    else
      var n := |players| - 1;
      InSeason(players[..n], full) + (if players[n] in full then [players[n]] else [])
  }

  /** Each player present in the season appears as often as on the roster; a
      player absent from the season not at all. */
  lemma {:induction false} InSeasonCount(players: seq<PlayerId>, full: Table, x: PlayerId)
    ensures multiset(InSeason(players, full))[x] == if x in full then multiset(players)[x] else 0
  {
    if players != [] {
      var n := |players| - 1;
      InSeasonCount(players[..n], full, x);
      assert players == players[..n] + [players[n]];
    }
  }

  /** A listed player of the season has what a row needs: an annotation,
      base information, a rating and a record the fantasy points can be read
      from. */
  predicate ListingReady(players: seq<PlayerId>, full: Table, meta: Meta, base: map<PlayerId, Row>,
                         ratings: map<PlayerId, real>)
  {
    forall p :: p in players && p in full ==> p in meta && p in base && p in ratings && FantasyReady(full[p])
  }

  /** A listing: for every roster player present in the season, in roster
      order, the row of the view. */
  function Listing(view: View, players: seq<PlayerId>, full: Table, meta: Meta, base: map<PlayerId, Row>,
                   ratings: map<PlayerId, real>): seq<Row>
    requires ListingReady(players, full, meta, base, ratings)
  {
    if players == [] then []
    else
      var n := |players| - 1;
      assert forall p :: p in players[..n] ==> p in players;
      var p := players[n];
      Listing(view, players[..n], full, meta, base, ratings)
        + (if p in full then [RowOf(meta[p].picked, base[p], ViewStats(view, full[p], ratings[p]))] else [])
  }

  /** One more roster player considered by the listing loop. */
  lemma ListingStep(view: View, players: seq<PlayerId>, full: Table, meta: Meta, base: map<PlayerId, Row>,
                    ratings: map<PlayerId, real>, i: nat)
    requires i < |players| && ListingReady(players, full, meta, base, ratings)
    ensures ListingReady(players[..i], full, meta, base, ratings)
    ensures ListingReady(players[..i + 1], full, meta, base, ratings)
    ensures var p := players[i];
      Listing(view, players[..i + 1], full, meta, base, ratings) ==
        Listing(view, players[..i], full, meta, base, ratings)
          + (if p in full then [RowOf(meta[p].picked, base[p], ViewStats(view, full[p], ratings[p]))] else [])
  {
    assert players[..i + 1][..i] == players[..i];
    assert forall p :: p in players[..i + 1] ==> p in players;
  }

  /** The listing has one row per roster player present in the season, and
      the k-th row is that player's flag, base information and stats. */
  lemma {:induction false} ListingRows(view: View, players: seq<PlayerId>, full: Table, meta: Meta,
                                       base: map<PlayerId, Row>, ratings: map<PlayerId, real>)
    requires ListingReady(players, full, meta, base, ratings)
    ensures |Listing(view, players, full, meta, base, ratings)| == |InSeason(players, full)|
    ensures forall k :: 0 <= k < |InSeason(players, full)| ==>
      var p := InSeason(players, full)[k];
      p in players && p in full && p in meta && p in base && p in ratings && FantasyReady(full[p])
      && Listing(view, players, full, meta, base, ratings)[k] == RowOf(meta[p].picked, base[p], ViewStats(view, full[p], ratings[p]))
  {
    if players != [] {
      var n := |players| - 1;
      assert forall p :: p in players[..n] ==> p in players;
      ListingRows(view, players[..n], full, meta, base, ratings);
    }
  }
}
