/** Completing the "ratios" tables before normalisation: for every roster
    player and configured season in which the player appears in "full", the
    player's ratio record receives the faceoff and fight ratios copied from
    "full" and the age factor from the biography. */
module Stitching {
  import opened Tables
  import opened AgeCurve

  /** The three fields one stitch writes. */
  function StitchRecord(r: Record, fullRec: Record, age: int): Record
    requires "faceoff_ratio" in fullRec && "fights_ratio" in fullRec
  {
    r["faceoff_ratio" := fullRec["faceoff_ratio"]]["fights_ratio" := fullRec["fights_ratio"]]
     ["age_ratio" := AgeRatio(age)]
  }

  /** The player appears in the season's "full" table with both ratios to
      copy, and has a biography. */
  predicate Copyable(full: Category, bios: map<PlayerId, Bio>, p: PlayerId, s: Season)
  {
    s in full && p in full[s] && p in bios && "faceoff_ratio" in full[s][p] && "fights_ratio" in full[s][p]
  }

  /** The lookups the stitching makes succeed: every configured season has a
      "full" table, and a roster player found in a season's "full" table has a
      ratio record, both copied fields and a biography. */
  predicate Ready(ratios: Category, full: Category, bios: map<PlayerId, Bio>,
                  players: seq<PlayerId>, seasons: seq<Season>)
  {
    && (forall s :: s in seasons ==> s in full)
    && (forall p, s :: p in players && s in seasons && s in full && p in full[s] ==>
          s in ratios && p in ratios[s] && Copyable(full, bios, p, s))
  }

  /** Same seasons, and the same players in every season. */
  predicate SameShape(a: Category, b: Category)
  {
    a.Keys == b.Keys && forall s :: s in a ==> a[s].Keys == b[s].Keys
  }

  /** One (player, season) step of the nested loop. The step is stated for
      every table; when a lookup would fail (which `Ready` rules out) it leaves
      the tables alone. */
  function StitchOne(ratios: Category, full: Category, bios: map<PlayerId, Bio>, p: PlayerId, s: Season): (r: Category)
    ensures SameShape(ratios, r)
  {
    if s in ratios && p in ratios[s] && Copyable(full, bios, p, s) then
      ratios[s := ratios[s][p := StitchRecord(ratios[s][p], full[s][p], bios[p].age)]]
    else ratios
  }

  /** The inner loop, over the seasons, for one player. */
  function StitchSeasons(ratios: Category, full: Category, bios: map<PlayerId, Bio>,
                         p: PlayerId, seasons: seq<Season>): (r: Category)
    ensures SameShape(ratios, r)
  {
    if seasons == [] then ratios
    else StitchOne(StitchSeasons(ratios, full, bios, p, seasons[..|seasons| - 1]), full, bios, p, seasons[|seasons| - 1])
  }

  /** The whole nested loop: players outside, seasons inside. */
  function StitchAll(ratios: Category, full: Category, bios: map<PlayerId, Bio>,
                     players: seq<PlayerId>, seasons: seq<Season>): (r: Category)
    ensures SameShape(ratios, r)
  {
    if players == [] then ratios
    else StitchSeasons(StitchAll(ratios, full, bios, players[..|players| - 1], seasons),
                       full, bios, players[|players| - 1], seasons)
  }

  /** Stitching a record twice is stitching it once. */
  lemma StitchRecordIdempotent(r: Record, fullRec: Record, age: int)
    requires "faceoff_ratio" in fullRec && "fights_ratio" in fullRec
    ensures StitchRecord(StitchRecord(r, fullRec, age), fullRec, age) == StitchRecord(r, fullRec, age)
  {
  }

  /** The record a stitch of the pair (p, s) writes over `r`. */
  function Target(r: Record, full: Category, bios: map<PlayerId, Bio>, p: PlayerId, s: Season): Record
  {
    if Copyable(full, bios, p, s) then StitchRecord(r, full[s][p], bios[p].age) else r
  }

  lemma {:induction false} StitchSeasonsAt(r: Category, full: Category, bios: map<PlayerId, Bio>,
                                          p: PlayerId, seasons: seq<Season>, q: PlayerId, s: Season)
    requires s in r && q in r[s]
    ensures StitchSeasons(r, full, bios, p, seasons)[s][q] ==
      if q == p && s in seasons then Target(r[s][q], full, bios, q, s) else r[s][q]
  {
    if seasons != [] {
      var init := seasons[..|seasons| - 1];
      var t := seasons[|seasons| - 1];
      StitchSeasonsAt(r, full, bios, p, init, q, s);
      assert s in seasons <==> s in init || s == t;
      if q == p && s == t && s in init && Copyable(full, bios, p, s) {
        StitchRecordIdempotent(r[s][q], full[s][p], bios[p].age);
      }
    }
  }

  /** What the nested loop leaves in every record: the pairs it reaches are
      stitched, every other record is as it was. */
  lemma {:induction false} StitchAllAt(r0: Category, full: Category, bios: map<PlayerId, Bio>,
                                      players: seq<PlayerId>, seasons: seq<Season>, q: PlayerId, s: Season)
    requires s in r0 && q in r0[s]
    ensures StitchAll(r0, full, bios, players, seasons)[s][q] ==
      if q in players && s in seasons then Target(r0[s][q], full, bios, q, s) else r0[s][q]
  {
    if players != [] {
      var init := players[..|players| - 1];
      var p := players[|players| - 1];
      StitchAllAt(r0, full, bios, init, seasons, q, s);
      var mid := StitchAll(r0, full, bios, init, seasons);
      StitchSeasonsAt(mid, full, bios, p, seasons, q, s);
      assert q in players <==> q in init || q == p;
      if q == p && q in init && s in seasons && Copyable(full, bios, q, s) {
        StitchRecordIdempotent(r0[s][q], full[s][q], bios[q].age);
      }
    }
  }

  /** The stitching in the terms of the tables: the seasons and players of
      "ratios" stay the same; a roster player found in a configured season's
      "full" table gets that season's faceoff and fight ratios from "full" and
      the age factor of the biography, every other field of the record kept;
      every other record is untouched. */
  lemma StitchedRecords(r0: Category, full: Category, bios: map<PlayerId, Bio>,
                        players: seq<PlayerId>, seasons: seq<Season>, p: PlayerId, s: Season)
    requires Ready(r0, full, bios, players, seasons)
    requires s in r0 && p in r0[s]
    ensures SameShape(r0, StitchAll(r0, full, bios, players, seasons))
    ensures var r := StitchAll(r0, full, bios, players, seasons)[s][p];
      p in players && s in seasons && p in full[s] ==>
        && r.Keys == r0[s][p].Keys + {"faceoff_ratio", "fights_ratio", "age_ratio"}
        && r["faceoff_ratio"] == full[s][p]["faceoff_ratio"]
        && r["fights_ratio"] == full[s][p]["fights_ratio"]
        && r["age_ratio"] == AgeRatio(bios[p].age)
        && (forall k :: k in r0[s][p] && k != "faceoff_ratio" && k != "fights_ratio" && k != "age_ratio"
              ==> r[k] == r0[s][p][k])
    ensures !(p in players && s in seasons && p in full[s]) ==>
      StitchAll(r0, full, bios, players, seasons)[s][p] == r0[s][p]
  {
    StitchAllAt(r0, full, bios, players, seasons, p, s);
  }

  /** Stitching twice is stitching once. */
  lemma StitchAllIdempotent(r0: Category, full: Category, bios: map<PlayerId, Bio>,
                            players: seq<PlayerId>, seasons: seq<Season>)
    ensures var r := StitchAll(r0, full, bios, players, seasons);
      StitchAll(r, full, bios, players, seasons) == r
  {
    var r := StitchAll(r0, full, bios, players, seasons);
    var rr := StitchAll(r, full, bios, players, seasons);
    forall s | s in r ensures rr[s] == r[s] {
      forall q | q in r[s] ensures rr[s][q] == r[s][q] {
        StitchAllAt(r0, full, bios, players, seasons, q, s);
        StitchAllAt(r, full, bios, players, seasons, q, s);
        if q in players && s in seasons && Copyable(full, bios, q, s) {
          StitchRecordIdempotent(r0[s][q], full[s][q], bios[q].age);
        }
      }
    }
  }

  /** Readiness depends only on which seasons and players the tables hold. */
  lemma ReadyCarries(a: Category, b: Category, full: Category, bios: map<PlayerId, Bio>,
                     players: seq<PlayerId>, seasons: seq<Season>)
    requires Ready(a, full, bios, players, seasons) && SameShape(a, b)
    ensures Ready(b, full, bios, players, seasons)
  {
  }

  /** The nested loop of the data manager, players outside and seasons inside. */
  method AddRatios(r0: Category, full: Category, bios: map<PlayerId, Bio>,
                   players: seq<PlayerId>, seasons: seq<Season>) returns (ratios: Category)
    requires Ready(r0, full, bios, players, seasons)
    ensures ratios == StitchAll(r0, full, bios, players, seasons)
  {
    ratios := r0;
    for i := 0 to |players|
      invariant ratios == StitchAll(r0, full, bios, players[..i], seasons)
    {
      assert players[..i + 1][..i] == players[..i];
      ratios := StitchPlayer(r0, full, bios, players, seasons, i, ratios);
    }
    assert players[..|players|] == players;
  }

  /** The inner loop, over the configured seasons, for the `i`-th player. */
  method StitchPlayer(r0: Category, full: Category, bios: map<PlayerId, Bio>,
                      players: seq<PlayerId>, seasons: seq<Season>, i: nat, before: Category)
    returns (ratios: Category)
    requires i < |players| && Ready(r0, full, bios, players, seasons) && SameShape(r0, before)
    ensures ratios == StitchSeasons(before, full, bios, players[i], seasons)
  {
    ratios := before;
    for j := 0 to |seasons|
      invariant ratios == StitchSeasons(before, full, bios, players[i], seasons[..j])
    {
      ratios := StitchStep(r0, full, bios, players, seasons, i, j, before, ratios);
    }
    assert seasons[..|seasons|] == seasons;
  }

  /** One pass of the inner loop: when the player appears in the season's
      "full" table, copy the two ratios and set the age factor. */
  method StitchStep(r0: Category, full: Category, bios: map<PlayerId, Bio>,
                    players: seq<PlayerId>, seasons: seq<Season>, i: nat, j: nat,
                    before: Category, ratios: Category) returns (r: Category)
    requires i < |players| && j < |seasons|
    requires Ready(r0, full, bios, players, seasons) && SameShape(r0, before)
    requires ratios == StitchSeasons(before, full, bios, players[i], seasons[..j])
    ensures r == StitchSeasons(before, full, bios, players[i], seasons[..j + 1])
  {
    var player, season := players[i], seasons[j];
    assert seasons[..j + 1][..j] == seasons[..j];
    assert SameShape(before, ratios);
    assert SameShape(r0, ratios);
    ReadyCarries(r0, ratios, full, bios, players, seasons);
    assert player in players && season in seasons;
    if player in full[season] {
      var rec := ratios[season][player];
      rec := rec["faceoff_ratio" := full[season][player]["faceoff_ratio"]];
      rec := rec["fights_ratio" := full[season][player]["fights_ratio"]];
      rec := rec["age_ratio" := AgeRatio(bios[player].age)];
      r := ratios[season := ratios[season][player := rec]];
    } else {
      r := ratios;
    }
  }
}
