/** Team fantasy scores (`get_team_fantasy_scores`): the fantasy ratios of a team's players,
    per game the team's listed players played, min-max rescaled over the season's teams. */
module TeamScores {
  import opened Tables
  import opened MinMax
  import opened Fantasy

  /** Every listed player present in the season's "full" table has a bio and can be scored. */
  predicate TeamReady(full: Table, bios: map<PlayerId, Bio>, players: seq<PlayerId>)
  {
    forall p :: p in players && p in full ==> p in bios && FantasyRatioReady(full[p])
  }

  lemma TeamReadyPrefix(full: Table, bios: map<PlayerId, Bio>, players: seq<PlayerId>, k: nat)
    requires TeamReady(full, bios, players) && k <= |players|
    ensures TeamReady(full, bios, players[..k])
  {
    assert forall p :: p in players[..k] ==> p in players;
  }

  /** What one listed, present player adds to its team: its team code, fantasy ratio and games. */
  datatype Contribution = Contribution(team: string, ratio: real, games: real)

  /** The contributions of the listed players present in the season, in list order. */
  function Contributions(full: Table, bios: map<PlayerId, Bio>, players: seq<PlayerId>): seq<Contribution>
    requires TeamReady(full, bios, players)
  {
    if players == [] then []
    else
      var n := |players| - 1;
      TeamReadyPrefix(full, bios, players, n);
      var p := players[n];
      Contributions(full, bios, players[..n])
        + (if p in full then [Contribution(bios[p].team, FantasyRatio(full, p), full[p]["gp"])] else [])
  }

  /** A contribution belongs to team `t` exactly when a listed, present player of `t` made it. */
  lemma {:induction false} ContributionsTeams(full: Table, bios: map<PlayerId, Bio>, players: seq<PlayerId>, t: string)
    requires TeamReady(full, bios, players)
    ensures var cs := Contributions(full, bios, players);
      (exists k :: 0 <= k < |cs| && cs[k].team == t) <==> exists p :: p in players && p in full && bios[p].team == t
  {
    if players != [] {
      var n := |players| - 1;
      var last := players[n];
      TeamReadyPrefix(full, bios, players, n);
      ContributionsTeams(full, bios, players[..n], t);
      var init := Contributions(full, bios, players[..n]);
      var cs := Contributions(full, bios, players);
      assert forall p :: p in players <==> p in players[..n] || p == last;
      if last in full {
        assert cs == init + [Contribution(bios[last].team, FantasyRatio(full, last), full[last]["gp"])];
        assert forall k :: 0 <= k < |init| ==> cs[k] == init[k];
        assert cs[|cs| - 1].team == bios[last].team;
      } else {
        assert cs == init;
      }
    }
  }

  /** The contribution list is empty exactly when no listed player is present. */
  lemma {:induction false} ContributionsEmpty(full: Table, bios: map<PlayerId, Bio>, players: seq<PlayerId>)
    requires TeamReady(full, bios, players)
    ensures Contributions(full, bios, players) == [] <==> forall p :: p in players ==> p !in full
  {
    if players != [] {
      var n := |players| - 1;
      TeamReadyPrefix(full, bios, players, n);
      ContributionsEmpty(full, bios, players[..n]);
      assert forall p :: p in players ==> p in players[..n] || p == players[n];
      assert forall p :: p in players[..n] ==> p in players;
    }
  }

  /** The team codes in the order the `teams` dictionary receives them (first appearance). */
  function TeamOrder(cs: seq<Contribution>): seq<string>
  {
    if cs == [] then []
    else
      var init := TeamOrder(cs[..|cs| - 1]);
      var c := cs[|cs| - 1];
      if c.team in init then init else init + [c.team]
  }

  /** Summed fantasy ratio of the contributions of team `t`. */
  function TeamTotal(cs: seq<Contribution>, t: string): real
  {
    if cs == [] then 0.0
    else
      var c := cs[|cs| - 1];
      TeamTotal(cs[..|cs| - 1], t) + (if c.team == t then c.ratio else 0.0)
  }

  /** Summed games played of the contributions of team `t`. */
  function TeamGames(cs: seq<Contribution>, t: string): real
  {
    if cs == [] then 0.0
    else
      var c := cs[|cs| - 1];
      TeamGames(cs[..|cs| - 1], t) + (if c.team == t then c.games else 0.0)
  }

  /** A team's score before rescaling: its total per game, or the bare total when its games do
      not add up to a positive number. */
  function TeamScore(cs: seq<Contribution>, t: string): real
  {
    var games := TeamGames(cs, t);
    if games > 0.0 then TeamTotal(cs, t) / games else TeamTotal(cs, t)
  }

  /** `teams.values()`: the scores of the teams of `order`, in that order. */
  function TeamValues(cs: seq<Contribution>, order: seq<string>): (vs: seq<real>)
    ensures |vs| == |order|
  {
    if order == [] then []
    else TeamValues(cs, order[..|order| - 1]) + [TeamScore(cs, order[|order| - 1])]
  }

  /** What `get_team_fantasy_scores(season)` returns. */
  function TeamScoresSpec(full: Table, bios: map<PlayerId, Bio>, players: seq<PlayerId>): Result<map<string, real>>
    requires TeamReady(full, bios, players)
  {
    var cs := Contributions(full, bios, players);
    var order := TeamOrder(cs);
    if order == [] then Err(EmptyPopulation)
    else
      var values := TeamValues(cs, order);
      Ok(map t | t in order :: Rescale(TeamScore(cs, t), values))
  }

  /** A team is in the order exactly when some contribution is its. */
  lemma {:induction false} TeamOrderMembers(cs: seq<Contribution>, t: string)
    ensures t in TeamOrder(cs) <==> exists k :: 0 <= k < |cs| && cs[k].team == t
  {
    if cs != [] {
      var n := |cs| - 1;
      TeamOrderMembers(cs[..n], t);
      assert forall k :: 0 <= k < n ==> cs[..n][k] == cs[k];
      if exists k :: 0 <= k < |cs| && cs[k].team == t {
        var k :| 0 <= k < |cs| && cs[k].team == t;
        if k < n {
          assert cs[..n][k].team == t;
        }
      }
    }
  }

  /** No element appears twice. */
  predicate Distinct(xs: seq<string>)
  {
    forall i, j :: 0 <= i < j < |xs| ==> xs[i] != xs[j]
  }

  /** No team appears twice in the order. */
  lemma {:induction false} TeamOrderDistinct(cs: seq<Contribution>)
    ensures Distinct(TeamOrder(cs))
  {
    if cs != [] {
      var n := |cs| - 1;
      TeamOrderDistinct(cs[..n]);
      var init := TeamOrder(cs[..n]);
      var order := TeamOrder(cs);
      var c := cs[n];
      if c.team !in init {
        assert order == init + [c.team];
        forall i, j | 0 <= i < j < |order| ensures order[i] != order[j] {
          assert order[i] == init[i];
          if j == |init| {
            assert order[j] == c.team && init[i] in init;
          } else {
            assert order[j] == init[j];
          }
        }
      } else {
        assert order == init;
      }
    }
  }

  /** A team without contributions has neither fantasy ratio nor games. */
  lemma {:induction false} TeamTotalsAbsent(cs: seq<Contribution>, t: string)
    requires t !in TeamOrder(cs)
    ensures TeamTotal(cs, t) == 0.0 && TeamGames(cs, t) == 0.0
  {
    if cs != [] {
      var n := |cs| - 1;
      assert t != cs[n].team;
      TeamTotalsAbsent(cs[..n], t);
    }
  }

  /** When every contribution has positive games, every team in the order has positive games,
      so its score is its fantasy ratio total per game. */
  lemma {:induction false} TeamGamesPositive(cs: seq<Contribution>, t: string)
    requires forall k :: 0 <= k < |cs| ==> cs[k].games > 0.0
    requires t in TeamOrder(cs)
    ensures TeamGames(cs, t) > 0.0
    ensures TeamScore(cs, t) == TeamTotal(cs, t) / TeamGames(cs, t)
  {
    var n := |cs| - 1;
    assert forall k :: 0 <= k < n ==> cs[..n][k] == cs[k];
    if t in TeamOrder(cs[..n]) {
      TeamGamesPositive(cs[..n], t);
    } else {
      assert cs[n].team == t;
      TeamTotalsAbsent(cs[..n], t);
    }
  }

  /** Every team of the order has its score among the values. */
  lemma {:induction false} TeamValuesHas(cs: seq<Contribution>, order: seq<string>, t: string)
    requires t in order
    ensures TeamScore(cs, t) in TeamValues(cs, order)
  {
    var n := |order| - 1;
    if t != order[n] {
      assert t in order[..n];
      TeamValuesHas(cs, order[..n], t);
    }
  }

  /** One player further in the list, the contribution list grows by that player's contribution
      if the player is present. */
  lemma ContributionsStep(full: Table, bios: map<PlayerId, Bio>, players: seq<PlayerId>, i: nat)
    requires TeamReady(full, bios, players) && i < |players|
    ensures TeamReady(full, bios, players[..i]) && TeamReady(full, bios, players[..i + 1])
    ensures var p := players[i];
      Contributions(full, bios, players[..i + 1]) == Contributions(full, bios, players[..i])
        + (if p in full then [Contribution(bios[p].team, FantasyRatio(full, p), full[p]["gp"])] else [])
  {
    TeamReadyPrefix(full, bios, players, i);
    TeamReadyPrefix(full, bios, players, i + 1);
    assert players[..i + 1][..i] == players[..i];
  }

  /** The per-team sums after one more contribution. */
  lemma SumsStep(cs: seq<Contribution>, c: Contribution, t: string)
    ensures TeamOrder(cs + [c]) == if c.team in TeamOrder(cs) then TeamOrder(cs) else TeamOrder(cs) + [c.team]
    ensures TeamTotal(cs + [c], t) == TeamTotal(cs, t) + (if c.team == t then c.ratio else 0.0)
    ensures TeamGames(cs + [c], t) == TeamGames(cs, t) + (if c.team == t then c.games else 0.0)
  {
    assert (cs + [c])[..|cs|] == cs;
  }

  /** The per-team sums hold exactly the teams of the order, with their totals and games. */
  ghost predicate SumsHold(cs: seq<Contribution>, order: seq<string>, teams: map<string, real>, games: map<string, real>)
  {
    && order == TeamOrder(cs)
    && (forall t :: t in teams <==> t in order)
    && games.Keys == teams.Keys
    && (forall t :: t in teams ==> teams[t] == TeamTotal(cs, t) && games[t] == TeamGames(cs, t))
  }

  /** The body of the first loop, for one present player. */
  method AddContribution(ghost cs: seq<Contribution>, c: Contribution,
                         order: seq<string>, teams: map<string, real>, games: map<string, real>)
    returns (order': seq<string>, teams': map<string, real>, games': map<string, real>)
    requires SumsHold(cs, order, teams, games)
    ensures SumsHold(cs + [c], order', teams', games')
  {
    order', teams', games' := order, teams, games;
    if c.team !in teams {
      TeamTotalsAbsent(cs, c.team);
      teams' := teams'[c.team := 0.0];
      games' := games'[c.team := 0.0];
      order' := order' + [c.team];
    }
    games' := games'[c.team := games'[c.team] + c.games];
    teams' := teams'[c.team := teams'[c.team] + c.ratio];
    forall t | t in teams' ensures teams'[t] == TeamTotal(cs + [c], t) && games'[t] == TeamGames(cs + [c], t) {
      SumsStep(cs, c, t);
      if t !in teams {
        TeamTotalsAbsent(cs, t);
      }
    }
    SumsStep(cs, c, "");
  }

  /** The first loop of `get_team_fantasy_scores`: per team, in order of first appearance,
      the summed fantasy ratios and games of its listed, present players. */
  method SumByTeam(full: Table, bios: map<PlayerId, Bio>, players: seq<PlayerId>)
    returns (order: seq<string>, teams: map<string, real>, games: map<string, real>)
    requires TeamReady(full, bios, players)
    ensures SumsHold(Contributions(full, bios, players), order, teams, games)
  {
    teams, games, order := map[], map[], [];
    var i := 0;
    TeamReadyPrefix(full, bios, players, 0);
    while i < |players|
      invariant 0 <= i <= |players|
      invariant TeamReady(full, bios, players[..i])
      invariant SumsHold(Contributions(full, bios, players[..i]), order, teams, games)
    {
      order, teams, games := AddPlayer(full, bios, players, i, order, teams, games);
      i := i + 1;
    }
    assert players[..i] == players;
  }

  /** The body of the first loop for `players[i]`: a present player's contribution is added. */
  method AddPlayer(full: Table, bios: map<PlayerId, Bio>, players: seq<PlayerId>, i: nat,
                   order: seq<string>, teams: map<string, real>, games: map<string, real>)
    returns (order': seq<string>, teams': map<string, real>, games': map<string, real>)
    requires TeamReady(full, bios, players) && i < |players|
    requires TeamReady(full, bios, players[..i])
    requires SumsHold(Contributions(full, bios, players[..i]), order, teams, games)
    ensures TeamReady(full, bios, players[..i + 1])
    ensures SumsHold(Contributions(full, bios, players[..i + 1]), order', teams', games')
  {
    var player := players[i];
    ContributionsStep(full, bios, players, i);
    ghost var cs := Contributions(full, bios, players[..i]);
    order', teams', games' := order, teams, games;
    if player in full {
      assert player in players;
      var fr := GetFantasyRatio(full, player);
      var c := Contribution(bios[player].team, fr, full[player]["gp"]);
      assert Contributions(full, bios, players[..i + 1]) == cs + [c];
      order', teams', games' := AddContribution(cs, c, order, teams, games);
    } else {
      assert Contributions(full, bios, players[..i + 1]) == cs;
    }
  }

  /** The second loop: a team's total becomes a per-game figure when its games are positive. */
  method DivideByGames(ghost cs: seq<Contribution>, order: seq<string>,
                       totals: map<string, real>, games: map<string, real>)
    returns (teams: map<string, real>)
    requires Distinct(order)
    requires forall t :: t in totals <==> t in order
    requires games.Keys == totals.Keys
    requires forall t :: t in totals ==> totals[t] == TeamTotal(cs, t) && games[t] == TeamGames(cs, t)
    ensures teams.Keys == totals.Keys
    ensures forall t :: t in teams ==> teams[t] == TeamScore(cs, t)
  {
    teams := totals;
    var j := 0;
    while j < |order|
      invariant 0 <= j <= |order|
      invariant teams.Keys == totals.Keys
      invariant forall k :: 0 <= k < j ==> teams[order[k]] == TeamScore(cs, order[k])
      invariant forall k :: j <= k < |order| ==> teams[order[k]] == totals[order[k]]
    {
      var team := order[j];
      if games[team] > 0.0 {
        teams := teams[team := teams[team] / games[team]];
      }
      j := j + 1;
    }
    forall t | t in teams ensures teams[t] == TeamScore(cs, t) {
      var k :| 0 <= k < |order| && order[k] == t;
    }
  }

  /** The min-max rescaling of the team scores, in the order of the teams. */
  method RescaleTeams(ghost cs: seq<Contribution>, order: seq<string>, teams: map<string, real>)
    returns (r: Result<map<string, real>>)
    requires forall t :: t in teams <==> t in order
    requires forall t :: t in teams ==> teams[t] == TeamScore(cs, t)
    ensures order == [] ==> r == Err(EmptyPopulation)
    ensures order != [] ==> r == Ok(map t | t in order :: Rescale(TeamScore(cs, t), TeamValues(cs, order)))
  {
    var values: seq<real> := [];
    var j := 0;
    while j < |order|
      invariant 0 <= j <= |order|
      invariant values == TeamValues(cs, order[..j])
    {
      assert order[..j + 1][..j] == order[..j];
      assert order[j] in teams;
      values := values + [teams[order[j]]];
      j := j + 1;
    }
    assert order[..j] == order;
    if |values| == 0 {
      return Err(EmptyPopulation);
    }
    var lo, hi := MinOf(values), MaxOf(values);
    var out: map<string, real> := map[];
    j := 0;
    while j < |order|
      invariant 0 <= j <= |order|
      invariant forall t :: t in out <==> t in order[..j]
      invariant forall t :: t in out ==> out[t] == Rescale(TeamScore(cs, t), values)
    {
      var team := order[j];
      assert order[..j + 1] == order[..j] + [team];
      assert team in teams;
      out := out[team := Scale(teams[team], lo, hi)];
      j := j + 1;
    }
    assert order[..j] == order;
    ghost var spec := map t | t in order :: Rescale(TeamScore(cs, t), values);
    assert out.Keys == spec.Keys;
    assert out == spec;
    return Ok(out);
  }

  /** `get_team_fantasy_scores(season)`: sum per team, divide by games, then rescale the team
      scores by their minimum and maximum. */
  method GetTeamFantasyScores(full: Table, bios: map<PlayerId, Bio>, players: seq<PlayerId>)
    returns (r: Result<map<string, real>>)
    requires TeamReady(full, bios, players)
    ensures r == TeamScoresSpec(full, bios, players)
  {
    ghost var cs := Contributions(full, bios, players);
    var order, totals, games := SumByTeam(full, bios, players);
    TeamOrderDistinct(cs);
    var teams := DivideByGames(cs, order, totals, games);
    r := RescaleTeams(cs, order, teams);
  }

  /** The scores fail exactly when no listed player is present; otherwise they cover exactly the
      teams of the listed, present players. */
  lemma TeamScoresShape(full: Table, bios: map<PlayerId, Bio>, players: seq<PlayerId>)
    requires TeamReady(full, bios, players)
    ensures TeamScoresSpec(full, bios, players).Err? <==> (forall p :: p in players ==> p !in full)
    ensures TeamScoresSpec(full, bios, players).Ok? ==>
      forall t :: t in TeamScoresSpec(full, bios, players).value <==>
        exists p :: p in players && p in full && bios[p].team == t
  {
    var cs := Contributions(full, bios, players);
    var order := TeamOrder(cs);
    ContributionsEmpty(full, bios, players);
    forall t ensures t in order <==> exists p :: p in players && p in full && bios[p].team == t {
      TeamOrderMembers(cs, t);
      ContributionsTeams(full, bios, players, t);
    }
    if cs != [] {
      TeamOrderMembers(cs, cs[0].team);
      var m := TeamScoresSpec(full, bios, players).value;
      assert forall t :: t in m <==> t in order;
    }
  }

  /** Every team score lies in [0,1]. */
  lemma TeamScoresInUnit(full: Table, bios: map<PlayerId, Bio>, players: seq<PlayerId>, t: string)
    requires TeamReady(full, bios, players)
    requires TeamScoresSpec(full, bios, players).Ok? && t in TeamScoresSpec(full, bios, players).value
    ensures 0.0 <= TeamScoresSpec(full, bios, players).value[t] <= 1.0
  {
    var cs := Contributions(full, bios, players);
    var order := TeamOrder(cs);
    TeamValuesHas(cs, order, t);
    RescaleInUnit(TeamScore(cs, t), TeamValues(cs, order));
  }

  /** The lowest-scoring team maps to 0, the highest to 1 unless every team scores the same,
      in which case every team maps to 0. */
  lemma TeamScoresExtremes(full: Table, bios: map<PlayerId, Bio>, players: seq<PlayerId>, t: string)
    requires TeamReady(full, bios, players)
    requires TeamScoresSpec(full, bios, players).Ok? && t in TeamScoresSpec(full, bios, players).value
    ensures var cs := Contributions(full, bios, players);
      var values := TeamValues(cs, TeamOrder(cs));
      && |values| > 0
      && var s := TeamScore(cs, t);
      var v := TeamScoresSpec(full, bios, players).value[t];
      && (s == MinOf(values) ==> v == 0.0)
      && (s == MaxOf(values) && !AllEqual(values) ==> v == 1.0)
      && (AllEqual(values) ==> v == 0.0)
  {
    var cs := Contributions(full, bios, players);
    var order := TeamOrder(cs);
    var values := TeamValues(cs, order);
    TeamValuesHas(cs, order, t);
    RescaleAtMin(values);
    RescaleAtMax(values);
    if AllEqual(values) {
      RescaleDegenerate(TeamScore(cs, t), values);
    }
  }
}
