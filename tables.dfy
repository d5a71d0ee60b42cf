/** Shared vocabulary of the rating engine: identifiers, stat records and the
    per-season tables they are kept in, and the error the engine can report. */
module Tables {

  /** An opaque, league-wide player identifier, as read from the roster file. */
  type PlayerId = string

  /** An eight-digit season token such as "20232024". */
  type Season = string

  /** One player's fields for one season and one category ("full", "ratios", ...). */
  type Record = map<string, real>

  /** One season of one category: player identifier to record. */
  type Table = map<PlayerId, Record>

  /** One category across seasons. */
  type Category = map<Season, Table>

  datatype Option<T> = None | Some(value: T)

  /** The failures the engine reports instead of raising: `min` and `max`
      over an empty population, and a roster line naming a player without a
      biography (a dictionary lookup that fails). */
  datatype Error = EmptyPopulation | MissingBio(id: PlayerId)

  datatype Result<T> = Ok(value: T) | Err(error: Error)

  /** Biographical record of a player (team code, name, position, age, active flag). */
  datatype Bio = Bio(team: string, name: string, position: string, age: int, active: bool)

  /** Name of the per-game ratio field of a stat: "points" becomes "points_ratio". */
  function RatioField(stat: string): string
  {
    stat + "_ratio"
  }

  /** Name of the population-normalised field of a stat: "points" becomes "points_norm". */
  function NormField(stat: string): string
  {
    stat + "_norm"
  }

  /** Appending a fixed suffix is injective, so distinct stats never share a field. */
  lemma SuffixInjective(a: string, b: string, suffix: string)
    requires a + suffix == b + suffix
    ensures a == b
  {
    assert |a| == |b|;
    assert a == (a + suffix)[..|a|];
    assert b == (b + suffix)[..|b|];
  }

  lemma RatioFieldInjective(a: string, b: string)
    ensures RatioField(a) == RatioField(b) <==> a == b
  {
    if RatioField(a) == RatioField(b) {
      SuffixInjective(a, b, "_ratio");
    }
  }

  lemma NormFieldInjective(a: string, b: string)
    ensures NormField(a) == NormField(b) <==> a == b
  {
    if NormField(a) == NormField(b) {
      SuffixInjective(a, b, "_norm");
    }
  }

  /** The players of `players` that appear in `t`, as a set. */
  function Present(t: Table, players: seq<PlayerId>): (s: set<PlayerId>)
    ensures forall p :: p in s <==> p in t && p in players
  {
    set p | p in players && p in t
  }

  /** Python's `d.get(key, 0)` on a record. */
  function GetOr0(r: Record, key: string): real
  {
    if key in r then r[key] else 0.0
  }
}
