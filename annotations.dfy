/** The user's per-player annotations: whether the player has been drafted
    ("picked") and a free-text note, kept in a dictionary that is saved to and
    restored from a snapshot file. */
module Annotations {
  import opened Tables

  datatype Annotation = Annotation(picked: bool, note: string)

  type Meta = map<PlayerId, Annotation>

  /** What a player starts with when there is no snapshot: not picked, no note. */
  const BLANK: Annotation := Annotation(false, "")

  /** Marking a player picked or not changes that player's flag and nothing
      else: the same players, the same note, every other player untouched. */
  function Pick(meta: Meta, p: PlayerId, v: bool): (m: Meta)
    requires p in meta
    ensures m.Keys == meta.Keys
    ensures m[p].picked == v && m[p].note == meta[p].note
    ensures forall q :: q in meta && q != p ==> m[q] == meta[q]
  {
    meta[p := meta[p].(picked := v)]
  }

  /** Setting a player's note changes that player's note and nothing else. */
  function Note(meta: Meta, p: PlayerId, n: string): (m: Meta)
    requires p in meta
    ensures m.Keys == meta.Keys
    ensures m[p].note == n && m[p].picked == meta[p].picked
    ensures forall q :: q in meta && q != p ==> m[q] == meta[q]
  {
    meta[p := meta[p].(note := n)]
  }

  /** The last pick of a player wins. */
  lemma PickLastWins(meta: Meta, p: PlayerId, a: bool, b: bool)
    requires p in meta
    ensures Pick(Pick(meta, p, a), p, b) == Pick(meta, p, b)
  {
  }

  /** Picks of different players do not interfere. */
  lemma PicksCommute(meta: Meta, p: PlayerId, q: PlayerId, a: bool, b: bool)
    requires p in meta && q in meta && p != q
    ensures Pick(Pick(meta, p, a), q, b) == Pick(Pick(meta, q, b), p, a)
  {
  }

  /** Picking and annotating are independent, even for the same player. */
  lemma PickNoteCommute(meta: Meta, p: PlayerId, q: PlayerId, v: bool, n: string)
    requires p in meta && q in meta
    ensures Pick(Note(meta, q, n), p, v) == Note(Pick(meta, p, v), q, n)
  {
  }

  /** Re-picking with the current value changes nothing. */
  lemma PickSameIsIdentity(meta: Meta, p: PlayerId)
    requires p in meta
    ensures Pick(meta, p, meta[p].picked) == meta
  {
  }

  /** The annotations built when there is no snapshot: every roster player,
      and nobody else, starts blank. */
  method DefaultMeta(players: seq<PlayerId>) returns (meta: Meta)
    ensures forall p :: p in meta <==> p in players
    ensures forall p :: p in meta ==> meta[p] == BLANK
  {
    meta := map[];
    for i := 0 to |players|
      invariant forall p :: p in meta <==> p in players[..i]
      invariant forall p :: p in meta ==> meta[p] == BLANK
    {
      meta := meta[players[i] := BLANK];
      assert players[..i + 1] == players[..i] + [players[i]];
    }
    assert players[..|players|] == players;
  }

  /** Restoring: the snapshot, taken as it is, when the file exists (it may
      name players no longer on the roster and miss new ones); the blank
      annotations of the roster otherwise. */
  method LoadMeta(snapshot: Option<Meta>, players: seq<PlayerId>) returns (meta: Meta)
    ensures snapshot.Some? ==> meta == snapshot.value
    ensures snapshot.None? ==> (forall p :: p in meta <==> p in players)
    ensures snapshot.None? ==> (forall p :: p in meta ==> meta[p] == BLANK)
  {
    if snapshot.Some? {
      meta := snapshot.value;
    } else {
      meta := DefaultMeta(players);
    }
  }
}
