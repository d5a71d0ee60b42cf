/** Reading the roster: one player identifier per line of a text file.
    The line splitting itself is I/O; both readers below receive the file's
    lines. */
module PlayerList {
  import opened Tables
  import opened Text

  /** The identifiers of the lines, stripped, with blank lines dropped
      (the scraper's reader: strip each line, keep it when something is left). */
  function NonBlankLines(lines: seq<string>): (ids: seq<PlayerId>)
    ensures |ids| <= |lines|
  {
    if lines == [] then []
    else
      var id := Strip(lines[0]);
      (if id != "" then [id] else []) + NonBlankLines(lines[1..])
  }

  /** How many of the lines strip to `x`. */
  function CountStripsTo(lines: seq<string>, x: string): nat
  {
    if lines == [] then 0
    else (if Strip(lines[0]) == x then 1 else 0) + CountStripsTo(lines[1..], x)
  }

  /** Reading the concatenation of two files' lines reads each in turn: line
      order is kept. */
  lemma {:induction false} NonBlankLinesAppend(a: seq<string>, b: seq<string>)
    ensures NonBlankLines(a + b) == NonBlankLines(a) + NonBlankLines(b)
  {
    if a == [] {
      assert a + b == b;
    } else {
      assert (a + b)[0] == a[0];
      assert (a + b)[1..] == a[1..] + b;
      NonBlankLinesAppend(a[1..], b);
      var head := if Strip(a[0]) != "" then [Strip(a[0])] else [];
      assert NonBlankLines(a + b) == head + (NonBlankLines(a[1..]) + NonBlankLines(b));
    }
  }

  /** Every identifier read is non-empty and already stripped. */
  lemma {:induction false} NonBlankLinesClean(lines: seq<string>)
    ensures forall k :: 0 <= k < |NonBlankLines(lines)| ==>
      NonBlankLines(lines)[k] != "" && Strip(NonBlankLines(lines)[k]) == NonBlankLines(lines)[k]
  {
    if lines != [] {
      NonBlankLinesClean(lines[1..]);
      StripIdempotent(lines[0]);
    }
  }

  /** Duplicates are kept: a non-blank identifier occurs in the list exactly
      as often as lines strip to it, and a blank one never does. */
  lemma {:induction false} NonBlankLinesCount(lines: seq<string>, x: string)
    ensures multiset(NonBlankLines(lines))[x] == if x == "" then 0 else CountStripsTo(lines, x)
  {
    if lines != [] {
      NonBlankLinesCount(lines[1..], x);
      var id := Strip(lines[0]);
      assert multiset(NonBlankLines(lines)) ==
        multiset(if id != "" then [id] else []) + multiset(NonBlankLines(lines[1..]));
    }
  }

  /** The roster reader of the data manager: as above, but every non-blank
      identifier is looked up in the biographies, in line order, and kept only
      when the player is active. The first identifier without a biography
      aborts the read. */
  function ActivePlayers(lines: seq<string>, bios: map<PlayerId, Bio>): Result<seq<PlayerId>>
  {
    if lines == [] then Ok([])
    else
      var id := Strip(lines[0]);
      if id == "" then ActivePlayers(lines[1..], bios)
      else if id !in bios then Err(MissingBio(id))
      else
        match ActivePlayers(lines[1..], bios)
        case Err(e) => Err(e)
        case Ok(ps) => Ok((if bios[id].active then [id] else []) + ps)
  }

  /** The identifiers of `ids` whose players have a biography marking them
      active, in order. */
  function FilterActive(ids: seq<PlayerId>, bios: map<PlayerId, Bio>): seq<PlayerId>
  {
    if ids == [] then []
    else (if ids[0] in bios && bios[ids[0]].active then [ids[0]] else []) + FilterActive(ids[1..], bios)
  }

  /** Every non-blank line names a player with a biography. */
  predicate AllKnown(lines: seq<string>, bios: map<PlayerId, Bio>)
  {
    forall k :: 0 <= k < |lines| && Strip(lines[k]) != "" ==> Strip(lines[k]) in bios
  }

  lemma {:induction false} NonBlankLinesKnown(lines: seq<string>, bios: map<PlayerId, Bio>)
    requires AllKnown(lines, bios)
    ensures forall k :: 0 <= k < |NonBlankLines(lines)| ==> NonBlankLines(lines)[k] in bios
  {
    if lines != [] {
      assert AllKnown(lines[1..], bios) by {
        forall k | 0 <= k < |lines[1..]| && Strip(lines[1..][k]) != ""
          ensures Strip(lines[1..][k]) in bios
        {
          assert lines[1..][k] == lines[k + 1];
        }
      }
      NonBlankLinesKnown(lines[1..], bios);
    }
  }

  /** The read succeeds exactly when every non-blank line is known, and then
      it is the scraper's list with the inactive players removed. */
  lemma {:induction false} ActivePlayersIsFiltered(lines: seq<string>, bios: map<PlayerId, Bio>)
    ensures ActivePlayers(lines, bios).Ok? <==> AllKnown(lines, bios)
    ensures AllKnown(lines, bios) ==>
      ActivePlayers(lines, bios) == Ok(FilterActive(NonBlankLines(lines), bios))
  {
    if lines != [] {
      ActivePlayersIsFiltered(lines[1..], bios);
      var id := Strip(lines[0]);
      assert AllKnown(lines, bios) <==> (id != "" ==> id in bios) && AllKnown(lines[1..], bios) by {
        forall k | 0 <= k < |lines[1..]| ensures lines[1..][k] == lines[k + 1] {}
      }
      if AllKnown(lines, bios) {
        if id != "" {
          assert NonBlankLines(lines) == [id] + NonBlankLines(lines[1..]);
        } else {
          assert NonBlankLines(lines) == NonBlankLines(lines[1..]);
        }
      }
    }
  }

  /** The read fails at line `i`: it is the first non-blank line whose
      identifier has no biography, and the read reports that identifier. */
  predicate FailsAt(lines: seq<string>, bios: map<PlayerId, Bio>, i: int)
  {
    0 <= i < |lines| && Strip(lines[i]) != "" && Strip(lines[i]) !in bios
    && AllKnown(lines[..i], bios)
    && ActivePlayers(lines, bios) == Err(MissingBio(Strip(lines[i])))
  }

  /** A failed read names the first non-blank line without a biography. */
  lemma {:induction false} ActivePlayersError(lines: seq<string>, bios: map<PlayerId, Bio>)
    requires ActivePlayers(lines, bios).Err?
    ensures exists i :: FailsAt(lines, bios, i)
  {
    var id := Strip(lines[0]);
    if id != "" && id !in bios {
      assert lines[..0] == [];
      assert FailsAt(lines, bios, 0);
    } else {
      ActivePlayersError(lines[1..], bios);
      var j :| FailsAt(lines[1..], bios, j);
      FailsAtShift(lines, bios, j);
    }
  }

  lemma FailsAtShift(lines: seq<string>, bios: map<PlayerId, Bio>, j: int)
    requires lines != [] && (Strip(lines[0]) == "" || Strip(lines[0]) in bios)
    requires FailsAt(lines[1..], bios, j)
    ensures FailsAt(lines, bios, j + 1)
  {
    assert lines[1..][j] == lines[j + 1];
    assert AllKnown(lines[..j + 1], bios) by {
      forall k | 0 <= k < j + 1 ensures lines[..j + 1][k] == lines[k] {}
      forall k | 1 <= k < j + 1 ensures lines[k] == lines[1..][..j][k - 1] {}
    }
  }

  /** Every player read is known and active. */
  lemma {:induction false} ActivePlayersAreActive(lines: seq<string>, bios: map<PlayerId, Bio>)
    requires ActivePlayers(lines, bios).Ok?
    ensures forall k :: 0 <= k < |ActivePlayers(lines, bios).value| ==>
      var p := ActivePlayers(lines, bios).value[k]; p in bios && bios[p].active
  {
    if lines != [] {
      ActivePlayersAreActive(lines[1..], bios);
    }
  }
}
