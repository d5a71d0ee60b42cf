/** Recognising the per-season data files ("20232024_full.json") in the data
    directory, taking their names apart, and loading them into one table per
    category and season. */
module SeasonFiles {
  import opened Tables

  // ---------------------------------------------------------------------
  // The pattern `^\d{8}_[a-zA-Z0-9]+`, matched at the start of a name
  // ---------------------------------------------------------------------

  /** An ASCII decimal digit. */
  predicate IsDigit(c: char)
  {
    '0' <= c <= '9'
  }

  /** An ASCII letter or digit. */
  predicate IsAlnum(c: char)
  {
    ('a' <= c <= 'z') || ('A' <= c <= 'Z') || IsDigit(c)
  }

  /** The character classes the pattern uses. */
  datatype CharClass = Digit | Alnum | Literal(c: char)

  /** One element of a pattern: its class exactly once, or once or more. */
  datatype Piece = Once(cls: CharClass) | Plus(cls: CharClass)

  predicate InClass(cls: CharClass, c: char)
  {
    match cls
    case Digit => IsDigit(c)
    case Alnum => IsAlnum(c)
    case Literal(l) => c == l
  }

  /** Regular-expression matching anchored at the start of `s` and not at its
      end: some prefix of `s` matches `pat`, trying every length of a `Plus`. */
  function MatchesPrefix(pat: seq<Piece>, s: string): bool
    decreases |s|, |pat|
  {
    if pat == [] then true
    else if s == [] || !InClass(pat[0].cls, s[0]) then false
    else
      match pat[0]
      case Once(_) => MatchesPrefix(pat[1..], s[1..])
      case Plus(_) => MatchesPrefix(pat[1..], s[1..]) || MatchesPrefix(pat, s[1..])
  }

  /** `\d{k}`. */
  function Digits(k: nat): (pat: seq<Piece>)
    ensures |pat| == k
  {
    if k == 0 then [] else [Once(Digit)] + Digits(k - 1)
  }

  /** `\d{8}_[a-zA-Z0-9]+`. */
  const SEASON_PATTERN: seq<Piece> := Digits(8) + [Once(Literal('_')), Plus(Alnum)]

  /** The name starts with a season token and a category tag. */
  predicate IsSeasonType(name: string)
  {
    MatchesPrefix(SEASON_PATTERN, name)
  }

  /** The first `k` characters are digits. */
  predicate AllDigits(s: string)
  {
    forall i :: 0 <= i < |s| ==> IsDigit(s[i])
  }

  lemma {:induction false} DigitsPrefix(k: nat, tail: seq<Piece>, s: string)
    ensures MatchesPrefix(Digits(k) + tail, s) <==>
      |s| >= k && AllDigits(s[..k]) && MatchesPrefix(tail, s[k..])
  {
    if k == 0 {
      assert Digits(k) + tail == tail && s[k..] == s;
    } else {
      var pat := Digits(k) + tail;
      assert pat[0] == Once(Digit) && pat[1..] == Digits(k - 1) + tail;
      if s != [] {
        assert MatchesPrefix(pat, s) == (IsDigit(s[0]) && MatchesPrefix(pat[1..], s[1..]));
        DigitsPrefix(k - 1, tail, s[1..]);
        if |s| >= k {
          assert s[1..][k - 1..] == s[k..];
          assert AllDigits(s[..k]) <==> IsDigit(s[0]) && AllDigits(s[1..][..k - 1]) by {
            forall i | 1 <= i < k ensures s[..k][i] == s[1..][..k - 1][i - 1] {}
          }
        }
      }
    }
  }

  /** A single trailing `Plus` needs only its first character. */
  lemma PlusAlone(cls: CharClass, s: string)
    ensures MatchesPrefix([Plus(cls)], s) <==> s != [] && InClass(cls, s[0])
  {
    if s != [] && InClass(cls, s[0]) {
      assert [Plus(cls)][1..] == [];
    }
  }

  /** What the season pattern accepts, spelled out: eight ASCII digits, an
      underscore and a letter or digit; whatever follows is irrelevant. */
  lemma IsSeasonTypeIff(name: string)
    ensures IsSeasonType(name) <==>
      |name| >= 10 && AllDigits(name[..8]) && name[8] == '_' && IsAlnum(name[9])
  {
    var tail := [Once(Literal('_')), Plus(Alnum)];
    DigitsPrefix(8, tail, name);
    if |name| >= 8 {
      var rest := name[8..];
      assert tail[0] == Once(Literal('_')) && tail[1..] == [Plus(Alnum)];
      if rest != [] {
        PlusAlone(Alnum, rest[1..]);
        assert rest[0] == name[8];
        if |rest| > 1 {
          assert rest[1..][0] == name[9];
        }
      }
    }
  }

  /** Matching at the start only: a name that matches still matches with
      anything appended. */
  lemma IsSeasonTypeExtends(name: string, more: string)
    requires IsSeasonType(name)
    ensures IsSeasonType(name + more)
  {
    IsSeasonTypeIff(name);
    IsSeasonTypeIff(name + more);
    assert (name + more)[..8] == name[..8];
  }

  // ---------------------------------------------------------------------
  // Taking the name apart
  // ---------------------------------------------------------------------

  /** `s.replace(pat, "")`: every non-overlapping occurrence of `pat`,
      found from left to right, is removed. */
  function RemoveAll(s: string, pat: string): string
    requires pat != ""
    decreases |s|
  {
    if |s| < |pat| then s
    else if s[..|pat|] == pat then RemoveAll(s[|pat|..], pat)
    else [s[0]] + RemoveAll(s[1..], pat)
  }

  /** `s.split(sep)[0]`: everything before the first separator. */
  function FirstSegment(s: string, sep: char): string
  {
    if s == [] || s[0] == sep then [] else [s[0]] + FirstSegment(s[1..], sep)
  }

  /** `s.split(sep)[-1]`: everything after the last separator. */
  function LastSegment(s: string, sep: char): string
  {
    if s == [] || s[|s| - 1] == sep then [] else LastSegment(s[..|s| - 1], sep) + [s[|s| - 1]]
  }

  /** The key a data file is stored under. */
  datatype FileKey = FileKey(season: Season, category: string)

  /** The category is the last underscore-separated part of the name once
      ".json" is deleted; the season is the part before the first underscore. */
  function SplitName(filename: string): FileKey
  {
    FileKey(FirstSegment(filename, '_'), LastSegment(RemoveAll(filename, ".json"), '_'))
  }

  /** The file name the loader opens for a category and season. */
  function FileName(season: Season, category: string): string
  {
    season + "_" + category + ".json"
  }

  /** `name.endswith(suffix)`. */
  predicate EndsWith(name: string, suffix: string)
  {
    |suffix| <= |name| && name[|name| - |suffix|..] == suffix
  }

  /** A directory entry the loader takes. */
  predicate Accepted(filename: string)
  {
    EndsWith(filename, ".json") && IsSeasonType(filename)
  }

  lemma {:induction false} FirstSegmentOf(a: string, sep: char, b: string)
    requires sep !in a
    ensures FirstSegment(a + [sep] + b, sep) == a
  {
    if a != [] {
      assert (a + [sep] + b)[1..] == a[1..] + [sep] + b;
      FirstSegmentOf(a[1..], sep, b);
    }
  }

  lemma {:induction false} LastSegmentOf(a: string, sep: char, b: string)
    requires sep !in b
    ensures LastSegment(a + [sep] + b, sep) == b
  {
    var s := a + [sep] + b;
    if b != [] {
      assert s[..|s| - 1] == a + [sep] + b[..|b| - 1];
      LastSegmentOf(a, sep, b[..|b| - 1]);
    } else {
      assert s[|s| - 1] == sep;
    }
  }

  lemma {:induction false} RemoveSuffix(x: string)
    requires '.' !in x
    ensures RemoveAll(x + ".json", ".json") == x
  {
    if x == [] {
      assert x + ".json" == ".json";
      assert RemoveAll("", ".json") == "";
    } else {
      var s := x + ".json";
      assert s[..5][0] == x[0];
      assert s[1..] == x[1..] + ".json";
      RemoveSuffix(x[1..]);
    }
  }

  /** The file written for a season and a category is recognised and taken
      apart into exactly that season and category, provided neither contains
      an underscore or a dot and the season is eight digits. */
  lemma SplitNameRoundTrip(season: Season, category: string)
    requires |season| == 8 && AllDigits(season)
    requires category != [] && IsAlnum(category[0])
    requires '_' !in category && '.' !in category
    ensures Accepted(FileName(season, category))
    ensures SplitName(FileName(season, category)) == FileKey(season, category)
  {
    var name := FileName(season, category);
    assert '_' !in season && '.' !in season by {
      forall i | 0 <= i < |season| ensures season[i] != '_' && season[i] != '.' {
        assert IsDigit(season[i]);
      }
    }
    assert name == season + ['_'] + (category + ".json");
    FirstSegmentOf(season, '_', category + ".json");
    assert name == (season + "_" + category) + ".json";
    RemoveSuffix(season + "_" + category);
    assert season + "_" + category == season + ['_'] + category;
    LastSegmentOf(season, '_', category);
    IsSeasonTypeIff(name);
    assert name[..8] == season && name[8] == '_' && name[9] == category[0];
  }

  // ---------------------------------------------------------------------
  // Loading
  // ---------------------------------------------------------------------

  /** The table the loader reads for a category and season: the contents of
      the file it rebuilds from them, or the empty table when that file is
      missing or unreadable. `files` maps the names in the data directory to
      their parsed contents. */
  function LoadFile(files: map<string, Table>, category: string, season: Season): (t: Table)
    ensures FileName(season, category) !in files ==> t == map[]
  {
    var name := FileName(season, category);
    if name in files then files[name] else map[]
  }

  /** The data after one directory entry is considered. */
  function AddEntry(data: map<string, Category>, files: map<string, Table>, filename: string): map<string, Category>
  {
    if Accepted(filename) then
      var key := SplitName(filename);
      var cat := if key.category in data then data[key.category] else map[];
      data[key.category := cat[key.season := LoadFile(files, key.category, key.season)]]
    else data
  }

  /** The data after the whole listing is considered, in listing order. */
  function LoadAll(data: map<string, Category>, files: map<string, Table>, listing: seq<string>): map<string, Category>
  {
    if listing == [] then data
    else AddEntry(LoadAll(data, files, listing[..|listing| - 1]), files, listing[|listing| - 1])
  }

  /** Some accepted entry of the listing names this season and category. */
  predicate Listed(listing: seq<string>, key: FileKey)
  {
    exists i :: 0 <= i < |listing| && Accepted(listing[i]) && SplitName(listing[i]) == key
  }

  /** The loader's result holds a table for a category and season exactly when
      an accepted file of the listing names them, and that table is the one
      rebuilt from them (even when the listed file had a different name). */
  lemma {:induction false} LoadAllContents(files: map<string, Table>, listing: seq<string>, key: FileKey)
    ensures var d := LoadAll(map[], files, listing);
      (key.category in d && key.season in d[key.category]) <==> Listed(listing, key)
    ensures var d := LoadAll(map[], files, listing);
      key.category in d && key.season in d[key.category] ==>
        d[key.category][key.season] == LoadFile(files, key.category, key.season)
  {
    if listing != [] {
      var init := listing[..|listing| - 1];
      var last := listing[|listing| - 1];
      LoadAllContents(files, init, key);
      ListedStep(listing, key);
    }
  }

  lemma ListedStep(listing: seq<string>, key: FileKey)
    requires listing != []
    ensures var last := listing[|listing| - 1];
      Listed(listing, key) <==>
        Listed(listing[..|listing| - 1], key) || (Accepted(last) && SplitName(last) == key)
  {
    var init := listing[..|listing| - 1];
    if Listed(listing, key) {
      var i :| 0 <= i < |listing| && Accepted(listing[i]) && SplitName(listing[i]) == key;
      if i < |listing| - 1 {
        assert init[i] == listing[i];
      }
    }
    if Listed(init, key) {
      var i :| 0 <= i < |init| && Accepted(init[i]) && SplitName(init[i]) == key;
      assert listing[i] == init[i];
    }
  }

  /** Every category the loader creates holds at least one season. */
  lemma {:induction false} LoadAllNoEmptyCategory(files: map<string, Table>, listing: seq<string>, category: string)
    requires category in LoadAll(map[], files, listing)
    ensures exists season :: season in LoadAll(map[], files, listing)[category]
  {
    if listing != [] {
      var init := listing[..|listing| - 1];
      var last := listing[|listing| - 1];
      var d := LoadAll(map[], files, init);
      if category in d {
        LoadAllNoEmptyCategory(files, init, category);
        var season :| season in d[category];
        assert season in LoadAll(map[], files, listing)[category];
      } else {
        assert SplitName(last).season in LoadAll(map[], files, listing)[category];
      }
    }
  }

  /** The directory's listing order does not matter: two listings with the
      same entries load the same data. */
  lemma LoadAllOrderIrrelevant(files: map<string, Table>, l1: seq<string>, l2: seq<string>)
    requires forall f :: f in l1 <==> f in l2
    ensures LoadAll(map[], files, l1) == LoadAll(map[], files, l2)
  {
    var d1, d2 := LoadAll(map[], files, l1), LoadAll(map[], files, l2);
    forall key: FileKey ensures Listed(l1, key) <==> Listed(l2, key) {
      if Listed(l1, key) {
        var i :| 0 <= i < |l1| && Accepted(l1[i]) && SplitName(l1[i]) == key;
        assert l1[i] in l2;
        var j :| 0 <= j < |l2| && l2[j] == l1[i];
      }
      if Listed(l2, key) {
        var j :| 0 <= j < |l2| && Accepted(l2[j]) && SplitName(l2[j]) == key;
        assert l2[j] in l1;
        var i :| 0 <= i < |l1| && l1[i] == l2[j];
      }
    }
    forall c | c in d1 ensures c in d2 && d1[c] == d2[c] {
      LoadAllNoEmptyCategory(files, l1, c);
      var s :| s in d1[c];
      LoadAllContents(files, l1, FileKey(s, c));
      LoadAllContents(files, l2, FileKey(s, c));
      SameCategory(files, l1, l2, c);
    }
    forall c | c in d2 ensures c in d1 {
      LoadAllNoEmptyCategory(files, l2, c);
      var s :| s in d2[c];
      LoadAllContents(files, l1, FileKey(s, c));
      LoadAllContents(files, l2, FileKey(s, c));
    }
  }

  lemma SameCategory(files: map<string, Table>, l1: seq<string>, l2: seq<string>, c: string)
    requires forall key: FileKey :: Listed(l1, key) <==> Listed(l2, key)
    requires c in LoadAll(map[], files, l1) && c in LoadAll(map[], files, l2)
    ensures LoadAll(map[], files, l1)[c] == LoadAll(map[], files, l2)[c]
  {
    var m1, m2 := LoadAll(map[], files, l1)[c], LoadAll(map[], files, l2)[c];
    forall s ensures (s in m1 <==> s in m2) && (s in m1 ==> m1[s] == m2[s]) {
      LoadAllContents(files, l1, FileKey(s, c));
      LoadAllContents(files, l2, FileKey(s, c));
    }
  }

  /** The loader: walk the directory listing, and for every accepted entry
      store the table rebuilt from its season and category. */
  method LoadBulkData(files: map<string, Table>, listing: seq<string>) returns (data: map<string, Category>)
    ensures data == LoadAll(map[], files, listing)
  {
    data := map[];
    var i := 0;
    while i < |listing|
      invariant 0 <= i <= |listing|
      invariant data == LoadAll(map[], files, listing[..i])
    {
      var filename := listing[i];
      assert listing[..i + 1][..i] == listing[..i];
      if EndsWith(filename, ".json") && IsSeasonType(filename) {
        var category := LastSegment(RemoveAll(filename, ".json"), '_');
        var season := FirstSegment(filename, '_');
        if category in data {
          data := data[category := data[category][season := LoadFile(files, category, season)]];
        } else {
          data := data[category := map[]];
          data := data[category := data[category][season := LoadFile(files, category, season)]];
        }
      }
      i := i + 1;
    }
    assert listing[..i] == listing;
  }
}
