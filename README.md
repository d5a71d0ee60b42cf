# Fantasy hockey rating engine, in Dafny

This project models the rating engine of a fantasy-hockey draft helper. It
proves properties of that model. The engine works in these steps:

- It reads per-season statistics tables named `<season>_<category>.json`
  (`full`, `ratios`, ...).
- It stitches three derived fields into the `ratios` tables:
  - the faceoff ratio and the fights ratio, copied from `full`;
  - an age factor from a clamped quadratic curve.
- Per season, it min-max normalises onto [0,1]:
  - every tracked ratio;
  - every player's fantasy points;
  - every team's fantasy score.
- It combines these into one rating per player. The rating is each season's
  weighted subscore, times the season's recency weight, summed over the
  seasons, then multiplied by the age factor and a team multiplier.
- It stages a season's statistics into the rows of five listings: totals,
  averages, deviations, ratios and the full set.
- It keeps the user's per-player annotations: a "picked" flag and a note.

Two helpers of the scraper are modelled as well:
- the pivot of per-player `{season: value}` dictionaries into
  `{season: [values]}`;
- the roster reader, which strips the lines and drops blank ones.

The modules are:

- `Tables`:
  - records (`map<string, real>`), tables (player to record), categories
    (season to table);
  - biographies;
  - the error values that stand for the source's exceptions.
- `Config`: the stat list, seasons and the three weight tables of the
  `DataManager` constructor.
- `MinMax`: Python's `min`/`max` and the `(v - lo) / (hi - lo) if hi > lo else 0` rescaling.
- `AgeCurve`: `get_age_ratio`.
- `Fantasy`: `get_fantasy_points` and `get_fantasy_ratio` (the fixed weighted sum over games played).
- `Normalization`: `normalize_ratios` and `get_normalized_fantasy_points`.
- `TeamScores`: `get_team_fantasy_scores`.
- `PlayerRating`: `get_rating`.
- `Stitching`: `_add_ratios_to_data`.
- `SeasonFiles`: `is_season_type`, the name splitting and the directory walk of `_load_bulk_data`.
- `Text` and `PlayerList`:
  - `str.strip()`;
  - both roster readers (the scraper's, and the data manager's, which keeps active players only).
- `Annotations`: `set_pick`/`set_note` as functions on the annotation map, and the `load_meta` defaults.
- `Query`:
  - `stage_data`;
  - the rows of `get_totals`, `get_averages`, `get_std`, `get_ratios` and `get_fullset`.
- `Pivot`: `convert_season_data`.
- `Manager`: the `DataManager` class. Its methods update its fields in
  place: loading, stitching, the `_store_*` loops, the annotation setters,
  and rating and listing.

The engine's loops are methods with loop invariants. Each method is proved
equal to a specification function. The properties are proved about those
functions as lemmas.

Where the source raises an exception, the model returns an error value:
- `min`/`max` of an empty population gives `Err(EmptyPopulation)`;
- a roster line without a biography gives `Err(MissingBio(id))`.

Lookups that the source performs without a guard are preconditions:
- a missing key (`KeyError`);
- division by zero games played.

Three facts about the code shape the model:
- At age 30 the age factor is exactly 1.0, and the upper clamp 1.2 never
  binds (`AgeCurve.AgeRatioAtPeak`, `AgeCurve.AgeRatioUpperClampInactive`).
- An empty population (`min([])`) and a roster line without a biography
  raise. Both are modelled as errors.
- The team term of `get_rating` is commented out at DataManager.py:385. It is
  not modelled.

## Model

| member | source | states |
|---|---|---|
| Tables.RatioFieldInjective | DataManager.py:154 | distinct stats read distinct `<stat>_ratio` fields, and conversely |
| Tables.NormFieldInjective | DataManager.py:164 | distinct stats write distinct `<stat>_norm` fields, and conversely |
| Config.TeamWeightRange | DataManager.py:389 | table check: `team_weights.get(team, 1.0)` lies in [0.9, 1.1] for every team code, known or not |
| Config.TeamWeightsInBand | DataManager.py:56-88 | table check: every configured team multiplier lies in [0.9, 1.1] |
| Config.YearWeightsPositive | DataManager.py:50-54 | table check: every season recency weight is positive |
| Config.YearWeightsIncreasing | DataManager.py:50-54 | table check: every configured season has a recency weight, and a later season weighs strictly more |
| MinMax.MinOfIsLeast | DataManager.py:155 | `min` of a non-empty population is one of its values and no value is below it |
| MinMax.MaxOfIsGreatest | DataManager.py:155 | `max` of a non-empty population is one of its values and no value is above it |
| MinMax.RescaleInUnit | DataManager.py:164 | every value of the population rescales into [0,1] |
| MinMax.RescaleAtMin | DataManager.py:164 | the population minimum rescales to 0 |
| MinMax.RescaleAtMax | DataManager.py:164 | the maximum rescales to 1 exactly when not all values are equal |
| MinMax.DegenerateIffAllEqual | DataManager.py:164 | max == min exactly when every value is the same |
| MinMax.RescaleDegenerate | DataManager.py:164 | an all-equal population rescales every value to 0 |
| MinMax.RescaleMonotone | DataManager.py:164 | with max > min the rescaling is strictly increasing |
| AgeCurve.CurveInBand | DataManager.py:248-251 | with minf <= maxf the clipped curve lies in [minf, maxf], whatever the other parameters |
| AgeCurve.CurveSymmetric | DataManager.py:250-251 | the curve gives ages peak-k and peak+k the same value, whatever the other parameters |
| AgeCurve.AgeRatioBounds | DataManager.py:248-251 | the default age factor lies in [0.8, 1.0], inside [0.8, 1.2] |
| AgeCurve.AgeRatioAtPeak | DataManager.py:248-251 | at age 30 the factor is exactly 1.0 |
| AgeCurve.AgeRatioSymmetric | DataManager.py:248-251 | ages 30-k and 30+k get the same factor |
| AgeCurve.AgeRatioUpperClampInactive | DataManager.py:250-251 | because alpha > 0 the upper clamp 1.2 never binds: the factor is the quadratic raised to the floor 0.8 |
| AgeCurve.AgeRatioFloor | DataManager.py:248-251 | the factor is the floor 0.8 exactly when the age is at least nine years from 30 |
| AgeCurve.AgeRatioFallsAwayFromPeak | DataManager.py:248-251 | moving further from age 30, on either side, never raises the factor |
| Fantasy.FantasyWeightsCover | DataManager.py:231-239 | a record with the seven weighted stats has every field the weight list reads |
| Fantasy.AccumulateWeighted | DataManager.py:241-243 | the `fp += r[v] * values[v]` loop ends with the weighted sum of the fields |
| Fantasy.GetFantasyPoints | DataManager.py:230-245 | the method returns the fantasy points per game of the player's record |
| Fantasy.GetFantasyRatio | DataManager.py:182-200 | the method returns the fantasy ratio; a player absent from the season's "full" table gets 0 |
| Fantasy.FantasyPointsClosedForm | DataManager.py:230-245 | fantasy points are (0.5 points + 2 plusMinus + 1 faceoff + 2 shg + 3 blocks + 5 pim + 7 hits) / gp |
| Fantasy.FantasyRatioClosedForm | DataManager.py:182-200 | the fantasy ratio is the same weighted sum over the `_ratio` fields, divided by gp |
| Fantasy.WeightedSumRaise | DataManager.py:241-243 | with positive weights, raising one weighted field strictly raises the sum |
| Fantasy.WeightedSumFrame | DataManager.py:241-243 | with positive weights, raising any field never lowers the sum |
| Fantasy.FantasyPointsRaise | DataManager.py:230-245 | with gp > 0, raising any of the seven weighted totals strictly raises the fantasy points |
| Normalization.ColumnHas | DataManager.py:154 | the ratio of every listed player present in the season is in the population |
| Normalization.ColumnEmpty | DataManager.py:154-155 | the population is empty exactly when no listed player is present in the season |
| Normalization.ColumnMembers | DataManager.py:154 | every value of the population is the ratio of some listed, present player (nothing from other seasons) |
| Normalization.RescaleStat | DataManager.py:157-164 | the inner loop gives every listed, present player (and no one else) its record with the new `_norm` field |
| Normalization.RescalePlayer | DataManager.py:158-164 | one inner iteration: a present player gets the rescaled field, an absent one is skipped |
| Normalization.NormalizeRatios | DataManager.py:151-166 | the loops compute `NormalizeSpec`: per stat, min and max over the season's population, then every present player's rescaled ratio; an empty population is an error |
| Normalization.NormRecordAt | DataManager.py:161-164 | a present player's record holds `<stat>_norm` for every stat, equal to its rescaled ratio |
| Normalization.NormRecordKeys | DataManager.py:161-164 | a normalised record holds no field other than the `<stat>_norm` ones |
| Normalization.NormalizeShape | DataManager.py:151-166 | normalisation fails exactly when stats are tracked and no listed player is present; otherwise its players are exactly the listed, present ones (absent players are skipped, not zeroed) |
| Normalization.NormalizedInUnit | DataManager.py:164 | every `<stat>_norm` value lies in [0,1] |
| Normalization.NormalizedExtremes | DataManager.py:155-164 | the season's minimum maps to 0; the maximum maps to 1 unless all ratios are equal, in which case every value is 0 |
| Normalization.FaceoffScenario | DataManager.py:151-166 | three players with faceoff ratios 0.40, 0.55 and 0.70 normalise to exactly 0, 0.5 and 1 |
| Normalization.FantasyColumnHas | DataManager.py:171 | the fantasy points of every listed, present player are in the population |
| Normalization.FantasyColumnEmpty | DataManager.py:171-172 | the population is empty exactly when no listed player is present |
| Normalization.NormalizeFantasyPoints | DataManager.py:169-180 | the loops compute `FantasyNormSpec`: min and max of the season's fantasy points, then every present player's rescaled points; an empty population is an error |
| Normalization.FantasyNormShape | DataManager.py:169-180 | the normalisation fails exactly when no listed player is present; otherwise its players are exactly the listed, present ones |
| Normalization.FantasyNormInUnit | DataManager.py:178 | every normalised fantasy score lies in [0,1] |
| Normalization.FantasyNormExtremes | DataManager.py:172-178 | the lowest scorer maps to 0; the highest maps to 1 unless all scores are equal, then every score is 0 |
| TeamScores.ContributionsTeams | DataManager.py:206-216 | a team receives a contribution exactly when a listed player present in the season plays for it |
| TeamScores.ContributionsEmpty | DataManager.py:206-208 | there are no contributions exactly when no listed player is present |
| TeamScores.TeamOrderMembers | DataManager.py:211-213 | the `teams` dictionary holds exactly the teams that received a contribution |
| TeamScores.TeamOrderDistinct | DataManager.py:211-213 | no team is entered twice |
| TeamScores.TeamTotalsAbsent | DataManager.py:211-216 | a team without contributions has neither fantasy ratio nor games |
| TeamScores.TeamGamesPositive | DataManager.py:218-220 | when every contribution has positive games, a team's score is its total divided by its games |
| TeamScores.TeamValuesHas | DataManager.py:223-224 | every team's score is in the population `min`/`max` are taken over |
| TeamScores.AddContribution | DataManager.py:210-216 | one present player adds its fantasy ratio and games to its team, creating the team at 0 |
| TeamScores.AddPlayer | DataManager.py:206-216 | one iteration of the first loop: present players contribute, absent ones are skipped |
| TeamScores.SumByTeam | DataManager.py:204-216 | the first loop ends with, per team and in first-appearance order, the summed fantasy ratio and games |
| TeamScores.DivideByGames | DataManager.py:218-220 | a team's total becomes a per-game figure only when its games are positive, and is kept otherwise |
| TeamScores.RescaleTeams | DataManager.py:222-227 | no teams is an error; otherwise every team gets its min-max rescaled score |
| TeamScores.GetTeamFantasyScores | DataManager.py:203-227 | the method computes `TeamScoresSpec`: sum per team, divide by games when positive, then rescale across teams |
| TeamScores.TeamScoresShape | DataManager.py:203-227 | the scores fail exactly when no listed player is present; otherwise they cover exactly the teams of the present players |
| TeamScores.TeamScoresInUnit | DataManager.py:226 | every team score lies in [0,1] |
| TeamScores.TeamScoresExtremes | DataManager.py:223-226 | the lowest team maps to 0; the highest maps to 1 unless all teams score the same, then every team gets 0 |
| PlayerRating.DefaultWeightsPositive | DataManager.py:36-88 | the constructor's tables hold every weight the rating reads, and all of them are positive |
| PlayerRating.SeasonRating | DataManager.py:376-386 | the chain of `season_rating +=` statements gives the season subscore |
| PlayerRating.SumSeasons | DataManager.py:370-387 | the loop over seasons gives the sum of the recency-weighted season terms |
| PlayerRating.GetRating | DataManager.py:369-389 | the method returns `Rating`: the season sum times the age factor times the team multiplier |
| PlayerRating.RatingTermsClosedForm | DataManager.py:376-383 | the ratio part of the subscore is the eight `_ratio` fields, each times its stat weight |
| PlayerRating.DefaultSubscoreClosedForm | DataManager.py:376-386 | with the constructor's tables, the subscore is the eight ratios weighted 0.10 ... 0.80, plus fantasy norm × 1.0, plus gp/82 × 0.5 |
| PlayerRating.RatingSumSplit | DataManager.py:371-387 | the season sum adds up over any split of the season list |
| PlayerRating.RatingIgnoresAbsentSeason | DataManager.py:373-374 | a season where the player has no ratios contributes nothing, wherever it is listed, without error |
| PlayerRating.RatingAllAbsent | DataManager.py:370-389 | a player without ratios in every season rates 0 |
| PlayerRating.SeasonTermRaise | DataManager.py:376-387 | raising one rated ratio in a season strictly raises that season's term and leaves the others |
| PlayerRating.RatingSumRaise | DataManager.py:370-387 | raising one rated ratio never lowers the season sum, and strictly raises it when the season is configured |
| PlayerRating.RatingRaise | DataManager.py:369-389 | with positive weights, raising one rated ratio of a configured season where the player has ratios strictly raises the rating (age factor >= 0.8, team multiplier > 0) |
| PlayerRating.ScaledRaise | DataManager.py:389 | the age and team multipliers keep a strict order |
| Stitching.StitchOne | DataManager.py:118-121 | one stitch keeps the seasons and players of the ratio tables |
| Stitching.StitchRecordIdempotent | DataManager.py:119-121 | stitching a record twice is stitching it once |
| Stitching.StitchSeasonsAt | DataManager.py:117-121 | the inner loop changes only the current player's records of the listed seasons |
| Stitching.StitchAllAt | DataManager.py:116-121 | after the nested loop, each (player, season) pair it reaches is stitched and every other record is as before |
| Stitching.StitchedRecords | DataManager.py:115-121 | a roster player present in a configured season's "full" table gets that season's faceoff and fights ratios and `AgeRatio(age)`, its other fields kept; every other record is untouched |
| Stitching.StitchAllIdempotent | DataManager.py:115-121 | running the stitching twice gives the same tables as once |
| Stitching.AddRatios | DataManager.py:115-121 | the nested loop computes `StitchAll`, players outside and seasons inside |
| Stitching.StitchPlayer | DataManager.py:117-121 | the inner loop computes the stitching of one player over the seasons |
| Stitching.StitchStep | DataManager.py:118-121 | one inner iteration writes the three fields when the player is in "full", and nothing otherwise |
| SeasonFiles.DigitsPrefix | DataManager.py:17 | `\d{k}` followed by a pattern matches exactly when the first k characters are digits and the rest matches |
| SeasonFiles.IsSeasonTypeIff | DataManager.py:16-18 | a name is accepted exactly when it has 8 ASCII digits, `_`, and a letter or digit; nothing after matters |
| SeasonFiles.IsSeasonTypeExtends | DataManager.py:16-18 | the match is a prefix match: an accepted name stays accepted with anything appended |
| SeasonFiles.FirstSegmentOf | DataManager.py:108 | `split('_')[0]` returns the part before the first underscore |
| SeasonFiles.LastSegmentOf | DataManager.py:107 | `split('_')[-1]` returns the part after the last underscore |
| SeasonFiles.RemoveSuffix | DataManager.py:107 | deleting ".json" from a dot-free stem followed by ".json" gives back the stem |
| SeasonFiles.SplitNameRoundTrip | DataManager.py:103-113 | the file written for a season and category is accepted and splits back into exactly that season and category |
| SeasonFiles.LoadFile | DataManager.py:254-260 | a file that is missing loads as the empty table |
| SeasonFiles.LoadAllContents | DataManager.py:103-113 | the data holds a table for a category and season exactly when an accepted listed file names them, and the table is the one rebuilt from them |
| SeasonFiles.LoadAllNoEmptyCategory | DataManager.py:109-113 | every category created holds at least one season |
| SeasonFiles.LoadAllOrderIrrelevant | DataManager.py:105-113 | two listings with the same entries load the same data |
| SeasonFiles.LoadBulkData | DataManager.py:103-113 | the directory walk computes `LoadAll` over the listing |
| Text.TrimLeftShape | getData.py:23 | `lstrip` keeps a suffix, drops only white space and leaves no leading white space |
| Text.TrimRightShape | getData.py:23 | `rstrip` keeps a prefix, drops only white space and leaves no trailing white space |
| Text.StripIsInfix | getData.py:23 | `strip` returns a piece of the line that neither starts nor ends in white space, with only white space around it |
| Text.StripEmptyIff | getData.py:23 | a line strips to "" exactly when it is all white space |
| Text.StripIdempotent | getData.py:23 | stripping twice is stripping once |
| PlayerList.NonBlankLines | getData.py:20-23 | the scraper's roster has no more entries than lines |
| PlayerList.NonBlankLinesAppend | getData.py:20-23 | reading two files' lines one after the other reads each in turn, so file order is kept |
| PlayerList.NonBlankLinesClean | getData.py:20-23 | every identifier read is non-empty and already stripped |
| PlayerList.NonBlankLinesCount | getData.py:20-23 | duplicates are kept: an identifier occurs as often as lines strip to it |
| PlayerList.NonBlankLinesKnown | DataManager.py:417-420 | when every non-blank line has a biography, every identifier read has one |
| PlayerList.ActivePlayersIsFiltered | DataManager.py:417-420 | the read succeeds exactly when every non-blank line has a biography, and then it is the stripped non-blank lines with inactive players removed |
| PlayerList.ActivePlayersError | DataManager.py:417-420 | a failed read reports the first non-blank line without a biography |
| PlayerList.ActivePlayersAreActive | DataManager.py:417-420 | every player read has a biography marked active |
| Annotations.Pick | DataManager.py:391-392 | `set_pick` changes only the player's flag: same players, same note, everyone else untouched |
| Annotations.Note | DataManager.py:394-395 | `set_note` changes only the player's note: same players, same flag, everyone else untouched |
| Annotations.PickLastWins | DataManager.py:391-392 | one-step map identity: the last pick of a player wins |
| Annotations.PicksCommute | DataManager.py:391-392 | one-step map identity: picks of different players commute |
| Annotations.PickNoteCommute | DataManager.py:391-395 | one-step map identity: picking and annotating commute, even for the same player |
| Annotations.PickSameIsIdentity | DataManager.py:391-392 | one-step map identity: re-picking with the current value changes nothing |
| Annotations.DefaultMeta | DataManager.py:408-413 | without a snapshot, every roster player and nobody else starts not picked with an empty note |
| Annotations.LoadMeta | DataManager.py:402-415 | the snapshot is taken as it is when present, and the roster defaults otherwise |
| Query.BaseOf | DataManager.py:130-136 | the base information has exactly Team, ID, Name, Pos and Age, from the biography |
| Query.Tag | DataManager.py:289-292 | the tag is empty exactly when no dataset is named, and `_` + dataset otherwise |
| Query.StatCellsContents | DataManager.py:303-304 | the stat cells are exactly the tagged stats, each the record's field or 0 when it is missing |
| Query.StagedStatsLower | DataManager.py:288 | every staged stat name starts with a lower-case letter |
| Query.StagedRowContents | DataManager.py:287-306 | a staged row holds GP, FP/GP, a Rating exactly when ranked, and every tagged stat; no cell hides another |
| Query.StageData | DataManager.py:287-306 | the method builds the staged row of the player's record |
| Query.RowKeepsEverything | DataManager.py:314 | a listing row keeps the Picked flag, every base cell and every stat cell |
| Query.StageView | DataManager.py:309-357 | the method stages the view's dataset (four datasets for the full set) |
| Query.FullSetContents | DataManager.py:350-355 | the full-set row carries the rating from the ranked ratio part, GP and FP/GP, and every staged stat under each of the four tags |
| Query.MergeShapes | DataManager.py:355 | merging a ranked staged row with three unranked ones keeps the rating and shadows no stat |
| Query.ColumnsAvoidBase | DataManager.py:314 | stat columns never collide with the Picked flag or the base columns |
| Query.ViewStatsAvoidsBase | DataManager.py:314 | no listing's stats overwrite the Picked flag or the base information |
| Query.InSeasonCount | DataManager.py:311-312 | the listed players are those present in the season, each as often as on the roster |
| Query.ListingStep | DataManager.py:311-314 | one more roster player appends its row exactly when present in the season |
| Query.ListingRows | DataManager.py:309-357 | a listing has one row per roster player present in the season, in roster order, and the k-th row is that player's flag, base information and stats |
| Pivot.PivotContents | getData.py:168-175 | the result's seasons are exactly the seasons of the input dictionaries, and each list holds that season's values in input order |
| Pivot.PivotListsNonEmpty | getData.py:173 | every list of the result is non-empty |
| Pivot.SeasonValuesAppend | getData.py:171-173 | pivoting two lists one after the other appends each season's values |
| Pivot.PivotLength | getData.py:171-173 | the lists' lengths add up to the number of (dictionary, season) pairs: nothing is lost or duplicated |
| Pivot.ConvertSeasonData | getData.py:168-175 | the loop computes `PivotAll` of the input list |
| Pivot.AppendEntry | getData.py:172-173 | the inner loop appends one dictionary's values, in whatever order it yields its seasons |
| Manager.BySeasonContents | DataManager.py:123-146 | gathering the configured seasons succeeds exactly when every season succeeds, and then holds each season's result; otherwise it reports the first failing season's error |
| Manager.BySeasonErrPersists | DataManager.py:125-126 | once a season has failed, later seasons do not change the outcome |
| Manager.StoredNormsInUnit | DataManager.py:123-126 | the stored norms of every configured season are that season's normalised ratios, all in [0,1] |
| Manager.GatherNorms | DataManager.py:124-126 | the `_store_normalized_ratios` loop computes the per-season gathering of `normalize_ratios` |
| Manager.GatherTeamScores | DataManager.py:139-141 | the `_store_team_fantasy_scores` loop computes the per-season gathering of `get_team_fantasy_scores` |
| Manager.GatherFantasyNorms | DataManager.py:144-146 | the `_store_fantasy_norms` loop computes the per-season gathering of `get_normalized_fantasy_points` |
| Manager.HoldsBaseStep | DataManager.py:129-136 | storing one more player's base information keeps the stored-base invariant |
| Manager.DataManager.constructor | DataManager.py:24-96 | the constructor's tables and seasons, the active roster, the annotations restored or defaulted, and the loaded season files |
| Manager.DataManager.AddRatiosToData | DataManager.py:115-121 | only the "ratios" category changes, to its stitched form |
| Manager.DataManager.StoreNormalizedRatios | DataManager.py:123-126 | "norms" gets every season's normalised ratios, or the first failing season's error; no other category changes |
| Manager.DataManager.StoreTeamFantasyScores | DataManager.py:138-141 | the team scores of every season, or the first failing season's error |
| Manager.DataManager.StoreFantasyNorms | DataManager.py:143-146 | the normalised fantasy points of every season, or the first failing season's error |
| Manager.DataManager.StorePlayerData | DataManager.py:128-136 | every roster player's base information comes from the biography; other entries are kept |
| Manager.DataManager.SetPick | DataManager.py:391-392 | the annotations become `Pick` of the old ones |
| Manager.DataManager.SetNote | DataManager.py:394-395 | the annotations become `Note` of the old ones |
| Manager.DataManager.Ratings | DataManager.py:369-389 | the ratings table holds exactly the roster players that can be rated |
| Manager.DataManager.GetRating | DataManager.py:369-389 | `get_rating` over the manager's tables |
| Manager.DataManager.ListView | DataManager.py:309-357 | the listing loop computes `Listing` of the view over the roster |
| Manager.DataManager.GetTotals | DataManager.py:336-343 | the totals listing, ranked, with untagged stats |
| Manager.DataManager.GetAverages | DataManager.py:309-316 | the averages listing, ranked, with `_avg` stats |
| Manager.DataManager.GetStd | DataManager.py:318-325 | the deviations listing, ranked, with `_sd` stats |
| Manager.DataManager.GetRatios | DataManager.py:327-334 | the ratios listing, ranked, with `_ratio` stats |
| Manager.DataManager.GetFullset | DataManager.py:345-357 | the full-set listing: ranked ratios merged with unranked totals, averages and deviations |

## Left out

- File I/O are parameters of the model:
  - The model receives the JSON files as a map from file name to parsed table.
  - It receives the directory listing as a sequence of names.
  - It receives the roster file as a sequence of lines.
  - It receives the annotation snapshot as an optional map.
- `save_meta`, `toCVS` (pandas), `get_player_data`, `get_player_bio` and `get_ratings` are not modelled. They are output plumbing or one-line wrappers around modelled operations.
- The NHL client fetching, the thread pools and the standard-deviation code of the scraper are not modelled. They are network access, concurrency and floating point fed from network data.
- Floating point: every ratio and weight is a `real`, so IEEE rounding is not modelled.
- Python dictionary key order is not modelled. Maps are unordered, so the column order of a listing row and the order of the `teams` dictionary's keys are not stated. The order of `teams.values()` is kept explicitly as a sequence, because `min`/`max` are taken over it.
- The `__init__` pipeline is split up:
  - `Manager.DataManager.constructor` models lines 24-96.
  - The calls at lines 97-101 are the methods `AddRatiosToData`, `StoreNormalizedRatios`, `StorePlayerData`, `StoreTeamFantasyScores` and `StoreFantasyNorms`. A caller runs them in that order.
- The weight tables are the fixed ones of the constructor; there is no other way to set them.
- `SeasonFiles.IsSeasonTypeIff`: `\d` is modelled as the ASCII digits. Python's `re` also accepts other Unicode decimal digits.
- The second, identical `is_season_type` at DataManager.py:423-425 is the same function as the first and is not modelled twice.
- `Annotations.LoadMeta`: a snapshot is modelled as a map of records that all have both fields. A snapshot whose records lack a field is not modelled.
- `Manager.DataManager.StoreNormalizedRatios`: on an error, the contract does not state the partial results left behind. This also holds for `StoreTeamFantasyScores` and `StoreFantasyNorms`. In the source the exception propagates out of the constructor, so those partial results are never observed.
- `Query.StageData`: the rating is computed by the caller (the listing loop) and passed in. In the source, `stage_data` calls `get_rating` itself; the value is the same.
- `Query.StagedRowContents`: the lemma states the GP cell as `r["gp"]`. `StagedRow` and `StageData` keep the source's `.get('gp', 0)` default (`GetOr0(r, "gp")`). The lemma may drop it because its precondition `FantasyReady` requires the `gp` key, as the FP/GP cell of the same row (which reads `['gp']`) does in the source.
- Exceptions are modelled as `Result`/`Option` values. This covers `min`/`max` of an empty population and a roster line without a biography. Unguarded lookups and division by zero games played are preconditions of the operations that perform them.
