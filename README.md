# Flamme Rouge course builder — a Dafny model of its core

The Flamme Rouge course builder lets a user lay out a race course from
printed track tiles. Its core is `script.js`:

- **Course state.** The placed tiles, the instance counter that namespaces each
  tile's drawing, the per-tile usage counters and the list of checkpoints.
- **Course operations.** Placing a tile, undo, reset, and adding or removing the
  last checkpoint.
- **Chain placement.** Each new tile's entry socket is put on the previous
  tile's exit socket, turned so that the tangents line up.
- **Reading a tile drawing.** The socket anchors, the goal anchor pairs, and
  the renaming of every id with a per-instance prefix.
- **Tile classification.** The length class of a tile from its goal keys, its
  racing length, the setup counters and badges, and the terrain square totals.
- **The elevation profile.** The tiles with a terrain track are spread across
  the profile frame, flattened into clamped straight steps, and counted. Start,
  finish and checkpoint markers are placed. One bottom number is kept per
  square count.

This project models that core in Dafny and proves properties of it.

## Modules

| file | module | contents |
|---|---|---|
| `wrappers.dfy` | `Wrappers` | `Option` |
| `strings.dfy` | `Strings` | prefixes and suffixes, decimal numerals, `parseInt`, ASCII upper case |
| `geometry.dfy` | `Geometry` | points, `rotatePoint`, `localToGlobal`, the pose of a tile on the chain |
| `drawing.dfy` | `Drawing` | drawing elements, `getXY`, `readSocket`, `collectGoals`, `namespaceIds` (in place on an array) |
| `tiles.dfy` | `Tiles` | tile metadata, placed tiles, checkpoints, the `-upp` base id |
| `classify.dfy` | `Classify` | `maxLengthForTileGoals`, `racingLengthForTile`, `computeMetrics`, `computeSquareTotals` |
| `builder.dfy` | `Builder` | the course state: the class `Course`, whose methods are proved against functions on `CourseState`, with the lemmas about those functions |
| `profile.dfy` | `Profile` | the profile frame, spans, step range, rise, the flattened steps, counts, start and finish |
| `profile_markers.dfy` | `ProfileMarkers` | kept tiles, checkpoint projection, markers, number deduplication, the smoothed curve, the whole profile computation |

Real numbers stand for JavaScript numbers. `Math.cos`, `Math.sin` and
`Math.atan2` are a `Trig` value: three arbitrary total functions. Every
geometric fact proved holds for any choice of them. `RotatePreservesNorm` and
`LocalToGlobalIsRigid` also assume cos² + sin² = 1 at the angle used.

## Where the code and the design description disagree

This model follows the code in each of these cases.

- **Replace-at-index.** The design describes replacing a tile at any index,
  re-laying out every later tile, and pruning checkpoints whose anchor
  disappears. `script.js` has only append (`placeTile`) and remove-last
  (`undo`). `undo` leaves checkpoints bound to the removed tile in the list,
  and marker placement skips them (`UndoKeepsEarlierTiles`).
- **Rejected tiles.** The design says a rejected tile leaves the state
  unchanged. In the code, `placeTile` bumps the tile's usage counter before
  parsing the drawing, so a rejected tile is still counted. A drawing that
  parses bumps `nextId` too, before the socket anchors are checked, so one
  that lacks an anchor also uses up an instance number. A drawing that fails
  to parse returns first and leaves `nextId` alone (`PlaceOutcome`).

## Model

| member | source | states |
|---|---|---|
| `Strings.NatToString` | script.js:352 | the instance number written in decimal: non-empty and made only of digits |
| `Strings.LeadingDigits` | script.js:704 | the longest run of decimal digits at the start of a string: a prefix, all digits, followed by a non-digit or the end |
| `Strings.TrimStart` | script.js:704 | `parseInt` skips exactly a leading run of JavaScript white space: the result is a suffix of the input that does not start with white space |
| `Strings.DigitsValueOfNatToString` | script.js:352 | the numeral of `n` reads back as `n` |
| `Strings.ParseIntOfNatToString` | script.js:704 | `parseInt` of a decimal numeral returns its number |
| `Strings.NatToStringInjective` | script.js:352 | different instance numbers have different numerals |
| `Strings.UpperAscii` | script.js:547 | a lower-case ASCII letter becomes its own capital, 32 code points lower and in `A`..`Z`; any other character is unchanged |
| `Strings.ToUpperAscii` | script.js:547 | upper-casing keeps the length and maps each character by `UpperAscii` |
| `Geometry.Midpoint` | script.js:571 | the midpoint is as far from one end as from the other: `m - p == q - m` |
| `Geometry.PlaceAt` | script.js:366-379 | the pose with the requested rotation that maps the given local point onto the target |
| `Geometry.FirstPose` | script.js:366-370 | the first tile has rotation 0, and its entry point lands on (2000, 1500) |
| `Geometry.NextPose` | script.js:371-379 | a later tile's entry lands on the previous tile's exit in world coordinates; its rotation plus its entry angle equals the previous rotation plus the previous exit angle |
| `Geometry.RotateMinus` | script.js:605-608 | rotating a difference gives the difference of the rotated points |
| `Geometry.RotatePreservesNorm` | script.js:605-608 | when cos² + sin² = 1, rotation keeps squared length |
| `Geometry.LocalToGlobalIsRigid` | script.js:609-612 | when cos² + sin² = 1, placing a tile keeps every distance within it |
| `Drawing.GetXY` | script.js:652-657 | the position comes from `cx/cy` if `cx` is present, else from `x/y`, else from `x1/y1`, else it is (0, 0); a missing second coordinate reads as 0 |
| `Drawing.FirstWithId` | script.js:637-641 | the id lookup finds the first element with that id, or reports that none has it |
| `Drawing.ReadSocket` | script.js:636-651 | no socket exactly when the entry point, exit point, entry direction or exit direction is missing; otherwise the points are those anchors' positions, the angles are `atan2` from each point to its direction anchor, and a centre is present exactly when its anchor is |
| `Drawing.GatherGoalsLast` | script.js:658-670 | visiting one more element adds its key and sets its one end; every other key and end keeps its value |
| `Drawing.GatherGoalsKeys` | script.js:658-670 | a key is collected exactly when some goal anchor names it, as an `a` or a `b` end |
| `Drawing.GatherGoalsHasEnd` | script.js:658-670 | an end of a key is set exactly when an anchor for that end exists |
| `Drawing.GatherGoalsLastEnd` | script.js:658-670 | a set end holds the position of the last anchor for that key and end in document order |
| `Drawing.LastAnchorExtend` | script.js:658-670 | an element that is not an anchor for a given key and end keeps the last such anchor last |
| `Drawing.CollectGoalsSpec` | script.js:658-672 | a key survives exactly when it has both an `a` and a `b` anchor, and each end is the position of that end's last anchor |
| `Drawing.ReplaceAllAbsent` | script.js:690 | replacing a pattern that does not occur changes nothing |
| `Drawing.ReplaceAllSkip` | script.js:690 | text before the first occurrence is copied unchanged and the scan resumes after it |
| `Drawing.ReplaceAllFirst` | script.js:690 | the first occurrence is replaced and the scan resumes right after it, left to right |
| `Drawing.ReplaceAllLeavesRep` | script.js:690 | replacing a pattern that occurs leaves the replacement in the result |
| `Drawing.UrlRefsApart` | script.js:688-690 | occurrences of `url(#p)` and `url(#q)` for different plain names never overlap |
| `Drawing.ReplaceAllKeepsUrl` | script.js:688-690 | rewriting `url(#p)` keeps every `url(#q)` reference for another plain name `q` |
| `Drawing.HashHasNoUrl` | script.js:688-691 | a value `#n` holds no `url(#...)` reference, so only the exact-match test can change it |
| `Drawing.RewriteHash` | script.js:688-691 | one rename turns `#n` into `#new` when `n` is the old id, and leaves it alone otherwise |
| `Drawing.RewriteUrl` | script.js:688-691 | after one rename a value that referred to `url(#q)` refers to `url(#new)` if `q` was the old id, else still to `url(#q)` |
| `Drawing.RewriteValueSpec` | script.js:688-691 | `#old` becomes `#new`, `url(#old)` becomes `url(#new)`, and a value containing neither is unchanged |
| `Drawing.RetargetedAll` | script.js:682-692 | rewriting every element once in order gives every element's references retargeted |
| `Drawing.RewriteRefsInPlace` | script.js:682-692 | afterwards the array holds each original element with its reference attributes rewritten from the old id to the new one |
| `Drawing.NamespaceIds` | script.js:673-695 | afterwards the array holds the namespaced copy of the original drawing |
| `Drawing.RenameStepAttr` | script.js:682-692 | one outer iteration keeps every reference attribute and rewrites its value for that iteration's old and new id |
| `Drawing.RenameFromValue` | script.js:675-692 | from element `i` on, a reference attribute goes through the renames of the remaining ids one after the other, in element order |
| `Drawing.HashKept` | script.js:675-692 | a `#n` value whose name is never renamed is unchanged |
| `Drawing.HashFollows` | script.js:675-692 | a `#n` value becomes `#` + prefix + `n` at the rename of `n`, and later renames leave it alone |
| `Drawing.UrlKept` | script.js:675-692 | a `url(#n)` reference whose name is never renamed survives every rename |
| `Drawing.UrlFollows` | script.js:675-692 | a `url(#n)` reference becomes one to prefix + `n` at the rename of `n`, and survives the later renames |
| `Drawing.NamespacedRefs` | script.js:673-695 | after namespacing, a reference attribute is still present; if it was `#id` of an element it is `#` + prefix + id, and if it held `url(#id)` it holds `url(#` + prefix + id + `)` |
| `Drawing.RenameFromSpec` | script.js:673-695 | renaming from element `i` on prefixes exactly the ids from `i` onward; coordinates, attribute names and non-reference attributes are unchanged |
| `Drawing.NamespacedSpec` | script.js:673-695 | namespacing prefixes every id and keeps coordinates, attribute names and non-reference attributes |
| `Drawing.FirstWithIdPrefixed` | script.js:637-641 | after namespacing, looking up `prefix + id` finds the same element as looking up `id` before |
| `Drawing.StartsWithPrefixed` | script.js:659 | a common prefix does not change whether one id starts with another |
| `Drawing.GoalRolePrefixed` | script.js:659-665 | a prefixed goal anchor has the same key and end as the bare one |
| `Drawing.GatherGoalsPrefixed` | script.js:658-670 | gathering goals from a namespaced drawing with its prefix gives what the bare drawing gives |
| `Drawing.ReadSocketNamespaced` | script.js:352-355 | reading the socket of the namespaced drawing with its prefix gives the socket of the bare drawing |
| `Drawing.CollectGoalsNamespaced` | script.js:352-358 | the goal pairs of the namespaced drawing are those of the bare drawing |
| `Tiles.BaseId` | script.js:343 | a trailing `-upp` is removed, so both faces of a tile share a counter; any other id is kept |
| `Classify.Bucket` | script.js:708-711 | the length class is 0, 2, 3 or 6, never more than the number (unless 0), and 6, at least 3, or at least 2 when the number is at least 6, 3 or 2 |
| `Classify.MaxKeyNumber` | script.js:701-707 | the largest number `parseInt` finds among the keys, or 0: at least every parsed key, and either 0 or attained |
| `Classify.MaxNumberStep` | script.js:704-706 | one loop step keeps the running value the maximum of the keys seen |
| `Classify.MaxNumberUnique` | script.js:701-707 | the maximum is unique, so the key order does not matter |
| `Classify.MaxLengthForTileGoals` | script.js:700-711 | the loop returns the bucketed maximum goal number, one of 0, 2, 3 and 6 |
| `Classify.RacingLengthForTile` | script.js:712-717 | 1 for the fixed one-square tiles, 2 for the fixed two-square tiles, else the length class |
| `Classify.SetupBadge` | script.js:732-735 | the badge label is the tile's label when it has one, else its id when that is non-empty, else `?`, so never empty; the badge is dark exactly for a back face or a dark theme |
| `Classify.TallyStep` | script.js:721-728 | one more tile adds one to the long, medium or turn count for its class 6, 3 or 2, its class to the track length, and its racing length to the racing total |
| `Classify.ComputeMetrics` | script.js:718-737 | the total is the number of tiles; the long, medium and turn counts are the numbers of tiles of class 6, 3 and 2; track and racing are the sums of class and racing length; one badge per tile in order |
| `Classify.TrackLengthByClass` | script.js:721-727 | the track length is 6 × long + 3 × medium + 2 × turns, and those counts add up to at most the number of tiles |
| `Classify.RacingTotalWithoutFixedTiles` | script.js:712-728 | without the fixed-length tiles the racing length equals the track length |
| `Classify.ComputeSquareTotals` | script.js:762-776 | each terrain total is the sum of that field over the placed tiles |
| `Classify.SumStatsAppend` | script.js:762-776 | the totals of two runs of tiles add up |
| `Builder.PrefixInjective` | script.js:352 | different instance numbers give different prefixes |
| `Builder.PoseAfter` | script.js:366-379 | the first tile is at the origin with rotation 0; a later tile joins the previous one at the seam, in position and in angle |
| `Builder.BumpCount` | script.js:343 | the tile's counter is one more than before (0 if it was absent), and no other counter changes |
| `Builder.DropCount` | script.js:585-588 | the counter drops by one only when it is positive; no other counter and no key changes, so counters never go negative |
| `Builder.CheckpointLabel` | script.js:547 | an empty label reads "A"; otherwise the first one or two characters, upper-cased |
| `Builder.ChainContinuity` | script.js:366-379 | on a laid-out chain the first tile is at the origin, and every later tile meets its predecessor at the seam |
| `Builder.ChainDeterministic` | script.js:366-379 | two laid-out chains with the same sockets have the same poses |
| `Builder.AppendKeepsLaidOut` | script.js:366-424 | appending a tile posed after the chain keeps it laid out |
| `Builder.AppendKeepsPrefixesIssued` | script.js:352-424 | appending a tile with the next prefix keeps every prefix issued and distinct |
| `Builder.PlaceKeepsValid` | script.js:342-430 | placing a tile keeps the chain laid out and the prefixes issued and distinct |
| `Builder.ChainPrefixLaidOut` | script.js:579-580 | a prefix of a laid-out chain is laid out |
| `Builder.PrefixesIssuedPrefix` | script.js:579-580 | dropping tiles from the end keeps the prefixes issued and distinct |
| `Builder.UndoKeepsValid` | script.js:579-592 | undo keeps the course valid |
| `Builder.ResetKeepsValid` | script.js:148-162 | reset keeps the course valid and does not rewind the instance counter |
| `Builder.PlaceOutcome` | script.js:342-424 | placing leaves the checkpoints alone and always bumps the tile's counter. `nextId` is bumped exactly when the drawing parses, even if it then lacks a socket anchor. The tile is appended exactly when the drawing has a socket, with the drawing's own socket and goals under the new prefix; otherwise the tiles are unchanged |
| `Builder.PlaceStates` | script.js:342-424 | the placement function is the state `placeTile` assigns on each of its three outcomes (no drawing, no socket, appended tile), and it keeps validity |
| `Builder.AfterPlaceParsed` | script.js:342-424 | with a drawing, placing bumps the counter and `nextId` and appends the tile laid out from the namespaced drawing, or nothing if it has no socket |
| `Builder.DropAfterBump` | script.js:585-586 | decrementing a counter just incremented restores the counters |
| `Builder.UndoAfterPlace` | script.js:579-592 | undo right after a successful placement restores the tiles and checkpoints, and also the counters when the tile had been counted before |
| `Builder.UndoKeepsEarlierTiles` | script.js:564-592 | undo removes exactly the last tile; the earlier tiles, the checkpoints and `nextId` are unchanged; a checkpoint on the removed tile gets no new marker position (its marker is skipped, not removed), and every other marker position is as before |
| `Builder.AddCheckpointSpec` | script.js:503-574 | with an existing tile and goal key, exactly one checkpoint holding that pair is appended, and its marker is the midpoint of the pair in world coordinates; otherwise nothing changes; tiles, counters and `nextId` never change |
| `Builder.RemoveAfterAddCheckpoint` | script.js:552-559 | removing the last checkpoint right after adding one restores the course |
| `Builder.NamespacedCopy` | script.js:349-353 | the parsed drawing after renaming is the namespaced copy |
| `Builder.Course.constructor` | script.js:41-49 | a new course has no tiles, no counters, no checkpoints and `nextId` 1, and is valid |
| `Builder.Course.PlaceTile` | script.js:342-430 | the new state is the placement function of the old one, and validity is kept |
| `Builder.Course.Undo` | script.js:579-599 | the new state is the undo function of the old one, and validity is kept |
| `Builder.Course.Reset` | script.js:148-162 | the tiles and checkpoints are cleared, every known counter is set to 0, `nextId` is kept, and validity is kept |
| `Builder.Course.AddCheckpoint` | script.js:503-555 | the new state is the add-checkpoint function of the old one, and validity is kept |
| `Builder.Course.RemoveLastCheckpoint` | script.js:557-562 | the last checkpoint, if any, is removed, and validity is kept |
| `Profile.Inner` | script.js:862-863 | the inner length is the frame length less both pads, but never below 1 |
| `Profile.BandOf` | script.js:869-871 | the vertical band lies strictly inside the inner frame, with `yMin < yMax` |
| `Profile.BaseY` | script.js:898 | the baseline lies strictly inside the band |
| `Profile.ClampX` | script.js:866 | the clamped x lies inside the inner frame, and an x already inside is unchanged |
| `Profile.Clamp` | script.js:925-926 | the clamped y lies in the band, and a y already inside is unchanged |
| `Profile.TotalOr1` | script.js:878 | the total track length is at least 1 |
| `Profile.XEndStep` | script.js:879-884 | each tile's right end is its left end plus its share of the width |
| `Profile.TileSpans` | script.js:877-884 | one span per kept tile; the first starts at the pad; each starts where the previous ends; each is as wide as the tile's share of the inner width |
| `Profile.SpansFromEnds` | script.js:879-884 | spans that end at the running sums are contiguous and have the right widths |
| `Profile.XEndWithin` | script.js:879-884 | where the first `t` tiles end lies between the left pad and the right edge of the inner frame |
| `Profile.SpansWithinFrame` | script.js:877-884 | every span runs left to right inside the inner frame |
| `Profile.SpansFillWidth` | script.js:877-884 | the last span ends exactly at the right edge of the inner frame |
| `Profile.StepRange` | script.js:886-895 | the running minimum and maximum of the height steps: both are attained, 0 lies between them, and every prefix sum lies between them |
| `Profile.RiseWithin` | script.js:904 | the rise is positive, at most 1/30 of the band, and leaves room above and below for the steps needed; it equals one of those three limits, so it is their minimum |
| `Profile.AtLeast1` | script.js:899-902 | the value is at least 1 and at least the argument |
| `Profile.Rise` | script.js:897-904 | the rise per step is positive, at most 1/30 of the band, and the highest climb and deepest dip from the baseline fit in the band; it equals one of those three limits, so it is their minimum |
| `Profile.FlattenTile` | script.js:910-929 | one segment per step of the tile, each in its slice of the span with its kind; the heights chain from the incoming height, each step clamped into the band |
| `Profile.YChainedAppend` | script.js:909-930 | two chains of heights joined at the seam form one chain |
| `Profile.Flatten` | script.js:908-930 | the segments enumerate every step of every kept tile in order, and their heights chain from the baseline inside the band |
| `Profile.FlatContiguous` | script.js:915-916 | the flattened profile starts at the first span's left edge and ends at the last span's right edge, with no gaps between segments |
| `Profile.SquareCount` | script.js:934 | the number of non-yellow steps is at most the number of steps |
| `Profile.CumulativeCounts` | script.js:935-938 | `cum[0]` is 0, each step adds 1 unless it is yellow, and `cum[i]` is the number of non-yellow steps among the first `i` |
| `Profile.CumMonotone` | script.js:935-938 | the cumulative count never decreases, and grows by at most one per step |
| `Profile.FirstIndex` | script.js:1090 | `findIndex` gives the first position satisfying the test, or none when no position does |
| `Profile.StartIndex` | script.js:1090 | the start is the first non-yellow step, or step 0 when all are yellow |
| `Profile.FinishIndex` | script.js:1091-1092 | the finish is the last non-yellow step, or the last step when all are yellow |
| `Profile.SquareCountYellow` | script.js:934 | an all-yellow track counts no squares |
| `Profile.SquareCountYellowTail` | script.js:934 | trailing yellow steps add no squares |
| `Profile.StartCountZero` | script.js:1090-1097 | no square is counted before the start |
| `Profile.FinishCountTotal` | script.js:1091-1098 | every square is counted by the end of the finish step |
| `ProfileMarkers.KeptTiles` | script.js:836-845 | exactly the tiles with a non-empty track are kept, in placement order, and the index map sends each kept placed index to its tile's position; the result is `KeptOf` and `KeptIndex` of the placed tiles |
| `ProfileMarkers.KeptOfStep` | script.js:839-844 | one more placed tile is appended to the kept tiles and indexed at the end exactly when it has a track |
| `ProfileMarkers.KeptStep` | script.js:839-844 | one more placed tile keeps the kept list and index map correct |
| `ProfileMarkers.NoneKept` | script.js:836-847 | the placeholder case: nothing is kept exactly when no tile has a track |
| `ProfileMarkers.ProjectT` | script.js:1109-1113 | the projection parameter lies in [0, 1] |
| `ProfileMarkers.ProjectChordPoints` | script.js:1109-1113 | on a chord of non-zero length the entry projects to 0, the exit to 1 and their midpoint to one half |
| `ProfileMarkers.ProjectDegenerate` | script.js:1113 | when entry and exit coincide the denominator becomes 1, and every checkpoint projects to 0 |
| `ProfileMarkers.SegmentIndex` | script.js:1117-1118 | the first segment covering x; when none does, the first segment if x is left of the profile, else the last |
| `ProfileMarkers.ContiguousCovers` | script.js:1117-1118 | on a contiguous profile every x inside it is covered by some segment |
| `ProfileMarkers.SpanPoint` | script.js:1114 | the point a fraction of the way along a span lies in the span, at its left end for 0 and its right end for 1 |
| `ProfileMarkers.CheckpointMarker` | script.js:1101-1123 | a checkpoint has a marker exactly when its tile is kept; the marker is not start or finish; its x is the chord projection of the checkpoint's midpoint mapped into its tile's span, so inside that span and the frame; its count is the cumulative count before the first segment covering that x |
| `ProfileMarkers.CheckpointMarkers` | script.js:1100-1123 | at most one marker per checkpoint |
| `ProfileMarkers.CheckpointMarkersBounded` | script.js:1100-1123 | every checkpoint marker is inside the frame and shows at most the total |
| `ProfileMarkers.CheckpointMarkersStep` | script.js:1101-1122 | one more checkpoint appends its marker, if it has one, to the markers collected so far |
| `ProfileMarkers.CollectMarkers` | script.js:1097-1123 | the markers are start (count 0), finish (the total), then each checkpoint's marker in order |
| `ProfileMarkers.ChosenStep` | script.js:1128-1135 | one more marker keeps, for every count, the best marker so far |
| `ProfileMarkers.ChosenKeep` | script.js:1131-1134 | a marker that does not displace the current entry keeps the choice correct |
| `ProfileMarkers.ChosenReplace` | script.js:1131-1134 | a marker that displaces the current entry becomes the best for its count |
| `ProfileMarkers.ChosenAll` | script.js:1127-1135 | after all markers, every count has the label of its best marker |
| `ProfileMarkers.NumberLabels` | script.js:1127-1135 | exactly one number per marker count; it is the label of a marker with that count that beats every other marker with that count: start/finish over checkpoint, then smaller x, then earlier; a checkpoint shows count + 1 |
| `ProfileMarkers.StartFinishNumbers` | script.js:1127-1135 | a count with a start or finish marker shows the count itself, at priority 2 |
| `ProfileMarkers.MarkerCounts` | script.js:1127-1135 | the numbered counts are exactly the counts of the markers |
| `ProfileMarkers.Knots` | script.js:941-945 | the knots are the first segment's start, then every segment's end |
| `ProfileMarkers.BezierAt` | script.js:951-960 | a curve piece runs from one knot to the next, with both control heights clamped into the band |
| `ProfileMarkers.BezierSegments` | script.js:947-963 | one curve piece per pair of consecutive knots |
| `ProfileMarkers.BezierJoins` | script.js:951-960 | consecutive pieces meet at their shared knot; their tangents there agree in x, and fully when the clamps do not apply |
| `ProfileMarkers.EvalYAtX` | script.js:966-979 | with no curve the height is the baseline; otherwise it lies in the band |
| `ProfileMarkers.ProfileCurve` | script.js:860-930 | one span per kept tile, each its tile's share of the inner width, laid end to end from the left pad to the right edge; the segments enumerate every step of every tile in order inside its span; their heights chain from the baseline with the rise fitted to the climb's extremes, each clamped into the band; the curve has no gaps |
| `ProfileMarkers.CountsHold` | script.js:1090-1092 | the counts and total computed by the loops run along the steps, and start and finish are the first and last counted (non-yellow) steps, or the first and last step when none is counted |
| `ProfileMarkers.StartFinishOfKinds` | script.js:1090-1092 | the start found by scanning the step kinds, and a finish that is the last non-yellow kind, are the first and last non-yellow steps of the profile, or the first and last step when all are yellow |
| `ProfileMarkers.StartFinishUnique` | script.js:1090-1092 | the start and finish steps are determined by the step kinds alone |
| `ProfileMarkers.ProfileCounts` | script.js:934-1092 | `cum` counts the squares before each step; the total is the count after the last step; start is the first non-yellow step and finish the last, or 0 and the last step when every step is yellow; with any counted step, no square precedes the start and all are counted by the end of the finish |
| `ProfileMarkers.MarkersHold` | script.js:1094-1123 | the collected markers satisfy the marker invariant |
| `ProfileMarkers.NumbersHold` | script.js:1127-1135 | the chosen numbers print 0 and the total as themselves |
| `ProfileMarkers.ProfileNumbers` | script.js:1094-1135 | the markers are start, finish and each checkpoint's marker in checkpoint order; start shows 0 and finish the total; every marker is inside the frame and shows at most the total; one number per marker count, that of the marker that beats every other with that count, with 0 and the total printed as themselves |
| `ProfileMarkers.RenderStageProfile` | script.js:828-1135 | a placeholder exactly when no placed tile has a track; otherwise the drawn profile satisfies everything `DrawProfile` states of it, start and finish being the first and last counted steps |
| `ProfileMarkers.DrawProfile` | script.js:860-1135 | the curve is that of the kept tiles as `ProfileCurve` states it; the counts run along it as `ProfileCounts` states, with start and finish the first and last counted steps; the start marker sits at the start step's left end and the finish marker at the finish step's right end; the markers are start, finish and each checkpoint's marker on the kept tiles' layout; every number is that of its count's best marker |
| `ProfileMarkers.ProfileNonEmpty` | script.js:877-930 | a kept tile with a track gives a non-empty profile |
| `ProfileMarkers.ConcatLength` | script.js:878-888 | all steps together are at least as many as the first tile's |
| `ProfileMarkers.StartBeforeFinish` | script.js:1090-1092 | the start step never comes after the finish step |

## Left out

- DOM and SVG output is not modelled: element creation, attribute and transform strings, label badges, checkpoint graphics, profile paths and text, counter elements. It is rendering, not logic.
- Tile and manifest fetching (`loadTiles`), event wiring in `init`, and the `confirm` dialog before reset are I/O. `Course.Reset` models the confirmed case.
- `updateCamera`, `fitToScreen` and the camera rotation are viewport fitting only. The marker rotation in `updateCheckpointMarkers` is left out with them; the marker position is modelled.
- The `Stage` listener bus is not modelled; `emit` is a no-op here.
- The export pipeline (canvas drawing, fonts, base64, PNG download) uses browser APIs and async I/O.
- `stringToSVG` is not modelled: a drawing is given already parsed as a sequence of elements, or as absent when the text holds no `svg`.
- `stripHelperMarkers` only removes DOM nodes from a copy used for export.
- IEEE floating point (rounding, NaN, infinities) is not modelled, nor the true values of `Math.cos`, `Math.sin` and `Math.atan2`: numbers are reals and the trigonometric functions are uninterpreted.
- Drawing.GetXY: an attribute that is present but not numeric (NaN in JavaScript) is not modelled; coordinates are optional reals.
- Drawing.CollectGoalsSpec: a goal key that names a property inherited by plain JavaScript objects (such as `constructor`) is not modelled; keys are map keys.
- Element ids are case-sensitive strings, and CSS selector escaping is assumed to be exact; `querySelectorAll("[id]")` is modelled as document order over the elements.
- The order of `Object.keys` and the `x`-sort of the bottom numbers only affect drawing order, and are not modelled.
- Strings.ToUpperAscii: `toUpperCase` is modelled for ASCII letters only; Unicode case mapping (including characters whose upper case is longer) is not modelled.
- The text of a checkpoint's profile marker label (`slice(0, 2)` of the stored label) is not modelled; only its position and count are.
- Tile metadata is always present: `placeTile` reads `itemMeta.id` first, so a missing one would throw. Missing `stats` fields are taken as zeros.
- The Bézier curve is modelled up to its control points and the clamping of its heights; the cubic evaluation inside `evalYAtX` is only bounded by its final clamp.
- ProfileMarkers.ProjectChordPoints: assumes a chord whose squared length is not 0, which is what makes the division exact; a zero-length chord is covered by `ProjectDegenerate`.
- Drawing.ReplaceAll: JavaScript's `replaceAll` expands `$&`, `$$`, `` $` `` and `$'` in a string replacement; the model inserts the replacement literally, which differs only when the prefix or an id contains `$`.
- Builder.BumpCount: `tileCounts` is a plain object, so a base id naming an inherited property (such as `constructor`) reads that property instead of `undefined`; the counters are modelled as a map.
- Drawing.NamespacedRefs: states where references point only when the ids and the prefix are plain names (no `#` or `)`), the ids are distinct, and no id is the prefix followed by another id. Otherwise one rename's result can be captured by a later rename, and the source then does not keep references pointing at their elements.
- Replace-at-index, cascading relayout, checkpoint pruning, and saving or loading a course are not in `script.js`, so they are not modelled.
