/** The elevation profile's markers and bottom numbers (script.js
    `renderStageProfile`): which placed tiles take part, where a checkpoint
    lands on the profile, which square count it shows, how one number per
    count is chosen, the smoothed curve, and the whole computation put
    together. */
module ProfileMarkers {
  import opened Wrappers
  import opened Geometry
  import opened Tiles
  import opened Profile

  // ---------------------------------------------------------------------
  // Kept tiles
  // ---------------------------------------------------------------------

  /** The placed tiles with a non-empty track, in placement order. */
  function KeptOf(placed: seq<PlacedTile>): (tiles: seq<PlacedTile>)
    ensures |tiles| <= |placed|
  {
    if placed == [] then []
    else
      var n := |placed| - 1;
      KeptOf(placed[..n]) + (if placed[n].meta.track != [] then [placed[n]] else [])
  }

  /** Each kept placed index's position among the kept tiles. */
  function KeptIndex(placed: seq<PlacedTile>): (index: map<int, nat>)
    ensures forall i :: i in index ==> index[i] < |KeptOf(placed)|
  {
    if placed == [] then map[]
    else
      var n := |placed| - 1;
      var init := KeptIndex(placed[..n]);
      if placed[n].meta.track != [] then init[n := |KeptOf(placed[..n])|] else init
  }

  /** The tiles with a non-empty track, in placement order, and the map from
      a placed index to its position among them. */
  method KeptTiles(placed: seq<PlacedTile>) returns (tiles: seq<PlacedTile>, index: map<int, nat>)
    ensures tiles == KeptOf(placed) && index == KeptIndex(placed)
    ensures forall i :: i in index <==> 0 <= i < |placed| && placed[i].meta.track != []
    ensures forall i :: i in index ==> index[i] < |tiles| && tiles[index[i]] == placed[i]
    ensures forall i, j :: i in index && j in index && i < j ==> index[i] < index[j]
    ensures |index| == |tiles|
    ensures forall k :: 0 <= k < |tiles| ==> tiles[k] in placed && tiles[k].meta.track != []
  {
    tiles, index := [], map[];
    var i := 0;
    while i < |placed|
      invariant 0 <= i <= |placed|
      invariant Kept(placed, i, tiles, index)
      invariant tiles == KeptOf(placed[..i]) && index == KeptIndex(placed[..i])
    {
      KeptStep(placed, i, tiles, index);
      KeptOfStep(placed, i);
      if placed[i].meta.track != [] {
        index := index[i := |tiles|];
        tiles := tiles + [placed[i]];
      }
      i := i + 1;
    }
    assert placed[..i] == placed;
  }

  lemma KeptOfStep(placed: seq<PlacedTile>, i: nat)
    requires i < |placed|
    ensures KeptOf(placed[..i + 1]) == KeptOf(placed[..i]) + (if placed[i].meta.track != [] then [placed[i]] else [])
    ensures KeptIndex(placed[..i + 1])
            == if placed[i].meta.track != [] then KeptIndex(placed[..i])[i := |KeptOf(placed[..i])|] else KeptIndex(placed[..i])
  {
    assert placed[..i + 1][..i] == placed[..i];
  }

  /** The loop invariant of `KeptTiles` after the first `n` placed tiles. */
  ghost predicate Kept(placed: seq<PlacedTile>, n: nat, tiles: seq<PlacedTile>, index: map<int, nat>) {
    && (forall i :: i in index <==> 0 <= i < n && i < |placed| && placed[i].meta.track != [])
    && (forall i :: i in index ==> index[i] < |tiles| && 0 <= i < |placed| && tiles[index[i]] == placed[i])
    && (forall i, j :: i in index && j in index && i < j ==> index[i] < index[j])
    && |index| == |tiles|
    && (forall k :: 0 <= k < |tiles| ==> tiles[k] in placed && tiles[k].meta.track != [])
  }

  lemma KeptStep(placed: seq<PlacedTile>, n: nat, tiles: seq<PlacedTile>, index: map<int, nat>)
    requires n < |placed| && Kept(placed, n, tiles, index)
    ensures placed[n].meta.track != [] ==> Kept(placed, n + 1, tiles + [placed[n]], index[n := |tiles|])
    ensures placed[n].meta.track == [] ==> Kept(placed, n + 1, tiles, index)
  {
    if placed[n].meta.track != [] {
      KeptAdd(placed, n, tiles, index);
    }
  }

  lemma KeptAdd(placed: seq<PlacedTile>, n: nat, tiles: seq<PlacedTile>, index: map<int, nat>)
    requires n < |placed| && Kept(placed, n, tiles, index) && placed[n].meta.track != []
    ensures Kept(placed, n + 1, tiles + [placed[n]], index[n := |tiles|])
  {
    assert n !in index;
    var tiles', index' := tiles + [placed[n]], index[n := |tiles|];
    assert |index'| == |index| + 1;
    forall i | i in index' ensures index'[i] < |tiles'| && 0 <= i < |placed| && tiles'[index'[i]] == placed[i] {
      if i != n {
        assert index'[i] == index[i] && tiles'[index[i]] == tiles[index[i]];
      }
    }
    forall i, j | i in index' && j in index' && i < j ensures index'[i] < index'[j] {
      if j == n {
        assert index'[i] == index[i];
      }
    }
    forall k | 0 <= k < |tiles'| ensures tiles'[k] in placed && tiles'[k].meta.track != [] {
      if k < |tiles| {
        assert tiles'[k] == tiles[k];
      } else {
        assert tiles'[k] == placed[n];
      }
    }
    assert forall i :: i in index' <==> 0 <= i < n + 1 && i < |placed| && placed[i].meta.track != [];
  }

  /** No placed tile has a track exactly when none is kept. */
  lemma NoneKept(placed: seq<PlacedTile>, tiles: seq<PlacedTile>, index: map<int, nat>)
    requires forall i :: i in index <==> 0 <= i < |placed| && placed[i].meta.track != []
    requires forall i :: i in index ==> index[i] < |tiles|
    requires |index| == |tiles|
    requires forall k :: 0 <= k < |tiles| ==> tiles[k] in placed && tiles[k].meta.track != []
    ensures tiles == [] <==> forall i :: 0 <= i < |placed| ==> placed[i].meta.track == []
  {
    if tiles != [] {
      assert tiles[0] in placed;
      var i :| 0 <= i < |placed| && placed[i] == tiles[0];
    } else {
      assert index == map[];
    }
  }

  // ---------------------------------------------------------------------
  // Projection onto a tile's chord
  // ---------------------------------------------------------------------

  function Dot(p: Point, q: Point): real {
    p.x * q.x + p.y * q.y
  }

  /** The position of `m` along the chord from `a` to `b`, as a fraction
      clamped to [0, 1]; a chord of length 0 divides by 1 instead of 0. */
  function ProjectT(a: Point, b: Point, m: Point): (t: real)
    ensures 0.0 <= t <= 1.0
  {
    var v, w := Minus(b, a), Minus(m, a);
    var den := NormSq(v);
    Max(0.0, Min(1.0, Dot(v, w) / (if den == 0.0 then 1.0 else den)))
  }

  lemma HalfDot(v: Point)
    ensures Dot(v, Point(v.x / 2.0, v.y / 2.0)) == NormSq(v) / 2.0
  {
  }

  lemma HalfOver(d: real)
    requires d != 0.0
    ensures (d / 2.0) / d == 0.5 && d / d == 1.0
  {
    assert d / 2.0 == 0.5 * d;
  }

  /** On a chord of non-zero length the entry projects to 0, the exit to 1
      and the midpoint between them to one half. */
  lemma ProjectChordPoints(a: Point, b: Point)
    requires NormSq(Minus(b, a)) != 0.0
    ensures ProjectT(a, b, a) == 0.0
    ensures ProjectT(a, b, b) == 1.0
    ensures ProjectT(a, b, Midpoint(a, b)) == 0.5
  {
    var v := Minus(b, a);
    assert Dot(v, v) == NormSq(v);
    var m := Midpoint(a, b);
    assert Minus(m, a) == Point(v.x / 2.0, v.y / 2.0);
    HalfDot(v);
    HalfOver(NormSq(v));
  }

  /** A chord of length 0 (entry and exit at the same point) puts every
      checkpoint at the tile's start. */
  lemma ProjectDegenerate(a: Point, b: Point, m: Point)
    requires a == b
    ensures ProjectT(a, b, m) == 0.0
  {
    var v := Minus(b, a);
    assert v == Point(0.0, 0.0);
    assert NormSq(v) == 0.0;
    DotZero(v, Minus(m, a));
  }

  lemma DotZero(v: Point, w: Point)
    requires v == Point(0.0, 0.0)
    ensures Dot(v, w) == 0.0
  {
  }

  // ---------------------------------------------------------------------
  // Looking up the segment under an x
  // ---------------------------------------------------------------------

  predicate Covers(s: Segment, x: real) {
    s.x0 <= x <= s.x1
  }

  /** The first segment whose span holds `x`; failing that the first segment
      when `x` is left of the profile and the last one otherwise. */
  function SegmentIndex(flat: seq<Segment>, x: real): (idx: nat)
    requires |flat| > 0
    ensures idx < |flat|
    ensures (exists j :: 0 <= j < |flat| && Covers(flat[j], x)) ==>
      Covers(flat[idx], x) && forall j :: 0 <= j < idx ==> !Covers(flat[j], x)
    ensures (forall j :: 0 <= j < |flat| ==> !Covers(flat[j], x)) ==>
      idx == if x < flat[0].x0 then 0 else |flat| - 1
  {
    match FirstIndex(flat, s => Covers(s, x))
    case Some(j) => j
    case None => if x < flat[0].x0 then 0 else |flat| - 1
  }

  /** On a gap-free run of segments every x between its two ends lies in some
      segment, so the fallback of `SegmentIndex` is only taken outside. */
  lemma {:induction false} ContiguousCovers(flat: seq<Segment>, x: real)
    requires |flat| > 0
    requires forall j :: 0 < j < |flat| ==> flat[j].x0 == flat[j - 1].x1
    requires flat[0].x0 <= x <= flat[|flat| - 1].x1
    ensures exists j :: 0 <= j < |flat| && Covers(flat[j], x)
  {
    if x <= flat[0].x1 {
      assert Covers(flat[0], x);
    } else {
      var rest := flat[1..];
      assert rest[0].x0 == flat[0].x1;
      ContiguousCovers(rest, x);
      var j :| 0 <= j < |rest| && Covers(rest[j], x);
      assert Covers(flat[j + 1], x);
    }
  }

  // ---------------------------------------------------------------------
  // Markers
  // ---------------------------------------------------------------------

  /** A marker on the profile: where it is, the square count it stands for,
      and whether it is the start or finish (as opposed to a checkpoint). */
  datatype Marker = Marker(x: real, count: nat, startFinish: bool)

  /** Everything the checkpoint markers are placed against. */
  datatype Layout = Layout(innerW: real, index: map<int, nat>, tiles: seq<PlacedTile>,
                           spans: seq<Span>, flat: seq<Segment>, cum: seq<nat>)

  predicate LayoutOk(l: Layout) {
    && l.innerW >= 1.0 && |l.tiles| == |l.spans|
    && (forall i :: i in l.index ==> l.index[i] < |l.tiles|)
    && |l.flat| > 0 && |l.cum| == |l.flat| + 1
    && (forall i :: 0 <= i < |l.flat| ==> l.cum[i + 1] == l.cum[i] + Counted(l.flat[i].kind))
    && (forall k :: 0 <= k < |l.spans| ==> InnerPad <= l.spans[k].x0 <= l.spans[k].x1 <= InnerPad + l.innerW)
    && l.flat[0].x0 == InnerPad && l.flat[|l.flat| - 1].x1 == InnerPad + l.innerW
    && (forall j :: 0 < j < |l.flat| ==> l.flat[j].x0 == l.flat[j - 1].x1)
  }

  /** `c` is the count before the first segment whose span holds `x`. */
  ghost predicate CountAt(l: Layout, x: real, c: nat)
    requires LayoutOk(l)
  {
    exists j :: 0 <= j < |l.flat| && Covers(l.flat[j], x)
                && (forall i :: 0 <= i < j ==> !Covers(l.flat[i], x)) && c == l.cum[j]
  }

  /** The point a fraction `t` of the way along a span. */
  function SpanPoint(span: Span, t: real): (x: real)
    requires span.x0 <= span.x1 && 0.0 <= t <= 1.0
    ensures span.x0 <= x <= span.x1
    ensures t == 0.0 ==> x == span.x0
    ensures t == 1.0 ==> x == span.x1
  {
    ScaleWithin(span.x1 - span.x0, t);
    span.x0 + t * (span.x1 - span.x0)
  }

  /** A checkpoint's marker: the midpoint of its two ends projected onto its
      tile's chord, mapped into the tile's span, showing the count before the
      segment there. A checkpoint on a tile without a track has none. */
  function CheckpointMarker(cp: Checkpoint, l: Layout): (r: Option<Marker>)
    requires LayoutOk(l)
    ensures r.Some? <==> cp.tileIdx in l.index
    ensures r.Some? ==> !r.value.startFinish && InnerPad <= r.value.x <= InnerPad + l.innerW
    ensures r.Some? ==>
      var tile, span := l.tiles[l.index[cp.tileIdx]], l.spans[l.index[cp.tileIdx]];
      && span.x0 <= r.value.x <= span.x1
      && r.value.x == SpanPoint(span, ProjectT(tile.socket.entry, tile.socket.exit, Midpoint(cp.aLocal, cp.bLocal)))
    ensures r.Some? ==> CountAt(l, r.value.x, r.value.count)
  {
    if cp.tileIdx !in l.index then None
    else
      var k := l.index[cp.tileIdx];
      var tile, span := l.tiles[k], l.spans[k];
      var mid := Midpoint(cp.aLocal, cp.bLocal);
      var t := ProjectT(tile.socket.entry, tile.socket.exit, mid);
      var x := ClampX(l.innerW, SpanPoint(span, t));
      ContiguousCovers(l.flat, x);
      var idx := SegmentIndex(l.flat, x);
      Some(Marker(ClampX(l.innerW, x), l.cum[idx], false))
  }

  /** The checkpoint markers in checkpoint order. */
  function CheckpointMarkers(cps: seq<Checkpoint>, l: Layout): (ms: seq<Marker>)
    requires LayoutOk(l)
    ensures |ms| <= |cps|
  {
    if cps == [] then []
    else
      var init := CheckpointMarkers(cps[..|cps| - 1], l);
      match CheckpointMarker(cps[|cps| - 1], l)
      case None => init
      case Some(m) => init + [m]
  }

  /** Every checkpoint marker lies inside the frame and shows at most the
      total count. */
  lemma {:induction false} CheckpointMarkersBounded(cps: seq<Checkpoint>, l: Layout)
    requires LayoutOk(l)
    ensures forall m :: m in CheckpointMarkers(cps, l) ==>
      && !m.startFinish && InnerPad <= m.x <= InnerPad + l.innerW && m.count <= l.cum[|l.flat|]
  {
    if cps != [] {
      CheckpointMarkersBounded(cps[..|cps| - 1], l);
      var r := CheckpointMarker(cps[|cps| - 1], l);
      if r.Some? {
        assert CountAt(l, r.value.x, r.value.count);
        var j :| 0 <= j < |l.flat| && Covers(l.flat[j], r.value.x)
                 && (forall i :: 0 <= i < j ==> !Covers(l.flat[i], r.value.x)) && r.value.count == l.cum[j];
        CumMonotone(FlatKinds(l.flat), l.cum, j, |l.flat|);
      }
    }
  }

  /** `markersForNumbers`: start, finish, then each checkpoint's marker. */
  method CollectMarkers(l: Layout, startX: real, finishX: real, totalSquares: nat, cps: seq<Checkpoint>)
    returns (ms: seq<Marker>)
    requires LayoutOk(l)
    ensures ms == [Marker(ClampX(l.innerW, startX), 0, true), Marker(ClampX(l.innerW, finishX), totalSquares, true)]
                  + CheckpointMarkers(cps, l)
  {
    ms := [Marker(ClampX(l.innerW, startX), 0, true), Marker(ClampX(l.innerW, finishX), totalSquares, true)];
    ghost var head := ms;
    var i := 0;
    while i < |cps|
      invariant 0 <= i <= |cps|
      invariant ms == head + CheckpointMarkers(cps[..i], l)
    {
      var r := CheckpointMarker(cps[i], l);
      CheckpointMarkersStep(cps, i, l, head, ms);
      if r.Some? {
        ms := ms + [r.value];
      }
      i := i + 1;
    }
    assert cps[..i] == cps;
  }

  /** One more checkpoint appends its marker, if it has one, to the markers
      collected so far. */
  lemma CheckpointMarkersStep(cps: seq<Checkpoint>, i: nat, l: Layout, head: seq<Marker>, ms: seq<Marker>)
    requires LayoutOk(l) && i < |cps| && ms == head + CheckpointMarkers(cps[..i], l)
    ensures var r := CheckpointMarker(cps[i], l);
      (if r.Some? then ms + [r.value] else ms) == head + CheckpointMarkers(cps[..i + 1], l)
  {
    assert cps[..i + 1][..i] == cps[..i];
  }

  // ---------------------------------------------------------------------
  // One number per count
  // ---------------------------------------------------------------------

  /** A number printed under the profile. */
  datatype NumberLabel = NumberLabel(x: real, display: nat, priority: nat)

  /** Start and finish outrank checkpoints. */
  function Priority(m: Marker): nat {
    if m.startFinish then 2 else 1
  }

  /** A checkpoint shows the square it sits on, one past the count before it. */
  function Display(m: Marker): nat {
    if m.startFinish then m.count else m.count + 1
  }

  function LabelOf(m: Marker): NumberLabel {
    NumberLabel(m.x, Display(m), Priority(m))
  }

  /** Marker `j` is at least as good as marker `k` for their shared count:
      higher priority, then further left, then earlier. */
  predicate Beats(ms: seq<Marker>, j: nat, k: nat)
    requires j < |ms| && k < |ms|
  {
    || Priority(ms[j]) > Priority(ms[k])
    || (Priority(ms[j]) == Priority(ms[k]) && ms[j].x < ms[k].x)
    || (Priority(ms[j]) == Priority(ms[k]) && ms[j].x == ms[k].x && j <= k)
  }

  /** `perCount`: one label per count, taken from the best marker with that
      count. */
  method NumberLabels(ms: seq<Marker>) returns (perCount: map<nat, NumberLabel>)
    ensures forall c :: c in perCount <==> exists j :: 0 <= j < |ms| && ms[j].count == c
    ensures forall c :: c in perCount ==>
      exists j :: 0 <= j < |ms| && ms[j].count == c && perCount[c] == LabelOf(ms[j])
                  && forall k :: 0 <= k < |ms| && ms[k].count == c ==> Beats(ms, j, k)
  {
    perCount := map[];
    ghost var winner: map<nat, nat> := map[];
    var i := 0;
    while i < |ms|
      invariant 0 <= i <= |ms|
      invariant Chosen(ms, i, perCount, winner)
    {
      ChosenStep(ms, i, perCount, winner);
      var m := ms[i];
      var priority := if m.startFinish then 2 else 1;
      var display := if m.startFinish then m.count else m.count + 1;
      if m.count !in perCount
         || priority > perCount[m.count].priority
         || (priority == perCount[m.count].priority && m.x < perCount[m.count].x)
      {
        perCount := perCount[m.count := NumberLabel(m.x, display, priority)];
        winner := winner[m.count := i];
      }
      i := i + 1;
    }
    ChosenAll(ms, perCount, winner);
  }

  /** After the first `i` markers: `winner[c]` is the best marker so far with
      count `c`, and `perCount[c]` its label. */
  ghost predicate Chosen(ms: seq<Marker>, i: nat, perCount: map<nat, NumberLabel>, winner: map<nat, nat>)
    requires i <= |ms|
  {
    && winner.Keys == perCount.Keys
    && (forall c :: c in perCount <==> exists j :: 0 <= j < i && ms[j].count == c)
    && (forall c :: c in winner ==>
          && winner[c] < i && ms[winner[c]].count == c && perCount[c] == LabelOf(ms[winner[c]])
          && forall k :: 0 <= k < i && ms[k].count == c ==> Beats(ms, winner[c], k))
  }

  /** The source's test for marker `i` displacing the label of its count. */
  predicate Displaces(m: Marker, perCount: map<nat, NumberLabel>) {
    || m.count !in perCount || Priority(m) > perCount[m.count].priority
    || (Priority(m) == perCount[m.count].priority && m.x < perCount[m.count].x)
  }

  lemma ChosenStep(ms: seq<Marker>, i: nat, perCount: map<nat, NumberLabel>, winner: map<nat, nat>)
    requires i < |ms| && Chosen(ms, i, perCount, winner)
    ensures Displaces(ms[i], perCount) ==> Chosen(ms, i + 1, perCount[ms[i].count := LabelOf(ms[i])], winner[ms[i].count := i])
    ensures !Displaces(ms[i], perCount) ==> Chosen(ms, i + 1, perCount, winner)
  {
    if Displaces(ms[i], perCount) {
      ChosenReplace(ms, i, perCount, winner);
    } else {
      ChosenKeep(ms, i, perCount, winner);
    }
  }

  lemma ChosenKeep(ms: seq<Marker>, i: nat, perCount: map<nat, NumberLabel>, winner: map<nat, nat>)
    requires i < |ms| && Chosen(ms, i, perCount, winner) && !Displaces(ms[i], perCount)
    ensures Chosen(ms, i + 1, perCount, winner)
  {
    var c := ms[i].count;
    var w := winner[c];
    assert perCount[c] == LabelOf(ms[w]);
    forall k | 0 <= k < i + 1 && ms[k].count == c ensures Beats(ms, w, k) {
    }
    forall c' | c' in perCount ensures exists j :: 0 <= j < i + 1 && ms[j].count == c' {
      var j :| 0 <= j < i && ms[j].count == c';
    }
  }

  lemma ChosenReplace(ms: seq<Marker>, i: nat, perCount: map<nat, NumberLabel>, winner: map<nat, nat>)
    requires i < |ms| && Chosen(ms, i, perCount, winner) && Displaces(ms[i], perCount)
    ensures Chosen(ms, i + 1, perCount[ms[i].count := LabelOf(ms[i])], winner[ms[i].count := i])
  {
    var c := ms[i].count;
    var pc, wn := perCount[c := LabelOf(ms[i])], winner[c := i];
    forall k | 0 <= k < i + 1 && ms[k].count == c ensures Beats(ms, i, k) {
      if k < i {
        assert c in perCount;
        var w := winner[c];
        assert perCount[c] == LabelOf(ms[w]);
        assert Beats(ms, w, k);
      }
    }
    forall c' | c' in pc ensures exists j :: 0 <= j < i + 1 && ms[j].count == c' {
      if c' != c {
        var j :| 0 <= j < i && ms[j].count == c';
      }
    }
  }

  lemma ChosenAll(ms: seq<Marker>, perCount: map<nat, NumberLabel>, winner: map<nat, nat>)
    requires Chosen(ms, |ms|, perCount, winner)
    ensures forall c :: c in perCount <==> exists j :: 0 <= j < |ms| && ms[j].count == c
    ensures forall c :: c in perCount ==>
      exists j :: 0 <= j < |ms| && ms[j].count == c && perCount[c] == LabelOf(ms[j])
                  && forall k :: 0 <= k < |ms| && ms[k].count == c ==> Beats(ms, j, k)
  {
    forall c | c in perCount
      ensures exists j :: 0 <= j < |ms| && ms[j].count == c && perCount[c] == LabelOf(ms[j])
                          && forall k :: 0 <= k < |ms| && ms[k].count == c ==> Beats(ms, j, k)
    {
      var j := winner[c];
      assert ms[j].count == c && perCount[c] == LabelOf(ms[j]);
    }
  }

  /** Where a start or finish marker has a count, the number printed for that
      count is the start or finish one, showing the count itself: a
      checkpoint at the same count never displaces it. */
  lemma StartFinishNumbers(ms: seq<Marker>, perCount: map<nat, NumberLabel>, s: nat)
    requires forall c :: c in perCount <==> exists j :: 0 <= j < |ms| && ms[j].count == c
    requires forall c :: c in perCount ==>
      exists j :: 0 <= j < |ms| && ms[j].count == c && perCount[c] == LabelOf(ms[j])
                  && forall k :: 0 <= k < |ms| && ms[k].count == c ==> Beats(ms, j, k)
    requires s < |ms| && ms[s].startFinish
    ensures ms[s].count in perCount
    ensures perCount[ms[s].count].display == ms[s].count && perCount[ms[s].count].priority == 2
  {
    var c := ms[s].count;
    assert c in perCount;
    var j :| 0 <= j < |ms| && ms[j].count == c && perCount[c] == LabelOf(ms[j])
             && forall k :: 0 <= k < |ms| && ms[k].count == c ==> Beats(ms, j, k);
    assert Beats(ms, j, s);
  }

  // ---------------------------------------------------------------------
  // The smoothed curve
  // ---------------------------------------------------------------------

  /** The curve's knots: where the first segment starts, then where each ends. */
  function Knots(flat: seq<Segment>): (pts: seq<Point>)
    ensures |pts| == if flat == [] then 0 else |flat| + 1
    ensures flat != [] ==> pts[0] == Point(flat[0].x0, flat[0].y0)
    ensures forall j :: 0 <= j < |flat| ==> pts[j + 1] == Point(flat[j].x1, flat[j].y1)
  {
    if flat == [] then []
    else [Point(flat[0].x0, flat[0].y0)] + seq(|flat|, j requires 0 <= j < |flat| => Point(flat[j].x1, flat[j].y1))
  }

  datatype Bezier = Bezier(p1: Point, p2: Point, c1: Point, c2: Point)

  /** The Catmull-Rom segment from knot `i` to knot `i + 1`, its control
      points' heights clamped into the band. */
  function BezierAt(pts: seq<Point>, i: nat, b: Band): (bz: Bezier)
    requires i + 1 < |pts| && b.yMin <= b.yMax
    ensures bz.p1 == pts[i] && bz.p2 == pts[i + 1]
    ensures b.yMin <= bz.c1.y <= b.yMax && b.yMin <= bz.c2.y <= b.yMax
  {
    var n := |pts| - 1;
    var p0 := pts[if i >= 1 then i - 1 else 0];
    var p1 := pts[i];
    var p2 := pts[i + 1];
    var p3 := pts[if i + 2 <= n then i + 2 else n];
    var c1 := Point(p1.x + (p2.x - p0.x) / 6.0, Clamp(p1.y + (p2.y - p0.y) / 6.0, b.yMin, b.yMax));
    var c2 := Point(p2.x - (p3.x - p1.x) / 6.0, Clamp(p2.y - (p3.y - p1.y) / 6.0, b.yMin, b.yMax));
    Bezier(p1, p2, c1, c2)
  }

  /** `bezierSegmentsFromKnots`. */
  method BezierSegments(pts: seq<Point>, b: Band) returns (segs: seq<Bezier>)
    requires b.yMin <= b.yMax
    ensures |segs| == if |pts| <= 1 then 0 else |pts| - 1
    ensures forall i :: 0 <= i < |segs| ==> segs[i] == BezierAt(pts, i, b)
  {
    segs := [];
    var n := |pts| - 1;
    if n <= 0 {
      return;
    }
    var i := 0;
    while i < n
      invariant 0 <= i <= n && |segs| == i
      invariant forall j :: 0 <= j < i ==> segs[j] == BezierAt(pts, j, b)
    {
      segs := segs + [BezierAt(pts, i, b)];
      i := i + 1;
    }
  }

  /** Consecutive pieces meet at the shared knot, and where neither control
      height was clamped the curve turns smoothly there: the incoming and
      outgoing control points are mirror images through the knot. */
  lemma BezierJoins(pts: seq<Point>, i: nat, b: Band)
    requires i + 2 < |pts| && b.yMin <= b.yMax
    ensures BezierAt(pts, i, b).p2 == BezierAt(pts, i + 1, b).p1
    ensures Minus(BezierAt(pts, i, b).p2, BezierAt(pts, i, b).c2).x
            == Minus(BezierAt(pts, i + 1, b).c1, BezierAt(pts, i + 1, b).p1).x
    ensures var p1, p2, p3 := pts[i], pts[i + 1], pts[i + 2];
      b.yMin <= p2.y - (p3.y - p1.y) / 6.0 <= b.yMax && b.yMin <= p2.y + (p3.y - p1.y) / 6.0 <= b.yMax ==>
      Minus(BezierAt(pts, i, b).p2, BezierAt(pts, i, b).c2)
      == Minus(BezierAt(pts, i + 1, b).c1, BezierAt(pts, i + 1, b).p1)
  {
  }

  /** `evalYAtX`: the curve's height over `x`, clamped into the band; the
      baseline when there is no curve. */
  function EvalYAtX(segs: seq<Bezier>, x: real, baseY: real, b: Band): (y: real)
    requires b.yMin <= b.yMax
    ensures segs == [] ==> y == baseY
    ensures segs != [] ==> b.yMin <= y <= b.yMax
  {
    if segs == [] then baseY
    else
      var s := match FirstIndex(segs, (bz: Bezier) => x >= bz.p1.x && x <= bz.p2.x)
               case Some(j) => j
               case None => if x < segs[0].p1.x then 0 else |segs| - 1;
      var bz := segs[s];
      var t := if bz.p2.x == bz.p1.x then 0.0 else (x - bz.p1.x) / (bz.p2.x - bz.p1.x);
      var mt := 1.0 - t;
      var y := mt * mt * mt * bz.p1.y + 3.0 * mt * mt * t * bz.c1.y + 3.0 * mt * t * t * bz.c2.y + t * t * t * bz.p2.y;
      Min(b.yMax, Max(b.yMin, y))
  }

  // ---------------------------------------------------------------------
  // The whole profile
  // ---------------------------------------------------------------------

  /** What the profile shows: a placeholder, or the drawn profile's data. */
  datatype ProfileView =
    | Placeholder
    | Drawn(spans: seq<Span>, flat: seq<Segment>, cum: seq<nat>, totalSquares: nat,
            startIdx: nat, finishIdx: nat, markers: seq<Marker>, numbers: map<nat, NumberLabel>)

  function TracksOf(tiles: seq<PlacedTile>): (tracks: seq<seq<string>>)
    ensures |tracks| == |tiles| && forall k :: 0 <= k < |tiles| ==> tracks[k] == tiles[k].meta.track
  {
    seq(|tiles|, k requires 0 <= k < |tiles| => tiles[k].meta.track)
  }

  /** `lo` and `hi` are the lowest and highest climb along `kinds`, counting
      the start at 0. */
  ghost predicate IsStepRange(kinds: seq<string>, lo: int, hi: int) {
    && lo <= 0 <= hi
    && (forall n :: 0 <= n <= |kinds| ==> lo <= Acc(kinds, n) <= hi)
    && (exists n :: 0 <= n <= |kinds| && Acc(kinds, n) == lo)
    && (exists n :: 0 <= n <= |kinds| && Acc(kinds, n) == hi)
  }

  /** The spans and segments drawn for `tiles` on a profile of `w` by `h`
      units: each tile's span is its share of the inner width, the spans laid
      end to end across the frame; the segments are the tiles' steps in
      order, each at its place in its tile's span, their heights chained from
      the baseline by the rise fitted to the climb's extremes. */
  ghost predicate CurveOf(tiles: seq<PlacedTile>, spans: seq<Span>, flat: seq<Segment>, w: real, h: real) {
    var tracks, innerW, band := TracksOf(tiles), Inner(w), BandOf(Inner(h));
    && |spans| == |tracks|
    && (|spans| > 0 ==> spans[0].x0 == InnerPad && spans[|spans| - 1].x1 == InnerPad + innerW)
    && (forall t :: 0 < t < |spans| ==> spans[t].x0 == spans[t - 1].x1)
    && (forall t :: 0 <= t < |spans| ==> spans[t].x1 - spans[t].x0 == Width(tracks, t, innerW))
    && (forall t :: 0 <= t < |spans| ==> InnerPad <= spans[t].x0 <= spans[t].x1 <= InnerPad + innerW)
    && Enumerates(flat, tracks, spans)
    && exists lo, hi :: IsStepRange(Concat(tracks), lo, hi) && YChained(flat, BaseY(band), Rise(band, lo, hi), band)
  }

  /** The curve runs gap-free from the left margin to the right one, every
      step height in the band of a profile `w` by `h` units. */
  ghost predicate CurveOk(flat: seq<Segment>, w: real, h: real) {
    && |flat| > 0 && flat[0].x0 == InnerPad && flat[|flat| - 1].x1 == InnerPad + Inner(w)
    && (forall j :: 0 < j < |flat| ==> flat[j].x0 == flat[j - 1].x1)
    && (forall j :: 0 <= j < |flat| ==> BandOf(Inner(h)).yMin <= flat[j].y1 <= BandOf(Inner(h)).yMax)
  }

  /** `cum` counts the squares before each step, the total is the count after
      the last, and start and finish are the first and last counted
      (non-yellow) steps; with no counted step they are the first and the
      last step. */
  ghost predicate CountsOk(flat: seq<Segment>, cum: seq<nat>, totalSquares: nat, startIdx: nat, finishIdx: nat) {
    && |flat| > 0 && |cum| == |flat| + 1 && cum[0] == 0
    && (forall i :: 0 <= i < |flat| ==> cum[i + 1] == cum[i] + Counted(flat[i].kind))
    && cum[|flat|] == totalSquares == SquareCount(FlatKinds(flat))
    && startIdx <= finishIdx < |flat|
    && StartFinishSteps(flat, startIdx, finishIdx)
    && (AnyCounted(FlatKinds(flat)) ==> cum[startIdx] == 0 && cum[finishIdx + 1] == totalSquares)
  }

  /** `startIdx` is the first counted step and `finishIdx` the last; with no
      counted step they are the first and the last step. */
  ghost predicate StartFinishSteps(flat: seq<Segment>, startIdx: nat, finishIdx: nat) {
    && startIdx < |flat| && finishIdx < |flat|
    && (AnyCounted(FlatKinds(flat)) ==>
          && flat[startIdx].kind != "yellow" && (forall j :: 0 <= j < startIdx ==> flat[j].kind == "yellow")
          && flat[finishIdx].kind != "yellow" && (forall j :: finishIdx < j < |flat| ==> flat[j].kind == "yellow"))
    && (!AnyCounted(FlatKinds(flat)) ==> startIdx == 0 && finishIdx == |flat| - 1)
  }

  /** The first and last counted steps are unique: two pairs that both
      satisfy `StartFinishSteps` are equal. */
  lemma StartFinishUnique(flat: seq<Segment>, s: nat, f: nat, s': nat, f': nat)
    requires StartFinishSteps(flat, s, f) && StartFinishSteps(flat, s', f')
    ensures s == s' && f == f'
  {
  }

  /** The start and finish found on the kinds are those of the steps. */
  lemma StartFinishOfKinds(flat: seq<Segment>, f: nat)
    requires |flat| > 0 && f < |flat|
    requires AnyCounted(FlatKinds(flat)) ==>
      FlatKinds(flat)[f] != "yellow" && forall j :: f < j < |flat| ==> FlatKinds(flat)[j] == "yellow"
    requires !AnyCounted(FlatKinds(flat)) ==> f == |flat| - 1
    ensures StartFinishSteps(flat, StartIndex(FlatKinds(flat)), f)
  {
    var kinds := FlatKinds(flat);
    var st := StartIndex(kinds);
    if AnyCounted(kinds) {
      assert forall j :: 0 <= j < st ==> flat[j].kind == kinds[j] == "yellow";
      assert forall j :: f < j < |flat| ==> flat[j].kind == kinds[j] == "yellow";
    }
  }

  /** Start shows 0 and finish the total; every marker is inside the frame
      of a profile `w` units wide and shows at most the total. */
  ghost predicate MarkersOk(markers: seq<Marker>, totalSquares: nat, w: real) {
    && |markers| >= 2
    && markers[0].count == 0 && markers[0].startFinish
    && markers[1].count == totalSquares && markers[1].startFinish
    && (forall m :: m in markers ==> m.count <= totalSquares)
    && (forall m :: m in markers ==> InnerPad <= m.x <= InnerPad + Inner(w))
  }

  /** `perCount` has a label for exactly the markers' counts, each that of
      the best marker with its count. */
  ghost predicate BestPerCount(ms: seq<Marker>, perCount: map<nat, NumberLabel>) {
    && (forall c :: c in perCount <==> exists j :: 0 <= j < |ms| && ms[j].count == c)
    && (forall c :: c in perCount ==>
          exists j :: 0 <= j < |ms| && ms[j].count == c && perCount[c] == LabelOf(ms[j])
                      && forall k :: 0 <= k < |ms| && ms[k].count == c ==> Beats(ms, j, k))
  }

  /** One number per marker count; 0 and the total are printed as themselves. */
  ghost predicate NumbersOk(markers: seq<Marker>, numbers: map<nat, NumberLabel>, totalSquares: nat) {
    && (forall c :: c in numbers <==> exists m :: m in markers && m.count == c)
    && 0 in numbers && numbers[0].display == 0
    && totalSquares in numbers && numbers[totalSquares].display == totalSquares
  }

  /** The spans and the flattened, clamped steps of the kept tiles. */
  method ProfileCurve(tiles: seq<PlacedTile>, w: real, h: real) returns (spans: seq<Span>, flat: seq<Segment>)
    requires |tiles| > 0 && forall k :: 0 <= k < |tiles| ==> tiles[k].meta.track != []
    ensures CurveOf(tiles, spans, flat, w, h)
    ensures CurveOk(flat, w, h)
    ensures |spans| == |tiles|
    ensures forall k :: 0 <= k < |spans| ==> InnerPad <= spans[k].x0 <= spans[k].x1 <= InnerPad + Inner(w)
  {
    var innerW, innerH := Inner(w), Inner(h);
    var band := BandOf(innerH);
    var tracks := TracksOf(tiles);
    spans := TileSpans(tracks, innerW);
    var minAcc, maxAcc := StepRange(Concat(tracks));
    var rise := Rise(band, minAcc, maxAcc);
    flat := Flatten(tracks, spans, rise, band);
    ProfileNonEmpty(tracks, flat, spans);
    FlatContiguous(flat, tracks, spans);
    ConcatLength(tracks);
    SpansFillWidth(tracks, innerW, spans);
    SpansWithinFrame(tracks, innerW, spans);
    assert IsStepRange(Concat(tracks), minAcc, maxAcc);
  }

  /** The running counts and the start and finish steps. */
  method ProfileCounts(flat: seq<Segment>) returns (cum: seq<nat>, totalSquares: nat, startIdx: nat, finishIdx: nat)
    requires |flat| > 0
    ensures CountsOk(flat, cum, totalSquares, startIdx, finishIdx)
  {
    var kinds := FlatKinds(flat);
    cum := CumulativeCounts(kinds);
    totalSquares := SquareCount(kinds);
    startIdx := StartIndex(kinds);
    finishIdx := FinishIndex(kinds);
    CountsHold(flat, cum, finishIdx);
  }

  /** What the counting loops compute, with `f` the last non-yellow step,
      meets `CountsOk`. */
  lemma CountsHold(flat: seq<Segment>, cum: seq<nat>, f: nat)
    requires |flat| > 0
    requires |cum| == |flat| + 1 && cum[0] == 0
    requires forall i :: 0 <= i < |flat| ==> cum[i + 1] == cum[i] + Counted(FlatKinds(flat)[i])
    requires forall i :: 0 <= i <= |flat| ==> cum[i] == SquareCount(FlatKinds(flat)[..i])
    requires f < |flat|
    requires AnyCounted(FlatKinds(flat)) ==>
      FlatKinds(flat)[f] != "yellow" && forall j :: f < j < |flat| ==> FlatKinds(flat)[j] == "yellow"
    requires !AnyCounted(FlatKinds(flat)) ==> f == |flat| - 1
    ensures CountsOk(flat, cum, SquareCount(FlatKinds(flat)), StartIndex(FlatKinds(flat)), f)
  {
    var kinds := FlatKinds(flat);
    var st := StartIndex(kinds);
    assert kinds[..|kinds|] == kinds;
    StartBeforeFinish(kinds, st, f);
    StartFinishOfKinds(flat, f);
    if AnyCounted(kinds) {
      StartCountZero(kinds, cum);
      FinishCountTotal(kinds, cum, f);
    }
  }

  /** The markers and the numbers printed under them. */
  method ProfileNumbers(l: Layout, startX: real, finishX: real, totalSquares: nat, cps: seq<Checkpoint>, w: real)
    returns (markers: seq<Marker>, numbers: map<nat, NumberLabel>)
    requires LayoutOk(l) && l.innerW == Inner(w) && l.cum[|l.flat|] == totalSquares
    ensures markers == [Marker(ClampX(l.innerW, startX), 0, true), Marker(ClampX(l.innerW, finishX), totalSquares, true)]
                       + CheckpointMarkers(cps, l)
    ensures BestPerCount(markers, numbers)
    ensures MarkersOk(markers, totalSquares, w)
    ensures NumbersOk(markers, numbers, totalSquares)
  {
    markers := CollectMarkers(l, startX, finishX, totalSquares, cps);
    MarkersHold(l, startX, finishX, totalSquares, cps, w);
    numbers := NumberLabels(markers);
    NumbersHold(markers, numbers, totalSquares);
  }

  lemma MarkersHold(l: Layout, startX: real, finishX: real, totalSquares: nat, cps: seq<Checkpoint>, w: real)
    requires LayoutOk(l) && l.innerW == Inner(w) && l.cum[|l.flat|] == totalSquares
    ensures MarkersOk([Marker(ClampX(l.innerW, startX), 0, true), Marker(ClampX(l.innerW, finishX), totalSquares, true)]
                      + CheckpointMarkers(cps, l), totalSquares, w)
  {
    CheckpointMarkersBounded(cps, l);
  }

  lemma NumbersHold(markers: seq<Marker>, numbers: map<nat, NumberLabel>, totalSquares: nat)
    requires |markers| >= 2 && markers[0].count == 0 && markers[0].startFinish
    requires markers[1].count == totalSquares && markers[1].startFinish
    requires forall c :: c in numbers <==> exists j :: 0 <= j < |markers| && markers[j].count == c
    requires forall c :: c in numbers ==>
      exists j :: 0 <= j < |markers| && markers[j].count == c && numbers[c] == LabelOf(markers[j])
                  && forall k :: 0 <= k < |markers| && markers[k].count == c ==> Beats(markers, j, k)
    ensures NumbersOk(markers, numbers, totalSquares)
  {
    MarkerCounts(markers, numbers);
    StartFinishNumbers(markers, numbers, 0);
    StartFinishNumbers(markers, numbers, 1);
  }

  /** What the checkpoint markers of a course are placed against. */
  function ProfileLayout(placed: seq<PlacedTile>, spans: seq<Span>, flat: seq<Segment>, cum: seq<nat>, w: real): Layout {
    Layout(Inner(w), KeptIndex(placed), KeptOf(placed), spans, flat, cum)
  }

  /** The drawn profile of a course: the curve is that of the kept tiles,
      the counts run along it between its first and last counted steps,
      the markers are start, finish and each
      checkpoint's marker in checkpoint order, and every count's number is
      that of its best marker. */
  ghost predicate DrawnOk(placed: seq<PlacedTile>, checkpoints: seq<Checkpoint>, w: real, h: real, view: ProfileView)
    requires view.Drawn?
  {
    && CurveOf(KeptOf(placed), view.spans, view.flat, w, h) && CurveOk(view.flat, w, h)
    && CountsOk(view.flat, view.cum, view.totalSquares, view.startIdx, view.finishIdx)
    && LayoutOk(ProfileLayout(placed, view.spans, view.flat, view.cum, w))
    && view.markers == [Marker(ClampX(Inner(w), view.flat[view.startIdx].x0), 0, true),
                        Marker(ClampX(Inner(w), view.flat[view.finishIdx].x1), view.totalSquares, true)]
                       + CheckpointMarkers(checkpoints, ProfileLayout(placed, view.spans, view.flat, view.cum, w))
    && BestPerCount(view.markers, view.numbers)
    && MarkersOk(view.markers, view.totalSquares, w)
    && NumbersOk(view.markers, view.numbers, view.totalSquares)
  }

  /** `renderStageProfile` without the drawing: the course's tiles, in order,
      become a profile of `w` by `h` units. */
  method RenderStageProfile(placed: seq<PlacedTile>, checkpoints: seq<Checkpoint>, w: real, h: real)
    returns (view: ProfileView)
    ensures view.Placeholder? <==> forall i :: 0 <= i < |placed| ==> placed[i].meta.track == []
    ensures view.Drawn? ==> DrawnOk(placed, checkpoints, w, h, view)
  {
    var tiles, index := KeptTiles(placed);
    NoneKept(placed, tiles, index);
    if tiles == [] {
      return Placeholder;
    }
    view := DrawProfile(placed, tiles, index, checkpoints, w, h);
  }

  /** The drawn branch of `renderStageProfile`. */
  method DrawProfile(placed: seq<PlacedTile>, tiles: seq<PlacedTile>, index: map<int, nat>,
                     checkpoints: seq<Checkpoint>, w: real, h: real)
    returns (view: ProfileView)
    requires tiles == KeptOf(placed) && index == KeptIndex(placed) && tiles != []
    requires forall k :: 0 <= k < |tiles| ==> tiles[k].meta.track != []
    ensures view.Drawn? && DrawnOk(placed, checkpoints, w, h, view)
  {
    var innerW := Inner(w);
    var spans, flat := ProfileCurve(tiles, w, h);
    var cum, totalSquares, startIdx, finishIdx := ProfileCounts(flat);
    var startX := ClampX(innerW, flat[startIdx].x0);
    var finishX := ClampX(innerW, flat[finishIdx].x1);
    var layout := Layout(innerW, index, tiles, spans, flat, cum);
    LayoutHolds(placed, spans, flat, cum, w);
    assert layout == ProfileLayout(placed, spans, flat, cum, w);
    var markers, numbers := ProfileNumbers(layout, startX, finishX, totalSquares, checkpoints, w);
    assert ClampX(innerW, startX) == startX && ClampX(innerW, finishX) == finishX;
    view := Drawn(spans, flat, cum, totalSquares, startIdx, finishIdx, markers, numbers);
  }

  lemma LayoutHolds(placed: seq<PlacedTile>, spans: seq<Span>, flat: seq<Segment>, cum: seq<nat>, w: real)
    requires |spans| == |KeptOf(placed)|
    requires forall k :: 0 <= k < |spans| ==> InnerPad <= spans[k].x0 <= spans[k].x1 <= InnerPad + Inner(w)
    requires |flat| > 0 && flat[0].x0 == InnerPad && flat[|flat| - 1].x1 == InnerPad + Inner(w)
    requires forall j :: 0 < j < |flat| ==> flat[j].x0 == flat[j - 1].x1
    requires |cum| == |flat| + 1 && forall i :: 0 <= i < |flat| ==> cum[i + 1] == cum[i] + Counted(flat[i].kind)
    ensures LayoutOk(ProfileLayout(placed, spans, flat, cum, w))
  {
  }

  lemma ProfileNonEmpty(tracks: seq<seq<string>>, flat: seq<Segment>, spans: seq<Span>)
    requires |tracks| > 0 && |spans| == |tracks| && tracks[0] != []
    requires KindsMatch(flat, tracks)
    ensures |flat| > 0
  {
    ConcatLength(tracks);
  }

  lemma {:induction false} ConcatLength(tracks: seq<seq<string>>)
    requires |tracks| > 0
    ensures |Concat(tracks)| >= |tracks[0]|
  {
    if |tracks| > 1 {
      var init := tracks[..|tracks| - 1];
      assert init[0] == tracks[0];
      ConcatLength(init);
    }
  }

  lemma StartBeforeFinish(kinds: seq<string>, s: nat, f: nat)
    requires |kinds| > 0 && s == StartIndex(kinds) && f < |kinds|
    requires AnyCounted(kinds) ==> kinds[f] != "yellow" && forall j :: f < j < |kinds| ==> kinds[j] == "yellow"
    requires !AnyCounted(kinds) ==> f == |kinds| - 1
    ensures s <= f
  {
  }

  lemma MarkerCounts(ms: seq<Marker>, perCount: map<nat, NumberLabel>)
    requires forall c :: c in perCount <==> exists j :: 0 <= j < |ms| && ms[j].count == c
    ensures forall c :: c in perCount <==> exists m :: m in ms && m.count == c
  {
    forall c ensures c in perCount <==> exists m :: m in ms && m.count == c {
      if c in perCount {
        var j :| 0 <= j < |ms| && ms[j].count == c;
        assert ms[j] in ms;
      }
    }
  }
}
