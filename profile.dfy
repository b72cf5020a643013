/** The computational part of the elevation profile (script.js
    `renderStageProfile`): horizontal spans per tile, the flattened step
    segments with their clamped heights, the running square counts, and the
    start and finish steps. Drawing the paths and text is not modelled. */
module Profile {
  import opened Wrappers
  import opened Geometry

  /** INNER_PAD: the margin inside the profile frame. */
  const InnerPad: real := 8.0

  function Max(a: real, b: real): real { if a >= b then a else b }
  function Min(a: real, b: real): real { if a <= b then a else b }

  /** `Math.max(1, len - INNER_PAD * 2)`: the usable width or height. */
  function Inner(len: real): (r: real)
    ensures r >= 1.0 && r >= len - 2.0 * InnerPad
    ensures len - 2.0 * InnerPad >= 1.0 ==> r == len - 2.0 * InnerPad
  {
    Max(1.0, len - 2.0 * InnerPad)
  }

  /** The vertical band the curve lives in. */
  datatype Band = Band(yMin: real, yMax: real)

  function BandOf(innerH: real): (b: Band)
    requires innerH >= 1.0
    ensures InnerPad < b.yMin < b.yMax < InnerPad + innerH
  {
    Band(InnerPad + innerH * 0.18, InnerPad + innerH * 0.85)
  }

  /** The resting baseline, 80% of the way down the band. */
  function BaseY(b: Band): (y: real)
    requires b.yMin < b.yMax
    ensures b.yMin < y < b.yMax
  {
    b.yMin + (b.yMax - b.yMin) * 0.8
  }

  /** `clampX`: keeps an x inside the inner frame. */
  function ClampX(innerW: real, x: real): (r: real)
    requires innerW >= 1.0
    ensures InnerPad <= r <= InnerPad + innerW
    ensures InnerPad <= x <= InnerPad + innerW ==> r == x
  {
    Max(InnerPad, Min(InnerPad + innerW, x))
  }

  /** `if (v < lo) v = lo; if (v > hi) v = hi;`. */
  function Clamp(v: real, lo: real, hi: real): (r: real)
    requires lo <= hi
    ensures lo <= r <= hi
    ensures lo <= v <= hi ==> r == v
  {
    if v < lo then lo else if v > hi then hi else v
  }

  // ---------------------------------------------------------------------
  // Spans
  // ---------------------------------------------------------------------

  /** The tracks laid end to end: the flattened step kinds. */
  function Concat(tracks: seq<seq<string>>): seq<string> {
    if tracks == [] then [] else Concat(tracks[..|tracks| - 1]) + tracks[|tracks| - 1]
  }

  /** `reduce(...) || 1`: the total step count, or 1 for an empty profile. */
  function TotalOr1(tracks: seq<seq<string>>): (r: real)
    ensures r >= 1.0
  {
    if |Concat(tracks)| == 0 then 1.0 else |Concat(tracks)| as real
  }

  datatype Span = Span(x0: real, x1: real)

  /** The width of tile `t`: its share of the inner width. */
  function Width(tracks: seq<seq<string>>, t: nat, innerW: real): real
    requires t < |tracks|
  {
    innerW * (|tracks[t]| as real / TotalOr1(tracks))
  }

  /** Where the first `t` tiles end. */
  function XEnd(tracks: seq<seq<string>>, t: nat, innerW: real): real
    requires t <= |tracks|
  {
    InnerPad + innerW * (|Concat(tracks[..t])| as real / TotalOr1(tracks))
  }

  lemma Distribute(w: real, a: real, b: real, total: real)
    requires total > 0.0
    ensures w * (a / total) + w * (b / total) == w * ((a + b) / total)
  {
    assert a / total + b / total == (a + b) / total;
  }

  lemma XEndStep(tracks: seq<seq<string>>, t: nat, innerW: real)
    requires t < |tracks|
    ensures XEnd(tracks, t + 1, innerW) == XEnd(tracks, t, innerW) + Width(tracks, t, innerW)
  {
    assert tracks[..t + 1][..t] == tracks[..t];
    assert |Concat(tracks[..t + 1])| == |Concat(tracks[..t])| + |tracks[t]|;
    Distribute(innerW, |Concat(tracks[..t])| as real, |tracks[t]| as real, TotalOr1(tracks));
  }

  /** The per-tile spans: each tile's width is proportional to its step count,
      the first starts at the inner margin, and each starts where the
      previous one ends. */
  method TileSpans(tracks: seq<seq<string>>, innerW: real) returns (spans: seq<Span>)
    ensures |spans| == |tracks|
    ensures |spans| > 0 ==> spans[0].x0 == InnerPad
    ensures forall t :: 0 < t < |spans| ==> spans[t].x0 == spans[t - 1].x1
    ensures forall t :: 0 <= t < |spans| ==> spans[t].x1 - spans[t].x0 == Width(tracks, t, innerW)
    ensures forall t :: 0 <= t < |spans| ==> spans[t].x1 == XEnd(tracks, t + 1, innerW)
  {
    var xCursor := InnerPad;
    XEndZero(tracks, innerW);
    spans := [];
    var t := 0;
    while t < |tracks|
      invariant 0 <= t <= |tracks| && |spans| == t
      invariant xCursor == XEnd(tracks, t, innerW)
      invariant SpansAtEnds(tracks, innerW, spans)
    {
      var wTile := Width(tracks, t, innerW);
      XEndStep(tracks, t, innerW);
      spans := spans + [Span(xCursor, xCursor + wTile)];
      xCursor := xCursor + wTile;
      t := t + 1;
    }
    SpansFromEnds(tracks, innerW, spans);
  }

  /** Span `u` runs from where the first `u` tiles end to where the first
      `u + 1` end. */
  ghost predicate SpansAtEnds(tracks: seq<seq<string>>, innerW: real, spans: seq<Span>)
    requires |spans| <= |tracks|
  {
    forall u :: 0 <= u < |spans| ==> spans[u] == Span(XEnd(tracks, u, innerW), XEnd(tracks, u + 1, innerW))
  }

  lemma XEndZero(tracks: seq<seq<string>>, innerW: real)
    ensures XEnd(tracks, 0, innerW) == InnerPad
  {
    assert tracks[..0] == [];
  }

  lemma SpansFromEnds(tracks: seq<seq<string>>, innerW: real, spans: seq<Span>)
    requires |spans| == |tracks| && SpansAtEnds(tracks, innerW, spans)
    ensures |spans| > 0 ==> spans[0].x0 == InnerPad
    ensures forall t :: 0 < t < |spans| ==> spans[t].x0 == spans[t - 1].x1
    ensures forall t :: 0 <= t < |spans| ==> spans[t].x1 - spans[t].x0 == Width(tracks, t, innerW)
    ensures forall t :: 0 <= t < |spans| ==> spans[t].x1 == XEnd(tracks, t + 1, innerW)
  {
    XEndZero(tracks, innerW);
    if |spans| > 0 {
      assert spans[0] == Span(XEnd(tracks, 0, innerW), XEnd(tracks, 1, innerW));
    }
    forall t | 0 < t < |spans| ensures spans[t].x0 == spans[t - 1].x1 {
      assert spans[t - 1] == Span(XEnd(tracks, t - 1, innerW), XEnd(tracks, t, innerW));
      assert spans[t] == Span(XEnd(tracks, t, innerW), XEnd(tracks, t + 1, innerW));
    }
    forall t | 0 <= t < |spans| ensures spans[t].x1 - spans[t].x0 == Width(tracks, t, innerW) {
      XEndStep(tracks, t, innerW);
    }
  }

  /** With at least one step, the spans end exactly at the right margin. */
  lemma SpansFillWidth(tracks: seq<seq<string>>, innerW: real, spans: seq<Span>)
    requires |spans| == |tracks| > 0 && |Concat(tracks)| > 0
    requires spans[|spans| - 1].x1 == XEnd(tracks, |spans|, innerW)
    ensures spans[|spans| - 1].x1 == InnerPad + innerW
  {
    assert tracks[..|spans|] == tracks;
    var n := |Concat(tracks)| as real;
    assert n / n == 1.0;
  }

  lemma {:induction false} ConcatPrefixLength(tracks: seq<seq<string>>, t: nat)
    requires t <= |tracks|
    ensures |Concat(tracks[..t])| <= |Concat(tracks)|
    decreases |tracks|
  {
    if t < |tracks| {
      var init := tracks[..|tracks| - 1];
      assert init[..t] == tracks[..t];
      ConcatPrefixLength(init, t);
    } else {
      assert tracks[..t] == tracks;
    }
  }

  lemma ScaleWithin(w: real, q: real)
    requires w >= 0.0 && 0.0 <= q <= 1.0
    ensures 0.0 <= w * q <= w
  {
    assert w * (1.0 - q) >= 0.0;
  }

  lemma FractionWithin(a: real, total: real)
    requires 0.0 <= a <= total && total > 0.0
    ensures 0.0 <= a / total <= 1.0
  {
    assert (a / total) * total == a;
  }

  /** Where the first `t` tiles end lies inside the frame. */
  lemma XEndWithin(tracks: seq<seq<string>>, t: nat, innerW: real)
    requires t <= |tracks| && innerW >= 0.0
    ensures InnerPad <= XEnd(tracks, t, innerW) <= InnerPad + innerW
  {
    ConcatPrefixLength(tracks, t);
    var a, total := |Concat(tracks[..t])| as real, TotalOr1(tracks);
    if |Concat(tracks)| == 0 {
      assert a == 0.0;
      assert a / total == 0.0;
    } else {
      assert total == |Concat(tracks)| as real;
      FractionWithin(a, total);
    }
    var q := a / total;
    ScaleWithin(innerW, q);
    assert XEnd(tracks, t, innerW) == InnerPad + innerW * q;
  }

  /** With a non-negative inner width every span lies inside the frame and
      runs left to right. */
  lemma SpansWithinFrame(tracks: seq<seq<string>>, innerW: real, spans: seq<Span>)
    requires innerW >= 0.0 && |spans| == |tracks|
    requires |spans| > 0 ==> spans[0].x0 == InnerPad
    requires forall t :: 0 < t < |spans| ==> spans[t].x0 == spans[t - 1].x1
    requires forall t :: 0 <= t < |spans| ==> spans[t].x1 == XEnd(tracks, t + 1, innerW)
    ensures forall t :: 0 <= t < |spans| ==> InnerPad <= spans[t].x0 <= spans[t].x1 <= InnerPad + innerW
  {
    forall t | 0 <= t < |spans| ensures InnerPad <= spans[t].x0 <= spans[t].x1 <= InnerPad + innerW {
      XEndZero(tracks, innerW);
      XEndStep(tracks, t, innerW);
      XEndWithin(tracks, t, innerW);
      XEndWithin(tracks, t + 1, innerW);
      if t > 0 {
        assert spans[t].x0 == spans[t - 1].x1 == XEnd(tracks, t - 1 + 1, innerW);
      }
      assert spans[t].x0 == XEnd(tracks, t, innerW);
      var q := |tracks[t]| as real / TotalOr1(tracks);
      assert q >= 0.0;
      assert innerW * q >= 0.0;
    }
  }

  // ---------------------------------------------------------------------
  // Steps and the vertical scale
  // ---------------------------------------------------------------------

  /** asc climbs one unit, desc drops one, every other kind is level. */
  function StepDelta(kind: string): int {
    if kind == "asc" then 1 else if kind == "desc" then -1 else 0
  }

  /** The climb accumulated over the first `n` steps. */
  function Acc(kinds: seq<string>, n: nat): int
    requires n <= |kinds|
  {
    if n == 0 then 0 else Acc(kinds, n - 1) + StepDelta(kinds[n - 1])
  }

  /** The running-extremes loop: `minAcc`/`maxAcc` are the lowest and highest
      accumulated climb, counting the start at 0. */
  method StepRange(kinds: seq<string>) returns (minAcc: int, maxAcc: int)
    ensures minAcc <= 0 <= maxAcc
    ensures forall n :: 0 <= n <= |kinds| ==> minAcc <= Acc(kinds, n) <= maxAcc
    ensures exists n :: 0 <= n <= |kinds| && Acc(kinds, n) == minAcc
    ensures exists n :: 0 <= n <= |kinds| && Acc(kinds, n) == maxAcc
  {
    var acc := 0;
    minAcc, maxAcc := 0, 0;
    var i := 0;
    while i < |kinds|
      invariant 0 <= i <= |kinds| && acc == Acc(kinds, i)
      invariant minAcc <= 0 <= maxAcc
      invariant forall n :: 0 <= n <= i ==> minAcc <= Acc(kinds, n) <= maxAcc
      invariant exists n :: 0 <= n <= i && Acc(kinds, n) == minAcc
      invariant exists n :: 0 <= n <= i && Acc(kinds, n) == maxAcc
    {
      acc := acc + StepDelta(kinds[i]);
      if acc < minAcc {
        minAcc := acc;
      }
      if acc > maxAcc {
        maxAcc := acc;
      }
      i := i + 1;
    }
  }

  lemma QuotientPositive(c: real, n: real)
    requires c > 0.0 && n > 0.0
    ensures c / n > 0.0
  {
  }

  lemma ScaledBelow(r: real, c: real, n: real)
    requires n >= 1.0 && 0.0 <= r <= c / n
    ensures r * n <= c
  {
    assert (c / n) * n == c;
    assert r * n <= (c / n) * n;
  }

  /** `r` is a positive rise within all three limits: a thirtieth of the
      band, and the room above and below for the steps needed there. */
  predicate WithinLimits(r: real, capAbove: real, needAbove: real, capBelow: real, needBelow: real, bandH: real) {
    0.0 < r <= bandH / 30.0 && r * needAbove <= capAbove && r * needBelow <= capBelow
  }

  /** `r` is exactly one of the three limits on the rise: a thirtieth of the
      band, or the room above or below over the steps needed there. */
  predicate MeetsALimit(r: real, capAbove: real, needAbove: real, capBelow: real, needBelow: real, bandH: real) {
    r == bandH / 30.0 || r * needAbove == capAbove || r * needBelow == capBelow
  }

  /** The smallest of the two room-over-need ratios and a thirtieth of the
      band: within all three limits and equal to one of them. */
  function RiseWithin(capAbove: real, needAbove: real, capBelow: real, needBelow: real, bandH: real): (r: real)
    requires capAbove >= 1.0 && needAbove >= 1.0 && capBelow >= 1.0 && needBelow >= 1.0 && bandH > 0.0
    ensures WithinLimits(r, capAbove, needAbove, capBelow, needBelow, bandH)
    ensures MeetsALimit(r, capAbove, needAbove, capBelow, needBelow, bandH)
  {
    var r := Min(Min(capAbove / needAbove, capBelow / needBelow), bandH / 30.0);
    assert (capAbove / needAbove) * needAbove == capAbove;
    assert (capBelow / needBelow) * needBelow == capBelow;
    QuotientPositive(capAbove, needAbove);
    QuotientPositive(capBelow, needBelow);
    QuotientPositive(bandH, 30.0);
    ScaledBelow(r, capAbove, needAbove);
    ScaledBelow(r, capBelow, needBelow);
    r
  }

  /** `Math.max(1, v)`. */
  function AtLeast1(v: real): (r: real)
    ensures r >= 1.0 && r >= v
  {
    Max(1.0, v)
  }

  /** `Math.abs(Math.min(0, minAcc))`: how far the climb dips below the start. */
  function Dip(minAcc: int): nat {
    if minAcc < 0 then -minAcc else 0
  }

  /** The rise per step: as large as allowed by the room above and below the
      baseline for the extreme climbs, and never above a thirtieth of the band;
      it meets one of those limits exactly, so it is their minimum. */
  function Rise(b: Band, minAcc: int, maxAcc: int): (rise: real)
    requires b.yMin < b.yMax
    ensures WithinLimits(rise, AtLeast1(BaseY(b) - b.yMin), AtLeast1(maxAcc as real),
                         AtLeast1(b.yMax - BaseY(b)), AtLeast1(Dip(minAcc) as real), b.yMax - b.yMin)
    ensures MeetsALimit(rise, AtLeast1(BaseY(b) - b.yMin), AtLeast1(maxAcc as real),
                        AtLeast1(b.yMax - BaseY(b)), AtLeast1(Dip(minAcc) as real), b.yMax - b.yMin)
  {
    var capAbove := AtLeast1(BaseY(b) - b.yMin);
    var capBelow := AtLeast1(b.yMax - BaseY(b));
    var needAbove := AtLeast1(maxAcc as real);
    var needBelow := AtLeast1(Dip(minAcc) as real);
    RiseWithin(capAbove, needAbove, capBelow, needBelow, b.yMax - b.yMin)
  }

  // ---------------------------------------------------------------------
  // Flattened segments
  // ---------------------------------------------------------------------

  datatype Segment = Segment(tileIdx: nat, idxInTile: nat, kind: string,
                             x0: real, x1: real, y0: real, y1: real)

  /** The x where step `i` of `k` starts inside a span. */
  function SubX(span: Span, i: nat, k: nat): real
    requires k > 0
  {
    span.x0 + (i as real / k as real) * (span.x1 - span.x0)
  }

  /** The unclamped height after a step: up (smaller y) for asc, down for desc. */
  function StepY(y0: real, kind: string, rise: real): real {
    if kind == "asc" then y0 - rise else if kind == "desc" then y0 + rise else y0
  }

  /** `s` is step `i` of tile `ti`, whose track and span are given. */
  predicate SegmentOf(s: Segment, ti: nat, i: nat, track: seq<string>, span: Span)
    requires i < |track|
  {
    s.tileIdx == ti && s.idxInTile == i && s.kind == track[i]
    && s.x0 == SubX(span, i, |track|) && s.x1 == SubX(span, i + 1, |track|)
  }

  /** Heights chain from `y`: each segment starts where the previous ended and
      ends at its step's height clamped into the band. */
  predicate YChained(segs: seq<Segment>, y: real, rise: real, b: Band)
    requires b.yMin <= b.yMax
  {
    && (|segs| > 0 ==> segs[0].y0 == y)
    && (forall j :: 0 < j < |segs| ==> segs[j].y0 == segs[j - 1].y1)
    && (forall j :: 0 <= j < |segs| ==> segs[j].y1 == Clamp(StepY(segs[j].y0, segs[j].kind, rise), b.yMin, b.yMax))
  }

  /** The height the next segment starts from. */
  function LastY(segs: seq<Segment>, y: real): real {
    if segs == [] then y else segs[|segs| - 1].y1
  }

  lemma YChainedAppend(a: seq<Segment>, c: seq<Segment>, y: real, rise: real, b: Band)
    requires b.yMin <= b.yMax
    requires YChained(a, y, rise, b) && YChained(c, LastY(a, y), rise, b)
    ensures YChained(a + c, y, rise, b)
    ensures LastY(a + c, y) == LastY(c, LastY(a, y))
  {
    var ac := a + c;
    forall j | 0 < j < |ac| ensures ac[j].y0 == ac[j - 1].y1 {
      if j < |a| {
      } else if j == |a| {
        assert ac[j] == c[0];
      } else {
        assert ac[j] == c[j - |a|] && ac[j - 1] == c[j - 1 - |a|];
      }
    }
    forall j | 0 <= j < |ac|
      ensures ac[j].y1 == Clamp(StepY(ac[j].y0, ac[j].kind, rise), b.yMin, b.yMax)
    {
      if j >= |a| {
        assert ac[j] == c[j - |a|];
      }
    }
  }

  /** The inner loop over one tile's track. */
  method FlattenTile(track: seq<string>, span: Span, ti: nat, y: real, rise: real, b: Band)
    returns (segs: seq<Segment>, yOut: real)
    requires b.yMin <= b.yMax
    ensures |segs| == |track|
    ensures forall i :: 0 <= i < |segs| ==> SegmentOf(segs[i], ti, i, track, span)
    ensures YChained(segs, y, rise, b)
    ensures yOut == LastY(segs, y)
  {
    var k := |track|;
    segs := [];
    yOut := y;
    var i := 0;
    while i < k
      invariant 0 <= i <= k && |segs| == i
      invariant forall j :: 0 <= j < i ==> SegmentOf(segs[j], ti, j, track, span)
      invariant YChained(segs, y, rise, b)
      invariant yOut == LastY(segs, y)
    {
      var y0 := yOut;
      var y1 := y0;
      if track[i] == "asc" {
        y1 := y0 - rise;
      }
      if track[i] == "desc" {
        y1 := y0 + rise;
      }
      if y1 < b.yMin {
        y1 := b.yMin;
      }
      if y1 > b.yMax {
        y1 := b.yMax;
      }
      var seg := Segment(ti, i, track[i], SubX(span, i, k), SubX(span, i + 1, k), y0, y1);
      assert YChained([seg], yOut, rise, b);
      YChainedAppend(segs, [seg], y, rise, b);
      segs := segs + [seg];
      yOut := y1;
      i := i + 1;
    }
  }

  /** The segments' kinds are the tracks laid end to end. */
  ghost predicate KindsMatch(flat: seq<Segment>, tracks: seq<seq<string>>) {
    && |flat| == |Concat(tracks)|
    && (forall j :: 0 <= j < |flat| ==> flat[j].kind == Concat(tracks)[j])
  }

  /** Every segment is a step of some tile, at its place in that tile's span. */
  ghost predicate AllPlaced(flat: seq<Segment>, tracks: seq<seq<string>>, spans: seq<Span>)
    requires |spans| == |tracks|
  {
    forall j :: 0 <= j < |flat| ==>
      && flat[j].tileIdx < |tracks| && flat[j].idxInTile < |tracks[flat[j].tileIdx]|
      && SegmentOf(flat[j], flat[j].tileIdx, flat[j].idxInTile, tracks[flat[j].tileIdx], spans[flat[j].tileIdx])
  }

  /** Tile by tile, step by step: the first segment is step 0 of tile 0, the
      last is the last step of the last tile, and each segment is the next
      step of the same tile or the first step of the next tile. */
  ghost predicate InOrder(flat: seq<Segment>, tracks: seq<seq<string>>) {
    && (|flat| > 0 ==> flat[0].tileIdx == 0 && flat[0].idxInTile == 0)
    && (|flat| > 0 ==> |tracks| > 0 && flat[|flat| - 1].tileIdx == |tracks| - 1)
    && (|flat| > 0 ==> |tracks| > 0 && flat[|flat| - 1].idxInTile == |tracks[|tracks| - 1]| - 1)
    && (forall j :: 0 < j < |flat| ==>
          || (flat[j].tileIdx == flat[j - 1].tileIdx && flat[j].idxInTile == flat[j - 1].idxInTile + 1)
          || (&& flat[j].tileIdx == flat[j - 1].tileIdx + 1 && flat[j].idxInTile == 0
              && flat[j - 1].tileIdx < |tracks|
              && flat[j - 1].idxInTile == |tracks[flat[j - 1].tileIdx]| - 1))
  }

  /** `flat` enumerates the steps of `tracks` in order. */
  ghost predicate Enumerates(flat: seq<Segment>, tracks: seq<seq<string>>, spans: seq<Span>)
    requires |spans| == |tracks|
  {
    KindsMatch(flat, tracks) && AllPlaced(flat, tracks, spans) && InOrder(flat, tracks)
  }

  /** The outer loop's invariant after `t` tiles. */
  ghost predicate Flattened(flat: seq<Segment>, y: real, tracks: seq<seq<string>>, spans: seq<Span>, t: nat,
                            rise: real, b: Band)
    requires |spans| == |tracks| && t <= |tracks| && b.yMin < b.yMax
  {
    && Enumerates(flat, tracks[..t], spans[..t]) && (t > 0 ==> flat != [])
    && YChained(flat, BaseY(b), rise, b) && y == LastY(flat, BaseY(b))
  }

  /** One round of the outer loop: appends the segments of tile `t`. */
  method AppendTile(flat: seq<Segment>, y: real, tracks: seq<seq<string>>, spans: seq<Span>, t: nat,
                    rise: real, b: Band)
    returns (flat': seq<Segment>, y': real)
    requires |spans| == |tracks| && t < |tracks| && tracks[t] != []
    requires b.yMin < b.yMax
    requires Flattened(flat, y, tracks, spans, t, rise, b)
    ensures Flattened(flat', y', tracks, spans, t + 1, rise, b)
  {
    var segs, yOut := FlattenTile(tracks[t], spans[t], t, y, rise, b);
    FlattenStep(flat, segs, tracks, spans, t);
    YChainedAppend(flat, segs, BaseY(b), rise, b);
    flat' := flat + segs;
    y' := yOut;
  }

  /** The outer loop over the kept tiles. */
  method Flatten(tracks: seq<seq<string>>, spans: seq<Span>, rise: real, b: Band) returns (flat: seq<Segment>)
    requires |spans| == |tracks|
    requires forall t :: 0 <= t < |tracks| ==> tracks[t] != []
    requires b.yMin < b.yMax
    ensures Enumerates(flat, tracks, spans)
    ensures YChained(flat, BaseY(b), rise, b)
  {
    flat := [];
    var y := BaseY(b);
    FlattenedStart(tracks, spans, rise, b);
    var t := 0;
    while t < |tracks|
      invariant 0 <= t <= |tracks|
      invariant Flattened(flat, y, tracks, spans, t, rise, b)
    {
      flat, y := AppendTile(flat, y, tracks, spans, t, rise, b);
      t := t + 1;
    }
    FlattenedWhole(flat, y, tracks, spans, rise, b);
  }

  lemma FlattenedStart(tracks: seq<seq<string>>, spans: seq<Span>, rise: real, b: Band)
    requires |spans| == |tracks| && b.yMin < b.yMax
    ensures Flattened([], BaseY(b), tracks, spans, 0, rise, b)
  {
    EnumeratesEmpty(tracks, spans);
    assert YChained([], BaseY(b), rise, b);
  }

  lemma EnumeratesEmpty(tracks: seq<seq<string>>, spans: seq<Span>)
    requires |spans| == |tracks|
    ensures Enumerates([], tracks[..0], spans[..0])
  {
    assert tracks[..0] == [] && spans[..0] == [];
  }

  lemma FlattenedWhole(flat: seq<Segment>, y: real, tracks: seq<seq<string>>, spans: seq<Span>, rise: real, b: Band)
    requires |spans| == |tracks| && b.yMin < b.yMax
    requires Flattened(flat, y, tracks, spans, |tracks|, rise, b)
    ensures Enumerates(flat, tracks, spans)
    ensures YChained(flat, BaseY(b), rise, b)
  {
    assert tracks[..|tracks|] == tracks && spans[..|spans|] == spans;
  }

  lemma FlattenStep(flat: seq<Segment>, segs: seq<Segment>, tracks: seq<seq<string>>, spans: seq<Span>, t: nat)
    requires |spans| == |tracks| && t < |tracks| && tracks[t] != []
    requires Enumerates(flat, tracks[..t], spans[..t]) && (t > 0 ==> flat != [])
    requires |segs| == |tracks[t]|
    requires forall i :: 0 <= i < |segs| ==> SegmentOf(segs[i], t, i, tracks[t], spans[t])
    ensures Enumerates(flat + segs, tracks[..t + 1], spans[..t + 1])
    ensures flat + segs != []
  {
    KindsStep(flat, segs, tracks, t);
    PlacedStep(flat, segs, tracks, spans, t);
    OrderStep(flat, segs, tracks, t);
  }

  lemma KindsStep(flat: seq<Segment>, segs: seq<Segment>, tracks: seq<seq<string>>, t: nat)
    requires t < |tracks| && KindsMatch(flat, tracks[..t])
    requires |segs| == |tracks[t]| && forall i :: 0 <= i < |segs| ==> segs[i].kind == tracks[t][i]
    ensures KindsMatch(flat + segs, tracks[..t + 1])
  {
    assert tracks[..t + 1][..t] == tracks[..t];
    var c := Concat(tracks[..t + 1]);
    assert c == Concat(tracks[..t]) + tracks[t];
    forall j | 0 <= j < |flat + segs| ensures (flat + segs)[j].kind == c[j] {
      if j >= |flat| {
        assert (flat + segs)[j] == segs[j - |flat|];
      }
    }
  }

  lemma PlacedStep(flat: seq<Segment>, segs: seq<Segment>, tracks: seq<seq<string>>, spans: seq<Span>, t: nat)
    requires |spans| == |tracks| && t < |tracks|
    requires AllPlaced(flat, tracks[..t], spans[..t])
    requires |segs| == |tracks[t]|
    requires forall i :: 0 <= i < |segs| ==> SegmentOf(segs[i], t, i, tracks[t], spans[t])
    ensures AllPlaced(flat + segs, tracks[..t + 1], spans[..t + 1])
  {
    var tr, sp, all := tracks[..t + 1], spans[..t + 1], flat + segs;
    forall j | 0 <= j < |all|
      ensures all[j].tileIdx < |tr| && all[j].idxInTile < |tr[all[j].tileIdx]|
      ensures SegmentOf(all[j], all[j].tileIdx, all[j].idxInTile, tr[all[j].tileIdx], sp[all[j].tileIdx])
    {
      if j < |flat| {
        assert all[j] == flat[j];
        assert tracks[..t][flat[j].tileIdx] == tr[flat[j].tileIdx];
        assert spans[..t][flat[j].tileIdx] == sp[flat[j].tileIdx];
      } else {
        assert all[j] == segs[j - |flat|];
      }
    }
  }

  lemma OrderStep(flat: seq<Segment>, segs: seq<Segment>, tracks: seq<seq<string>>, t: nat)
    requires t < |tracks| && tracks[t] != []
    requires InOrder(flat, tracks[..t]) && (t > 0 ==> flat != [])
    requires |segs| == |tracks[t]|
    requires forall i :: 0 <= i < |segs| ==> segs[i].tileIdx == t && segs[i].idxInTile == i
    ensures InOrder(flat + segs, tracks[..t + 1])
  {
    var tr, all := tracks[..t + 1], flat + segs;
    assert |tr| == t + 1 && tr[t] == tracks[t];
    assert all[|all| - 1] == segs[|segs| - 1];
    if flat == [] {
      assert all[0] == segs[0];
    } else {
      assert all[0] == flat[0];
    }
    forall j | 0 < j < |all|
      ensures || (all[j].tileIdx == all[j - 1].tileIdx && all[j].idxInTile == all[j - 1].idxInTile + 1)
              || (&& all[j].tileIdx == all[j - 1].tileIdx + 1 && all[j].idxInTile == 0
                  && all[j - 1].tileIdx < |tr|
                  && all[j - 1].idxInTile == |tr[all[j - 1].tileIdx]| - 1)
    {
      if j < |flat| {
        assert all[j] == flat[j] && all[j - 1] == flat[j - 1];
        if flat[j - 1].tileIdx < t {
          assert tracks[..t][flat[j - 1].tileIdx] == tr[flat[j - 1].tileIdx];
        }
      } else if j == |flat| {
        assert all[j] == segs[0] && all[j - 1] == flat[|flat| - 1];
        assert tracks[..t][t - 1] == tr[t - 1];
      } else {
        assert all[j] == segs[j - |flat|] && all[j - 1] == segs[j - 1 - |flat|];
      }
    }
  }

  /** The flattened segments tile the profile from the left margin to the end
      of the last span without gaps: each starts where the previous ends. */
  lemma {:induction false} FlatContiguous(flat: seq<Segment>, tracks: seq<seq<string>>, spans: seq<Span>)
    requires |spans| == |tracks|
    requires Enumerates(flat, tracks, spans)
    requires forall t :: 0 < t < |spans| ==> spans[t].x0 == spans[t - 1].x1
    ensures |flat| > 0 ==> flat[0].x0 == spans[0].x0 && flat[|flat| - 1].x1 == spans[|spans| - 1].x1
    ensures forall j :: 0 < j < |flat| ==> flat[j].x0 == flat[j - 1].x1
  {
    forall j | 0 < j < |flat| ensures flat[j].x0 == flat[j - 1].x1 {
      AdjacentSegmentsJoin(flat, tracks, spans, j);
    }
    if |flat| > 0 {
      var l := flat[|flat| - 1];
      assert SegmentOf(l, l.tileIdx, l.idxInTile, tracks[l.tileIdx], spans[l.tileIdx]);
      SubXEnds(spans[l.tileIdx], |tracks[l.tileIdx]|);
    }
  }

  /** A sub-span starts at the span's start and the last one ends at its end. */
  lemma SubXEnds(span: Span, k: nat)
    requires k > 0
    ensures SubX(span, 0, k) == span.x0 && SubX(span, k, k) == span.x1
  {
    assert (k as real / k as real) == 1.0;
  }

  lemma AdjacentSegmentsJoin(flat: seq<Segment>, tracks: seq<seq<string>>, spans: seq<Span>, j: nat)
    requires |spans| == |tracks|
    requires AllPlaced(flat, tracks, spans) && InOrder(flat, tracks)
    requires forall t :: 0 < t < |spans| ==> spans[t].x0 == spans[t - 1].x1
    requires 0 < j < |flat|
    ensures flat[j].x0 == flat[j - 1].x1
  {
    var p, q := flat[j - 1], flat[j];
    assert SegmentOf(p, p.tileIdx, p.idxInTile, tracks[p.tileIdx], spans[p.tileIdx]);
    assert SegmentOf(q, q.tileIdx, q.idxInTile, tracks[q.tileIdx], spans[q.tileIdx]);
    if q.tileIdx != p.tileIdx {
      SubXEnds(spans[p.tileIdx], |tracks[p.tileIdx]|);
      SubXEnds(spans[q.tileIdx], |tracks[q.tileIdx]|);
    }
  }

  // ---------------------------------------------------------------------
  // Square counts
  // ---------------------------------------------------------------------

  /** "yellow" steps are decoration and do not count as distance. */
  function Counted(kind: string): nat {
    if kind == "yellow" then 0 else 1
  }

  /** `flat.reduce(...)`: the number of counted steps. */
  function SquareCount(kinds: seq<string>): (r: nat)
    ensures r <= |kinds|
  {
    if kinds == [] then 0 else SquareCount(kinds[..|kinds| - 1]) + Counted(kinds[|kinds| - 1])
  }

  function FlatKinds(flat: seq<Segment>): (kinds: seq<string>)
    ensures |kinds| == |flat| && forall j :: 0 <= j < |flat| ==> kinds[j] == flat[j].kind
  {
    seq(|flat|, j requires 0 <= j < |flat| => flat[j].kind)
  }

  /** The `cum` array: `cum[i]` is the number of counted steps before step `i`. */
  method CumulativeCounts(kinds: seq<string>) returns (cum: seq<nat>)
    ensures |cum| == |kinds| + 1 && cum[0] == 0
    ensures forall i :: 0 <= i < |kinds| ==> cum[i + 1] == cum[i] + Counted(kinds[i])
    ensures forall i :: 0 <= i <= |kinds| ==> cum[i] == SquareCount(kinds[..i])
  {
    var a := new nat[|kinds| + 1](_ => 0);
    var i := 0;
    while i < |kinds|
      invariant 0 <= i <= |kinds|
      invariant forall j :: 0 <= j <= i ==> a[j] == SquareCount(kinds[..j])
    {
      SquareCountStep(kinds, i);
      a[i + 1] := a[i] + Counted(kinds[i]);
      i := i + 1;
    }
    cum := a[..];
    forall j | 0 <= j < |kinds| ensures cum[j + 1] == cum[j] + Counted(kinds[j]) {
      SquareCountStep(kinds, j);
    }
  }

  lemma SquareCountStep(kinds: seq<string>, i: nat)
    requires i < |kinds|
    ensures SquareCount(kinds[..i + 1]) == SquareCount(kinds[..i]) + Counted(kinds[i])
  {
    assert kinds[..i + 1][..i] == kinds[..i];
  }

  /** Counts never decrease along the profile, and grow by at most one per step. */
  lemma {:induction false} CumMonotone(kinds: seq<string>, cum: seq<nat>, i: nat, j: nat)
    requires |cum| == |kinds| + 1
    requires forall k :: 0 <= k < |kinds| ==> cum[k + 1] == cum[k] + Counted(kinds[k])
    requires i <= j <= |kinds|
    ensures cum[i] <= cum[j] <= cum[i] + (j - i)
  {
    if i < j {
      CumMonotone(kinds, cum, i, j - 1);
    }
  }

  // ---------------------------------------------------------------------
  // Start and finish
  // ---------------------------------------------------------------------

  predicate AnyCounted(kinds: seq<string>) {
    exists j :: 0 <= j < |kinds| && kinds[j] != "yellow"
  }

  /** `Array.prototype.findIndex`, with `None` for -1. */
  function FirstIndex<T>(s: seq<T>, p: T -> bool): (r: Option<nat>)
    ensures r.Some? ==> r.value < |s| && p(s[r.value])
    ensures r.Some? ==> forall j :: 0 <= j < r.value ==> !p(s[j])
    ensures r.None? ==> forall j :: 0 <= j < |s| ==> !p(s[j])
  {
    if s == [] then None
    else if p(s[0]) then Some(0)
    else match FirstIndex(s[1..], p)
      case None => None
      case Some(k) => Some(k + 1)
  }

  /** The start step: the first counted step, or 0. */
  function StartIndex(kinds: seq<string>): (s: nat)
    requires |kinds| > 0
    ensures s < |kinds|
    ensures AnyCounted(kinds) ==> kinds[s] != "yellow" && forall j :: 0 <= j < s ==> kinds[j] == "yellow"
    ensures !AnyCounted(kinds) ==> s == 0
  {
    FirstIndex(kinds, k => k != "yellow").GetOr(0)
  }

  /** The finish step: the backward search for the last counted step, or the
      last step. */
  method FinishIndex(kinds: seq<string>) returns (f: nat)
    requires |kinds| > 0
    ensures f < |kinds|
    ensures AnyCounted(kinds) ==> kinds[f] != "yellow" && forall j :: f < j < |kinds| ==> kinds[j] == "yellow"
    ensures !AnyCounted(kinds) ==> f == |kinds| - 1
  {
    f := |kinds| - 1;
    var i := |kinds| - 1;
    while i >= 0
      invariant -1 <= i < |kinds|
      invariant forall j :: i < j < |kinds| ==> kinds[j] == "yellow"
      invariant f == |kinds| - 1
    {
      if kinds[i] != "yellow" {
        f := i;
        return;
      }
      i := i - 1;
    }
  }

  lemma {:induction false} SquareCountYellow(kinds: seq<string>)
    requires forall j :: 0 <= j < |kinds| ==> kinds[j] == "yellow"
    ensures SquareCount(kinds) == 0
  {
    if kinds != [] {
      SquareCountYellow(kinds[..|kinds| - 1]);
    }
  }

  lemma {:induction false} SquareCountYellowTail(kinds: seq<string>, n: nat)
    requires n <= |kinds|
    requires forall j :: n <= j < |kinds| ==> kinds[j] == "yellow"
    ensures SquareCount(kinds) == SquareCount(kinds[..n])
  {
    if |kinds| > n {
      var init := kinds[..|kinds| - 1];
      assert init[..n] == kinds[..n];
      SquareCountYellowTail(init, n);
    } else {
      assert kinds[..n] == kinds;
    }
  }

  /** The start marker's count 0 is the count before the first counted step. */
  lemma StartCountZero(kinds: seq<string>, cum: seq<nat>)
    requires |kinds| > 0 && AnyCounted(kinds)
    requires |cum| == |kinds| + 1
    requires forall i :: 0 <= i <= |kinds| ==> cum[i] == SquareCount(kinds[..i])
    ensures cum[StartIndex(kinds)] == 0
  {
    var s := StartIndex(kinds);
    var pre := kinds[..s];
    assert forall j :: 0 <= j < |pre| ==> pre[j] == "yellow";
    SquareCountYellow(pre);
  }

  /** The finish marker's count is the count after the last counted step:
      the total. */
  lemma FinishCountTotal(kinds: seq<string>, cum: seq<nat>, f: nat)
    requires |cum| == |kinds| + 1
    requires forall i :: 0 <= i <= |kinds| ==> cum[i] == SquareCount(kinds[..i])
    requires f < |kinds| && forall j :: f < j < |kinds| ==> kinds[j] == "yellow"
    ensures cum[f + 1] == SquareCount(kinds)
  {
    SquareCountYellowTail(kinds, f + 1);
    assert cum[f + 1] == SquareCount(kinds[..f + 1]);
  }
}
