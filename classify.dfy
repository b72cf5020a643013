/** Tile classification and course totals (script.js `maxLengthForTileGoals`,
    `racingLengthForTile`, `computeMetrics`, `computeSquareTotals`). The
    source's loops are methods here, each proved against a specification
    function that the lemmas below reason about. */
module Classify {
  import opened Wrappers
  import opened Strings
  import opened Drawing
  import opened Tiles

  /** The canonical length a maximum goal number is bucketed to. */
  function Bucket(n: int): (r: nat)
    ensures r == 0 || r == 2 || r == 3 || r == 6
    ensures r == 0 || r <= n
    ensures 6 <= n ==> r == 6
    ensures 3 <= n ==> 3 <= r
    ensures 2 <= n ==> 2 <= r
  {
    if n >= 6 then 6 else if n >= 3 then 3 else if n >= 2 then 2 else 0
  }

  /** The number a goal key starts with, if any (`parseInt(k, 10)`). */
  function KeyNumber(k: string): Option<int> {
    ParseInt(k)
  }

  /** `m` is the running maximum the loop computes over `keys`: the largest
      number read from a key, or 0 when that is larger or none parses. */
  ghost predicate IsMaxNumber(keys: set<string>, m: int) {
    && m >= 0
    && (forall k :: k in keys && KeyNumber(k).Some? ==> KeyNumber(k).value <= m)
    && (m == 0 || exists k :: k in keys && KeyNumber(k) == Some(m))
  }

  ghost function MaxKeyNumber(keys: set<string>): (m: int)
    ensures IsMaxNumber(keys, m)
    decreases keys
  {
    if keys == {} then 0
    else
      var k :| k in keys;
      var rest := MaxKeyNumber(keys - {k});
      if KeyNumber(k).Some? && KeyNumber(k).value > rest then KeyNumber(k).value else rest
  }

  lemma MaxNumberStep(seen: set<string>, k: string, m: int)
    requires IsMaxNumber(seen, m)
    ensures IsMaxNumber(seen + {k}, if KeyNumber(k).Some? && KeyNumber(k).value > m then KeyNumber(k).value else m)
  {
    if m != 0 {
      var j :| j in seen && KeyNumber(j) == Some(m);
      assert j in seen + {k};
    }
  }

  lemma MaxNumberUnique(keys: set<string>, m: int, n: int)
    requires IsMaxNumber(keys, m) && IsMaxNumber(keys, n)
    ensures m == n
  {
    if m != 0 {
      var k :| k in keys && KeyNumber(k) == Some(m);
    }
    if n != 0 {
      var k :| k in keys && KeyNumber(k) == Some(n);
    }
  }

  /** The length class of a tile: 6, 3, 2 or 0 after its largest goal key number. */
  ghost function LengthClass(goals: map<string, GoalPair>): nat {
    Bucket(MaxKeyNumber(goals.Keys))
  }

  /** `maxLengthForTileGoals`. */
  method MaxLengthForTileGoals(goals: map<string, GoalPair>) returns (r: nat)
    ensures r == LengthClass(goals)
    ensures r == 0 || r == 2 || r == 3 || r == 6
  {
    var keys := goals.Keys;
    var maxNum := 0;
    while keys != {}
      invariant keys <= goals.Keys
      invariant IsMaxNumber(goals.Keys - keys, maxNum)
      decreases keys
    {
      var k :| k in keys;
      MaxNumberStep(goals.Keys - keys, k, maxNum);
      assert goals.Keys - (keys - {k}) == (goals.Keys - keys) + {k};
      var n := KeyNumber(k);
      if n.Some? && n.value > maxNum {
        maxNum := n.value;
      }
      keys := keys - {k};
    }
    assert goals.Keys - keys == goals.Keys;
    MaxNumberUnique(goals.Keys, maxNum, MaxKeyNumber(goals.Keys));
    r := Bucket(maxNum);
  }

  /** Tile ids whose racing length is fixed at one or two squares. */
  const RacingLenOne: set<string> := {"a", "1-upp", "u", "v"}
  const RacingLenTwo: set<string> := {"a-upp", "1", "u-upp", "v-upp"}

  ghost function RacingLength(t: PlacedTile): nat {
    if t.meta.id in RacingLenOne then 1
    else if t.meta.id in RacingLenTwo then 2
    else LengthClass(t.goals)
  }

  /** `racingLengthForTile`. */
  method RacingLengthForTile(t: PlacedTile) returns (r: nat)
    ensures r == RacingLength(t)
    ensures t.meta.id !in RacingLenOne && t.meta.id !in RacingLenTwo ==> r == LengthClass(t.goals)
  {
    if t.meta.id in RacingLenOne {
      r := 1;
    } else if t.meta.id in RacingLenTwo {
      r := 2;
    } else {
      r := MaxLengthForTileGoals(t.goals);
    }
  }

  /** The set-up badge of a tile: its label (falling back to its id, then "?")
      and whether it is drawn dark. */
  datatype Badge = Badge(labelText: string, dark: bool)

  function SetupBadge(t: PlacedTile): (b: Badge)
    ensures b.labelText != []
    ensures t.meta.labelText != [] ==> b.labelText == t.meta.labelText
    ensures t.meta.labelText == [] && t.meta.id != [] ==> b.labelText == t.meta.id
    ensures t.meta.labelText == [] && t.meta.id == [] ==> b.labelText == "?"
    ensures b.dark <==> EndsWith(t.meta.id, "-upp") || t.meta.theme == "dark"
  {
    var text := if t.meta.labelText != "" then t.meta.labelText else if t.meta.id != "" then t.meta.id else "?";
    Badge(text, EndsWith(t.meta.id, "-upp") || t.meta.theme == "dark")
  }

  datatype Metrics = Metrics(total: nat, long: nat, medium: nat, turns: nat, track: nat, racing: nat,
                             setup: seq<Badge>)

  /** How many tiles of `ps` have length class `c`. */
  ghost function CountClass(ps: seq<PlacedTile>, c: nat): nat {
    if ps == [] then 0
    else CountClass(ps[..|ps| - 1], c) + (if LengthClass(ps[|ps| - 1].goals) == c then 1 else 0)
  }

  /** The sum of the length classes of `ps`. */
  ghost function TrackLength(ps: seq<PlacedTile>): nat {
    if ps == [] then 0 else TrackLength(ps[..|ps| - 1]) + LengthClass(ps[|ps| - 1].goals)
  }

  /** The sum of the racing lengths of `ps`. */
  ghost function RacingTotal(ps: seq<PlacedTile>): nat {
    if ps == [] then 0 else RacingTotal(ps[..|ps| - 1]) + RacingLength(ps[|ps| - 1])
  }

  /** The five running totals of `computeMetrics` after the tiles `ps`. */
  ghost predicate Tallied(ps: seq<PlacedTile>, long: int, medium: int, turns: int, track: int, racing: int) {
    && long == CountClass(ps, 6) && medium == CountClass(ps, 3) && turns == CountClass(ps, 2)
    && track == TrackLength(ps) && racing == RacingTotal(ps)
  }

  /** How each tally grows by one more tile: one more in the tile's own class,
      its class added to the track length, its racing length to the racing total. */
  lemma TallyStep(placed: seq<PlacedTile>, i: nat, long: int, medium: int, turns: int, track: int, racing: int)
    requires i < |placed| && Tallied(placed[..i], long, medium, turns, track, racing)
    ensures var t := placed[i]; var len := LengthClass(t.goals);
      Tallied(placed[..i + 1],
              long + (if len == 6 then 1 else 0), medium + (if len == 3 then 1 else 0),
              turns + (if len == 2 then 1 else 0), track + len, racing + RacingLength(t))
  {
    assert placed[..i + 1][..i] == placed[..i];
  }

  /** `computeMetrics`. */
  method ComputeMetrics(placed: seq<PlacedTile>) returns (m: Metrics)
    ensures m.total == |placed|
    ensures m.long == CountClass(placed, 6) && m.medium == CountClass(placed, 3) && m.turns == CountClass(placed, 2)
    ensures m.track == TrackLength(placed) && m.racing == RacingTotal(placed)
    ensures |m.setup| == |placed| && forall i :: 0 <= i < |placed| ==> m.setup[i] == SetupBadge(placed[i])
  {
    var long, medium, turns, track, racing := 0, 0, 0, 0, 0;
    var i := 0;
    while i < |placed|
      invariant 0 <= i <= |placed|
      invariant Tallied(placed[..i], long, medium, turns, track, racing)
    {
      var t := placed[i];
      TallyStep(placed, i, long, medium, turns, track, racing);
      var len := MaxLengthForTileGoals(t.goals);
      if len == 6 {
        long := long + 1;
      } else if len == 3 {
        medium := medium + 1;
      } else if len == 2 {
        turns := turns + 1;
      }
      track := track + len;
      var rl := RacingLengthForTile(t);
      racing := racing + rl;
      i := i + 1;
    }
    assert placed[..i] == placed;
    m := Metrics(|placed|, long, medium, turns, track, racing, seq(|placed|, j requires 0 <= j < |placed| => SetupBadge(placed[j])));
  }

  /** The track length is made of the long (6), medium (3) and turn (2) tiles
      alone, and those are at most the number of tiles. */
  lemma {:induction false} TrackLengthByClass(ps: seq<PlacedTile>)
    ensures TrackLength(ps) == 6 * CountClass(ps, 6) + 3 * CountClass(ps, 3) + 2 * CountClass(ps, 2)
    ensures CountClass(ps, 6) + CountClass(ps, 3) + CountClass(ps, 2) <= |ps|
  {
    if ps != [] {
      TrackLengthByClass(ps[..|ps| - 1]);
    }
  }

  /** On a course without the fixed-length tiles, racing length equals track length. */
  lemma {:induction false} RacingTotalWithoutFixedTiles(ps: seq<PlacedTile>)
    requires forall i :: 0 <= i < |ps| ==> ps[i].meta.id !in RacingLenOne && ps[i].meta.id !in RacingLenTwo
    ensures RacingTotal(ps) == TrackLength(ps)
  {
    if ps != [] {
      RacingTotalWithoutFixedTiles(ps[..|ps| - 1]);
    }
  }

  function AddStats(s: Stats, t: Stats): Stats {
    Stats(s.flat + t.flat, s.asc + t.asc, s.desc + t.desc, s.supply + t.supply, s.cobb + t.cobb, s.slip + t.slip)
  }

  const NoSquares: Stats := Stats(0, 0, 0, 0, 0, 0)

  /** The field-wise sum of the tiles' stats. */
  function SumStats(ps: seq<PlacedTile>): Stats {
    if ps == [] then NoSquares else AddStats(SumStats(ps[..|ps| - 1]), ps[|ps| - 1].meta.stats)
  }

  /** `computeSquareTotals`. */
  method ComputeSquareTotals(placed: seq<PlacedTile>) returns (out: Stats)
    ensures out == SumStats(placed)
  {
    out := NoSquares;
    var i := 0;
    while i < |placed|
      invariant 0 <= i <= |placed|
      invariant out == SumStats(placed[..i])
    {
      assert placed[..i + 1][..i] == placed[..i];
      var s := placed[i].meta.stats;
      out := Stats(out.flat + s.flat, out.asc + s.asc, out.desc + s.desc,
                   out.supply + s.supply, out.cobb + s.cobb, out.slip + s.slip);
      i := i + 1;
    }
    assert placed[..i] == placed;
  }

  /** Totals are additive over concatenated courses (so undoing a tile
      subtracts exactly its stats). */
  lemma {:induction false} SumStatsAppend(a: seq<PlacedTile>, b: seq<PlacedTile>)
    ensures SumStats(a + b) == AddStats(SumStats(a), SumStats(b))
  {
    if b != [] {
      var n := |b| - 1;
      assert (a + b)[..|a + b| - 1] == a + b[..n];
      SumStatsAppend(a, b[..n]);
    } else {
      assert a + b == a;
    }
  }
}
