/** The in-memory course: the `placed` tiles, the `nextId` instance counter,
    the per-tile `tileCounts` and the `checkpoints` (script.js lines 41-49),
    with the operations that change them: placing a tile, undo, reset, and
    adding or removing the last checkpoint. Each operation is specified by a
    function on `CourseState`; the lemmas below are about those functions. */
module Builder {
  import opened Wrappers
  import opened Strings
  import opened Geometry
  import opened Drawing
  import opened Tiles

  datatype CourseState = CourseState(placed: seq<PlacedTile>, nextId: nat,
                                     tileCounts: map<string, nat>, checkpoints: seq<Checkpoint>)

  /** The id prefix of the `n`-th instance: `t${n}-`. */
  function Prefix(n: nat): string {
    "t" + NatToString(n) + "-"
  }

  /** Distinct instances get distinct prefixes. */
  lemma PrefixInjective(m: nat, n: nat)
    requires Prefix(m) == Prefix(n)
    ensures m == n
  {
    var pm, pn := Prefix(m), Prefix(n);
    assert |pm| == |pn|;
    assert NatToString(m) == pm[1..|pm| - 1];
    assert NatToString(n) == pn[1..|pn| - 1];
    NatToStringInjective(m, n);
  }

  /** The pose `placeTile` gives a tile with socket `s` appended to `placed`:
      the first tile is unrotated with its entry on `Origin`; any later one
      continues the previous tile's exit point and exit tangent. */
  function PoseAfter(trig: Trig, placed: seq<PlacedTile>, s: Socket): (pose: Pose)
    ensures placed == [] ==> pose.rot == 0.0 && LocalToGlobal(trig, pose, s.entry) == Origin
    ensures placed != [] ==>
      var prev := placed[|placed| - 1];
      && LocalToGlobal(trig, pose, s.entry) == LocalToGlobal(trig, prev.pose, prev.socket.exit)
      && pose.rot + s.entryAngle == prev.pose.rot + prev.socket.exitAngle
  {
    if placed == [] then FirstPose(trig, s)
    else
      var prev := placed[|placed| - 1];
      NextPose(trig, prev.pose, prev.socket, s)
  }

  /** `tileCounts[b] = (tileCounts[b] || 0) + 1`. */
  function BumpCount(counts: map<string, nat>, b: string): (r: map<string, nat>)
    ensures b in r && r[b] == (if b in counts then counts[b] else 0) + 1
    ensures forall k :: k != b ==> (k in r <==> k in counts) && (k in counts ==> r[k] == counts[k])
  {
    counts[b := (if b in counts then counts[b] else 0) + 1]
  }

  /** `if (tileCounts[b] > 0) tileCounts[b]--`: a count never drops below zero
      and a missing count stays missing. */
  function DropCount(counts: map<string, nat>, b: string): (r: map<string, nat>)
    ensures r.Keys == counts.Keys
    ensures b in counts && counts[b] > 0 ==> r[b] == counts[b] - 1
    ensures forall k :: k in counts && (k != b || counts[k] == 0) ==> r[k] == counts[k]
  {
    if b in counts && counts[b] > 0 then counts[b := counts[b] - 1] else counts
  }

  /** `placeTile(svgText, meta)`, where `drawing` is the parsed drawing (None
      when parsing fails). The count and, once the drawing parsed, the
      instance counter are bumped BEFORE the socket check that may reject
      the tile. */
  function AfterPlace(trig: Trig, st: CourseState, drawing: Option<seq<Element>>, meta: TileMeta): CourseState {
    var counts := BumpCount(st.tileCounts, BaseId(meta.id));
    if drawing.None? then st.(tileCounts := counts)
    else
      var prefix := Prefix(st.nextId);
      var els := Namespaced(drawing.value, prefix);
      match ReadSocket(trig, els, prefix)
      case None => st.(tileCounts := counts, nextId := st.nextId + 1)
      case Some(socket) =>
        var tile := PlacedTile(prefix, PoseAfter(trig, st.placed, socket), socket, CollectGoals(els, prefix), meta);
        st.(tileCounts := counts, nextId := st.nextId + 1, placed := st.placed + [tile])
  }

  /** `undo`: pops the last tile and decrements its count when positive.
      Checkpoints bound to the popped tile are kept. */
  function AfterUndo(st: CourseState): CourseState {
    if st.placed == [] then st
    else
      var last := st.placed[|st.placed| - 1];
      st.(placed := st.placed[..|st.placed| - 1], tileCounts := DropCount(st.tileCounts, BaseId(last.meta.id)))
  }

  /** The reset handler: no tiles, no checkpoints, every known count zero; the
      instance counter keeps counting. */
  function AfterReset(st: CourseState): CourseState {
    st.(placed := [], checkpoints := [], tileCounts := map k | k in st.tileCounts :: 0)
  }

  /** `(label || "A").toUpperCase().slice(0, 2)`. */
  function CheckpointLabel(text: string): (r: string)
    ensures text == [] ==> r == "A"
    ensures text != [] ==> |r| == if |text| < 2 then |text| else 2
    ensures forall i :: 0 <= i < |r| && text != [] ==> r[i] == UpperAscii(text[i])
  {
    var u := ToUpperAscii(if text == "" then "A" else text);
    if |u| <= 2 then u else u[..2]
  }

  /** `addCheckpoint`: a no-op unless tile `tileIdx` exists and has the goal
      pair `key`. */
  function AfterAddCheckpoint(st: CourseState, tileIdx: int, key: string, color: string, text: string): CourseState {
    if 0 <= tileIdx < |st.placed| && key in st.placed[tileIdx].goals then
      var pair := st.placed[tileIdx].goals[key];
      st.(checkpoints := st.checkpoints + [Checkpoint(tileIdx, key, pair.a, pair.b, color, CheckpointLabel(text))])
    else st
  }

  /** `removeLastCheckpoint`: pops the last checkpoint, if any. */
  function AfterRemoveLastCheckpoint(st: CourseState): CourseState {
    if st.checkpoints == [] then st else st.(checkpoints := st.checkpoints[..|st.checkpoints| - 1])
  }

  /** `updateCheckpointMarkers`: the world midpoint of a checkpoint's chord on
      its tile, or None (skipped) when the tile index no longer exists. */
  function MarkerPosition(trig: Trig, placed: seq<PlacedTile>, cp: Checkpoint): Option<Point> {
    if 0 <= cp.tileIdx < |placed| then
      var pose := placed[cp.tileIdx].pose;
      Some(Midpoint(LocalToGlobal(trig, pose, cp.aLocal), LocalToGlobal(trig, pose, cp.bLocal)))
    else None
  }

  // ---------------------------------------------------------------------
  // Invariants
  // ---------------------------------------------------------------------

  /** Every tile sits where the append rule put it, given the tiles before it. */
  ghost predicate ChainLaidOut(trig: Trig, placed: seq<PlacedTile>) {
    forall i :: 0 <= i < |placed| ==> placed[i].pose == PoseAfter(trig, placed[..i], placed[i].socket)
  }

  /** Prefixes come from the counter: each was issued below `nextId`, and no
      two tiles share one. */
  ghost predicate Issued(prefix: string, nextId: nat) {
    exists n: nat :: n < nextId && prefix == Prefix(n)
  }

  ghost predicate PrefixesIssued(st: CourseState) {
    && (forall i :: 0 <= i < |st.placed| ==> Issued(st.placed[i].prefix, st.nextId))
    && (forall i, j :: 0 <= i < j < |st.placed| ==> st.placed[i].prefix != st.placed[j].prefix)
  }

  ghost predicate CourseValid(trig: Trig, st: CourseState) {
    st.nextId >= 1 && ChainLaidOut(trig, st.placed) && PrefixesIssued(st)
  }

  /** Chain continuity: adjacent tiles meet exactly, with continuous tangent,
      and the first tile's entry sits unrotated on `Origin`. */
  lemma ChainContinuity(trig: Trig, placed: seq<PlacedTile>, i: nat)
    requires ChainLaidOut(trig, placed)
    requires i < |placed|
    ensures i == 0 ==> placed[0].pose.rot == 0.0 && LocalToGlobal(trig, placed[0].pose, placed[0].socket.entry) == Origin
    ensures i > 0 ==>
      && LocalToGlobal(trig, placed[i].pose, placed[i].socket.entry)
         == LocalToGlobal(trig, placed[i - 1].pose, placed[i - 1].socket.exit)
      && placed[i].pose.rot + placed[i].socket.entryAngle == placed[i - 1].pose.rot + placed[i - 1].socket.exitAngle
  {
    assert placed[i].pose == PoseAfter(trig, placed[..i], placed[i].socket);
    if i > 0 {
      assert placed[..i][i - 1] == placed[i - 1];
    }
  }

  /** Replay determinism: two laid-out chains made of the same sockets have the
      same poses, tile by tile. */
  lemma {:induction false} ChainDeterministic(trig: Trig, p: seq<PlacedTile>, q: seq<PlacedTile>, i: nat)
    requires ChainLaidOut(trig, p) && ChainLaidOut(trig, q)
    requires |p| == |q| && forall k :: 0 <= k < |p| ==> p[k].socket == q[k].socket
    requires i < |p|
    ensures p[i].pose == q[i].pose
  {
    assert p[i].pose == PoseAfter(trig, p[..i], p[i].socket);
    assert q[i].pose == PoseAfter(trig, q[..i], q[i].socket);
    if i > 0 {
      ChainDeterministic(trig, p, q, i - 1);
    }
  }

  /** Appending a tile at the pose the append rule gives keeps the chain laid out. */
  lemma AppendKeepsLaidOut(trig: Trig, p: seq<PlacedTile>, tile: PlacedTile)
    requires ChainLaidOut(trig, p)
    requires tile.pose == PoseAfter(trig, p, tile.socket)
    ensures ChainLaidOut(trig, p + [tile])
  {
    var q := p + [tile];
    forall i | 0 <= i < |q| ensures q[i].pose == PoseAfter(trig, q[..i], q[i].socket) {
      if i < |p| {
        assert q[..i] == p[..i];
      } else {
        assert q[..i] == p;
      }
    }
  }

  /** A tile carrying the counter's current prefix keeps prefixes issued and distinct. */
  lemma AppendKeepsPrefixesIssued(st: CourseState, tile: PlacedTile)
    requires PrefixesIssued(st)
    requires tile.prefix == Prefix(st.nextId)
    ensures PrefixesIssued(st.(placed := st.placed + [tile], nextId := st.nextId + 1))
  {
    var st' := st.(placed := st.placed + [tile], nextId := st.nextId + 1);
    forall i | 0 <= i < |st.placed| ensures st.placed[i].prefix != tile.prefix {
      assert Issued(st.placed[i].prefix, st.nextId);
      var m: nat :| m < st.nextId && st.placed[i].prefix == Prefix(m);
      if Prefix(m) == Prefix(st.nextId) {
        PrefixInjective(m, st.nextId);
      }
    }
    forall i | 0 <= i < |st'.placed| ensures Issued(st'.placed[i].prefix, st'.nextId) {
      if i < |st.placed| {
        assert Issued(st.placed[i].prefix, st.nextId);
        var m: nat :| m < st.nextId && st.placed[i].prefix == Prefix(m);
        assert st'.placed[i] == st.placed[i];
      } else {
        assert st'.placed[i].prefix == Prefix(st.nextId);
      }
    }
  }

  /** Placing a tile keeps the course valid. */
  lemma PlaceKeepsValid(trig: Trig, st: CourseState, drawing: Option<seq<Element>>, meta: TileMeta)
    requires CourseValid(trig, st)
    ensures CourseValid(trig, AfterPlace(trig, st, drawing, meta))
  {
    var st' := AfterPlace(trig, st, drawing, meta);
    if |st'.placed| != |st.placed| {
      var tile := st'.placed[|st.placed|];
      assert st'.placed == st.placed + [tile];
      AppendKeepsLaidOut(trig, st.placed, tile);
      AppendKeepsPrefixesIssued(st, tile);
      assert st' == st.(placed := st.placed + [tile], nextId := st.nextId + 1, tileCounts := st'.tileCounts);
    } else {
      assert st'.placed == st.placed;
    }
  }

  /** Undo keeps the course valid. */
  lemma {:induction false} ChainPrefixLaidOut(trig: Trig, placed: seq<PlacedTile>, n: nat)
    requires ChainLaidOut(trig, placed) && n <= |placed|
    ensures ChainLaidOut(trig, placed[..n])
  {
    var p := placed[..n];
    forall i | 0 <= i < |p| ensures p[i].pose == PoseAfter(trig, p[..i], p[i].socket) {
      assert p[..i] == placed[..i];
      assert p[i] == placed[i];
    }
  }

  lemma PrefixesIssuedPrefix(st: CourseState, st': CourseState, n: nat)
    requires PrefixesIssued(st) && n <= |st.placed|
    requires st'.placed == st.placed[..n] && st'.nextId == st.nextId
    ensures PrefixesIssued(st')
  {
    forall i | 0 <= i < |st'.placed| ensures Issued(st'.placed[i].prefix, st'.nextId) {
      assert st'.placed[i] == st.placed[i];
    }
    forall i, j | 0 <= i < j < |st'.placed| ensures st'.placed[i].prefix != st'.placed[j].prefix {
      assert st'.placed[i] == st.placed[i] && st'.placed[j] == st.placed[j];
    }
  }

  lemma UndoKeepsValid(trig: Trig, st: CourseState)
    requires CourseValid(trig, st)
    ensures CourseValid(trig, AfterUndo(st))
  {
    if st.placed != [] {
      var n := |st.placed| - 1;
      ChainPrefixLaidOut(trig, st.placed, n);
      PrefixesIssuedPrefix(st, AfterUndo(st), n);
    }
  }

  /** Reset keeps the course valid, and the next tile gets a fresh prefix. */
  lemma ResetKeepsValid(trig: Trig, st: CourseState)
    requires CourseValid(trig, st)
    ensures CourseValid(trig, AfterReset(st))
    ensures AfterReset(st).nextId == st.nextId
  {
  }

  /** Whether `placeTile` appends is decided by the bare drawing alone: the
      tile is rejected exactly when the drawing did not parse or lacks one of
      the four socket anchors, and then `placed` is unchanged although the
      tile's count has moved on. `nextId` moves on only for a drawing that
      parsed, socket anchors or not. */
  lemma PlaceOutcome(trig: Trig, st: CourseState, drawing: Option<seq<Element>>, meta: TileMeta)
    ensures var st' := AfterPlace(trig, st, drawing, meta);
      var b := BaseId(meta.id);
      && st'.checkpoints == st.checkpoints
      && b in st'.tileCounts && st'.tileCounts[b] == (if b in st.tileCounts then st.tileCounts[b] else 0) + 1
      && st'.nextId == (if drawing.Some? then st.nextId + 1 else st.nextId)
      && (if drawing.Some? && ReadSocket(trig, drawing.value, "").Some? then
            |st'.placed| == |st.placed| + 1 && st'.placed[..|st.placed|] == st.placed
            && st'.placed[|st.placed|].socket == ReadSocket(trig, drawing.value, "").value
            && st'.placed[|st.placed|].goals == CollectGoals(drawing.value, "")
            && st'.placed[|st.placed|].prefix == Prefix(st.nextId)
          else st'.placed == st.placed)
  {
    if drawing.Some? {
      var d := drawing.value;
      var prefix := Prefix(st.nextId);
      AfterPlaceParsed(trig, st, d, meta);
      ReadSocketNamespaced(trig, d, prefix);
      CollectGoalsNamespaced(d, prefix);
      if ReadSocket(trig, d, "").Some? {
        var st' := AfterPlace(trig, st, drawing, meta);
        assert st'.placed[..|st.placed|] == st.placed;
      }
    }
  }

  /** Undo right after a successful placement restores the tiles, and the
      count of that tile when it was known before. */
  lemma UndoAfterPlace(trig: Trig, st: CourseState, drawing: Option<seq<Element>>, meta: TileMeta)
    requires |AfterPlace(trig, st, drawing, meta).placed| > |st.placed|
    ensures AfterUndo(AfterPlace(trig, st, drawing, meta)).placed == st.placed
    ensures AfterUndo(AfterPlace(trig, st, drawing, meta)).checkpoints == st.checkpoints
    ensures BaseId(meta.id) in st.tileCounts ==> AfterUndo(AfterPlace(trig, st, drawing, meta)).tileCounts == st.tileCounts
  {
    var prefix := Prefix(st.nextId);
    var els := Namespaced(drawing.value, prefix);
    var socket := ReadSocket(trig, els, prefix).value;
    var tile := PlacedTile(prefix, PoseAfter(trig, st.placed, socket), socket, CollectGoals(els, prefix), meta);
    var b := BaseId(meta.id);
    var st' := st.(tileCounts := BumpCount(st.tileCounts, b), nextId := st.nextId + 1, placed := st.placed + [tile]);
    assert AfterPlace(trig, st, drawing, meta) == st';
    assert st'.placed[..|st'.placed| - 1] == st.placed;
    if b in st.tileCounts {
      DropAfterBump(st.tileCounts, b);
    }
  }

  /** The two outcomes of placing a parsed drawing, spelled out for the
      imperative `Course.PlaceTile`. */
  lemma AfterPlaceParsed(trig: Trig, st: CourseState, d: seq<Element>, meta: TileMeta)
    ensures var prefix := Prefix(st.nextId);
      var els := Namespaced(d, prefix);
      var st' := AfterPlace(trig, st, Some(d), meta);
      && st'.tileCounts == BumpCount(st.tileCounts, BaseId(meta.id))
      && st'.nextId == st.nextId + 1
      && st'.checkpoints == st.checkpoints
      && (if ReadSocket(trig, els, prefix).None? then st'.placed == st.placed
          else
            var socket := ReadSocket(trig, els, prefix).value;
            st'.placed == st.placed + [PlacedTile(prefix, PoseAfter(trig, st.placed, socket), socket, CollectGoals(els, prefix), meta)])
  {
  }

  /** `AfterPlace` as the whole state `Course.PlaceTile` assigns, given the
      namespaced elements and the socket it reads from them, and that state is
      valid when the old one was. */
  lemma PlaceStates(trig: Trig, st: CourseState, drawing: Option<seq<Element>>, meta: TileMeta,
                    els: seq<Element>, socket: Option<Socket>)
    requires CourseValid(trig, st)
    requires drawing.Some? ==>
      els == Namespaced(drawing.value, Prefix(st.nextId)) && socket == ReadSocket(trig, els, Prefix(st.nextId))
    ensures var counts := BumpCount(st.tileCounts, BaseId(meta.id));
      var prefix := Prefix(st.nextId);
      var st' := AfterPlace(trig, st, drawing, meta);
      && CourseValid(trig, st')
      && st' == if drawing.None? then CourseState(st.placed, st.nextId, counts, st.checkpoints)
                else if socket.None? then CourseState(st.placed, st.nextId + 1, counts, st.checkpoints)
                else CourseState(st.placed + [PlacedTile(prefix, PoseAfter(trig, st.placed, socket.value), socket.value,
                                                         CollectGoals(els, prefix), meta)],
                                 st.nextId + 1, counts, st.checkpoints)
  {
    PlaceKeepsValid(trig, st, drawing, meta);
  }

  /** Dropping a count just bumped restores a known count. */
  lemma DropAfterBump(counts: map<string, nat>, b: string)
    requires b in counts
    ensures DropCount(BumpCount(counts, b), b) == counts
  {
    var r := DropCount(BumpCount(counts, b), b);
    assert r.Keys == counts.Keys;
    assert forall k :: k in r ==> r[k] == counts[k];
  }

  /** Undo removes exactly the last tile and moves no earlier tile; the
      checkpoints stay. A checkpoint bound to the removed tile gets no new
      marker position (its marker is skipped, not removed); every other
      marker position is as before. */
  lemma UndoKeepsEarlierTiles(trig: Trig, st: CourseState)
    requires st.placed != []
    ensures |AfterUndo(st).placed| == |st.placed| - 1
    ensures forall i :: 0 <= i < |st.placed| - 1 ==> AfterUndo(st).placed[i] == st.placed[i]
    ensures AfterUndo(st).checkpoints == st.checkpoints && AfterUndo(st).nextId == st.nextId
    ensures forall cp :: cp in st.checkpoints ==>
      MarkerPosition(trig, AfterUndo(st).placed, cp)
        == (if cp.tileIdx == |st.placed| - 1 then None else MarkerPosition(trig, st.placed, cp))
  {
  }

  /** An added checkpoint is the named goal pair of the tile, and its marker is
      that pair's world midpoint on the tile as currently placed. */
  lemma AddCheckpointSpec(trig: Trig, st: CourseState, tileIdx: int, key: string, color: string, text: string)
    ensures var st' := AfterAddCheckpoint(st, tileIdx, key, color, text);
      && st'.placed == st.placed && st'.tileCounts == st.tileCounts && st'.nextId == st.nextId
      && (if 0 <= tileIdx < |st.placed| && key in st.placed[tileIdx].goals then
            var pair := st.placed[tileIdx].goals[key];
            var cp := st'.checkpoints[|st.checkpoints|];
            && st'.checkpoints == st.checkpoints + [cp]
            && cp.aLocal == pair.a && cp.bLocal == pair.b
            && MarkerPosition(trig, st.placed, cp)
               == Some(Midpoint(LocalToGlobal(trig, st.placed[tileIdx].pose, pair.a),
                                LocalToGlobal(trig, st.placed[tileIdx].pose, pair.b)))
          else st' == st)
  {
  }

  /** Removing the last checkpoint undoes adding one. */
  lemma RemoveAfterAddCheckpoint(st: CourseState, tileIdx: int, key: string, color: string, text: string)
    requires 0 <= tileIdx < |st.placed| && key in st.placed[tileIdx].goals
    ensures AfterRemoveLastCheckpoint(AfterAddCheckpoint(st, tileIdx, key, color, text)) == st
  {
    var st' := AfterAddCheckpoint(st, tileIdx, key, color, text);
    assert st'.checkpoints[..|st'.checkpoints| - 1] == st.checkpoints;
  }

  // ---------------------------------------------------------------------
  // The course object
  // ---------------------------------------------------------------------

  /** The fresh drawing node of `placeTile`, with `namespaceIds` applied to
      it in place. */
  method NamespacedCopy(d: seq<Element>, prefix: string) returns (els: seq<Element>)
    ensures els == Namespaced(d, prefix)
  {
    var svg := new Element[|d|](i requires 0 <= i < |d| => d[i]);
    assert svg[..] == d;
    NamespaceIds(svg, prefix);
    els := svg[..];
  }

  class Course {
    const trig: Trig
    var placed: seq<PlacedTile>
    var nextId: nat
    var tileCounts: map<string, nat>
    var checkpoints: seq<Checkpoint>

    function State(): CourseState
      reads this
    {
      CourseState(placed, nextId, tileCounts, checkpoints)
    }

    ghost predicate Valid()
      reads this
    {
      CourseValid(trig, State())
    }

    constructor (trig: Trig)
      ensures Valid()
      ensures this.trig == trig && State() == CourseState([], 1, map[], [])
    {
      this.trig := trig;
      placed := [];
      nextId := 1;
      tileCounts := map[];
      checkpoints := [];
    }

    /** `placeTile`: `drawing` is the parsed drawing, None when parsing fails. */
    method PlaceTile(drawing: Option<seq<Element>>, meta: TileMeta)
      requires Valid()
      modifies this
      ensures State() == AfterPlace(trig, old(State()), drawing, meta)
      ensures Valid()
    {
      ghost var st := State();
      var baseId := BaseId(meta.id);
      tileCounts := BumpCount(tileCounts, baseId);
      if drawing.None? {
        PlaceStates(trig, st, drawing, meta, [], None);
        return;
      }
      var prefix := Prefix(nextId);
      nextId := nextId + 1;
      var els := NamespacedCopy(drawing.value, prefix);
      var socket := ReadSocket(trig, els, prefix);
      PlaceStates(trig, st, drawing, meta, els, socket);
      if socket.None? {
        return;
      }
      var goals := CollectGoals(els, prefix);
      var pose := PoseAfter(trig, placed, socket.value);
      placed := placed + [PlacedTile(prefix, pose, socket.value, goals, meta)];
    }

    /** `undo`. */
    method Undo()
      requires Valid()
      modifies this
      ensures Valid()
      ensures State() == AfterUndo(old(State()))
    {
      UndoKeepsValid(trig, State());
      if placed == [] {
        return;
      }
      var last := placed[|placed| - 1];
      placed := placed[..|placed| - 1];
      var baseId := BaseId(last.meta.id);
      if baseId in tileCounts && tileCounts[baseId] > 0 {
        tileCounts := tileCounts[baseId := tileCounts[baseId] - 1];
      }
    }

    /** The reset handler (after the user confirms). */
    method Reset()
      requires Valid()
      modifies this
      ensures Valid()
      ensures State() == AfterReset(old(State()))
    {
      ResetKeepsValid(trig, State());
      placed := [];
      checkpoints := [];
      tileCounts := map k | k in tileCounts :: 0;
    }

    /** `addCheckpoint`. */
    method AddCheckpoint(tileIdx: int, key: string, color: string, text: string)
      requires Valid()
      modifies this
      ensures Valid()
      ensures State() == AfterAddCheckpoint(old(State()), tileIdx, key, color, text)
    {
      if !(0 <= tileIdx < |placed|) || key !in placed[tileIdx].goals {
        return;
      }
      var pair := placed[tileIdx].goals[key];
      checkpoints := checkpoints + [Checkpoint(tileIdx, key, pair.a, pair.b, color, CheckpointLabel(text))];
    }

    /** `removeLastCheckpoint`. */
    method RemoveLastCheckpoint()
      requires Valid()
      modifies this
      ensures Valid()
      ensures State() == AfterRemoveLastCheckpoint(old(State()))
    {
      if checkpoints == [] {
        return;
      }
      checkpoints := checkpoints[..|checkpoints| - 1];
    }
  }
}
