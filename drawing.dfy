/** Anchor extraction from a tile drawing (script.js `getXY`, `readSocket`,
    `collectGoals`, `namespaceIds`). A drawing is the sequence of the SVG
    root's descendant elements in document order; each element has an
    optional id, its numeric coordinate attributes and its other attributes. */
module Drawing {
  import opened Wrappers
  import opened Strings
  import opened Geometry

  datatype Element = Element(
    id: Option<string>,
    cx: Option<real>, cy: Option<real>,
    x: Option<real>, y: Option<real>,
    x1: Option<real>, y1: Option<real>,
    attrs: map<string, string>)

  /** A checkpoint-attachable chord of a tile: the `a` and `b` goal anchors. */
  datatype GoalPair = GoalPair(a: Point, b: Point)

  /** A goal key while anchors are being collected; either end may be missing. */
  datatype PartialPair = PartialPair(a: Option<Point>, b: Option<Point>)

  /** `+el.getAttribute(name)`: an absent attribute reads as null, i.e. 0. */
  function NumOr0(v: Option<real>): real {
    v.GetOr(0.0)
  }

  /** The anchor position of an element: `cx`/`cy` first, then `x`/`y`, then
      `x1`/`y1`, otherwise the origin. */
  function GetXY(el: Element): (p: Point)
    ensures el.cx.Some? ==> p == Point(el.cx.value, NumOr0(el.cy))
    ensures el.cx.None? && el.x.Some? ==> p == Point(el.x.value, NumOr0(el.y))
    ensures el.cx.None? && el.x.None? && el.x1.Some? ==> p == Point(el.x1.value, NumOr0(el.y1))
    ensures el.cx.None? && el.x.None? && el.x1.None? ==> p == Point(0.0, 0.0)
  {
    if el.cx.Some? then Point(el.cx.value, NumOr0(el.cy))
    else if el.x.Some? then Point(el.x.value, NumOr0(el.y))
    else if el.x1.Some? then Point(el.x1.value, NumOr0(el.y1))
    else Point(0.0, 0.0)
  }

  /** `querySelector('#' + id)`: the index of the first element with that id. */
  function FirstWithId(els: seq<Element>, id: string): (r: Option<nat>)
    ensures r.Some? ==> r.value < |els| && els[r.value].id == Some(id)
    ensures r.Some? ==> forall j :: 0 <= j < r.value ==> els[j].id != Some(id)
    ensures r.None? ==> forall j :: 0 <= j < |els| ==> els[j].id != Some(id)
  {
    if els == [] then None
    else if els[0].id == Some(id) then Some(0)
    else match FirstWithId(els[1..], id)
      case None => None
      case Some(k) => Some(k + 1)
  }

  predicate HasId(els: seq<Element>, id: string) {
    exists j :: 0 <= j < |els| && els[j].id == Some(id)
  }

  /** The anchor point of the first element with the given id. */
  function AnchorXY(els: seq<Element>, id: string): Point
    requires HasId(els, id)
  {
    GetXY(els[FirstWithId(els, id).value])
  }

  /** The direction of the tangent from a point anchor to its direction anchor. */
  function TangentAngle(trig: Trig, from: Point, to: Point): real {
    trig.atan2(to.y - from.y, to.x - from.x)
  }

  /** `readSocket`: the tile is rejected (None) exactly when one of the four
      required anchors is missing; the centre anchor is optional. */
  function ReadSocket(trig: Trig, els: seq<Element>, prefix: string): (r: Option<Socket>)
    ensures r.None? <==> (!HasId(els, prefix + "entry-point") || !HasId(els, prefix + "exit-point")
                          || !HasId(els, prefix + "entry-dir") || !HasId(els, prefix + "exit-dir"))
    ensures r.Some? ==> r.value.entry == AnchorXY(els, prefix + "entry-point")
    ensures r.Some? ==> r.value.exit == AnchorXY(els, prefix + "exit-point")
    ensures r.Some? ==> r.value.entryAngle == TangentAngle(trig, r.value.entry, AnchorXY(els, prefix + "entry-dir"))
    ensures r.Some? ==> r.value.exitAngle == TangentAngle(trig, r.value.exit, AnchorXY(els, prefix + "exit-dir"))
    ensures r.Some? ==> (r.value.center.Some? <==> HasId(els, prefix + "center-point"))
  {
    var ep := FirstWithId(els, prefix + "entry-point");
    var xp := FirstWithId(els, prefix + "exit-point");
    var ed := FirstWithId(els, prefix + "entry-dir");
    var xd := FirstWithId(els, prefix + "exit-dir");
    var cp := FirstWithId(els, prefix + "center-point");
    if ep.None? || xp.None? || ed.None? || xd.None? then None
    else
      var entry, exit := GetXY(els[ep.value]), GetXY(els[xp.value]);
      var entryDir, exitDir := GetXY(els[ed.value]), GetXY(els[xd.value]);
      var center := if cp.Some? then Some(GetXY(els[cp.value])) else None;
      Some(Socket(entry, exit, TangentAngle(trig, entry, entryDir), TangentAngle(trig, exit, exitDir), center))
  }

  /** What a goal anchor's id says: the pair key and whether it is the `b` end.
      An id `<prefix>goal-<raw>` is a `b` end when `raw` ends in "b", and its key
      is then `raw` without that letter; otherwise it is an `a` end keyed `raw`. */
  function GoalRole(el: Element, prefix: string): Option<(string, bool)> {
    if el.id.Some? && StartsWith(el.id.value, prefix + "goal-") then
      var raw := el.id.value[|prefix| + 5..];
      var isB := EndsWith(raw, "b");
      Some((if isB then raw[..|raw| - 1] else raw, isB))
    else None
  }

  /** The pairs object after visiting the goal anchors of `els` in order; a
      later anchor overwrites an earlier one for the same key and end. */
  function GatherGoals(els: seq<Element>, prefix: string): map<string, PartialPair>
  {
    if els == [] then map[]
    else
      var pairs := GatherGoals(els[..|els| - 1], prefix);
      var el := els[|els| - 1];
      match GoalRole(el, prefix)
      case None => pairs
      case Some((key, isB)) =>
        var cur := if key in pairs then pairs[key] else PartialPair(None, None);
        pairs[key := if isB then cur.(b := Some(GetXY(el))) else cur.(a := Some(GetXY(el)))]
  }

  /** `collectGoals`: the goal pairs of a drawing, keeping only the keys that
      have both ends. */
  function CollectGoals(els: seq<Element>, prefix: string): map<string, GoalPair> {
    var pairs := GatherGoals(els, prefix);
    map k | k in pairs && pairs[k].a.Some? && pairs[k].b.Some? :: GoalPair(pairs[k].a.value, pairs[k].b.value)
  }

  /** Element `i` is the last goal anchor for `key` on the given end. */
  predicate LastAnchor(els: seq<Element>, prefix: string, key: string, isB: bool, i: int) {
    0 <= i < |els| && GoalRole(els[i], prefix) == Some((key, isB))
    && forall j :: i < j < |els| ==> GoalRole(els[j], prefix) != Some((key, isB))
  }

  predicate HasAnchor(els: seq<Element>, prefix: string, key: string, isB: bool) {
    exists i :: 0 <= i < |els| && GoalRole(els[i], prefix) == Some((key, isB))
  }

  /** The recorded end of `key` in a pairs object, if any. */
  function EndOf(pairs: map<string, PartialPair>, key: string, isB: bool): Option<Point> {
    if key !in pairs then None else if isB then pairs[key].b else pairs[key].a
  }

  /** One visit of `GatherGoals`, as seen from one key and end. */
  lemma GatherGoalsLast(els: seq<Element>, prefix: string, key: string, isB: bool)
    requires els != []
    ensures var pairs, pairs0 := GatherGoals(els, prefix), GatherGoals(els[..|els| - 1], prefix);
      var role := GoalRole(els[|els| - 1], prefix);
      && (key in pairs <==> key in pairs0 || role == Some((key, false)) || role == Some((key, true)))
      && EndOf(pairs, key, isB) == (if role == Some((key, isB)) then Some(GetXY(els[|els| - 1])) else EndOf(pairs0, key, isB))
  {
  }

  lemma {:induction false} GatherGoalsKeys(els: seq<Element>, prefix: string, key: string)
    ensures key in GatherGoals(els, prefix) <==> HasAnchor(els, prefix, key, false) || HasAnchor(els, prefix, key, true)
  {
    if els != [] {
      var init := els[..|els| - 1];
      GatherGoalsKeys(init, prefix, key);
      GatherGoalsLast(els, prefix, key, false);
      assert forall i :: 0 <= i < |init| ==> els[i] == init[i];
      if HasAnchor(init, prefix, key, false) {
        var i :| 0 <= i < |init| && GoalRole(init[i], prefix) == Some((key, false));
        assert GoalRole(els[i], prefix) == Some((key, false));
      }
      if HasAnchor(init, prefix, key, true) {
        var i :| 0 <= i < |init| && GoalRole(init[i], prefix) == Some((key, true));
        assert GoalRole(els[i], prefix) == Some((key, true));
      }
    }
  }

  lemma {:induction false} GatherGoalsHasEnd(els: seq<Element>, prefix: string, key: string, isB: bool)
    ensures EndOf(GatherGoals(els, prefix), key, isB).Some? <==> HasAnchor(els, prefix, key, isB)
  {
    if els != [] {
      var init := els[..|els| - 1];
      var n := |els| - 1;
      GatherGoalsHasEnd(init, prefix, key, isB);
      GatherGoalsLast(els, prefix, key, isB);
      if GoalRole(els[n], prefix) != Some((key, isB)) {
        if HasAnchor(els, prefix, key, isB) {
          var i :| 0 <= i < |els| && GoalRole(els[i], prefix) == Some((key, isB));
          assert i < n && init[i] == els[i];
        }
        if HasAnchor(init, prefix, key, isB) {
          var i :| 0 <= i < |init| && GoalRole(init[i], prefix) == Some((key, isB));
          assert init[i] == els[i];
        }
      }
    }
  }

  lemma {:induction false} GatherGoalsLastEnd(els: seq<Element>, prefix: string, key: string, isB: bool)
    requires EndOf(GatherGoals(els, prefix), key, isB).Some?
    ensures exists i :: LastAnchor(els, prefix, key, isB, i)
                     && EndOf(GatherGoals(els, prefix), key, isB).value == GetXY(els[i])
  {
    assert els != [];
    var init := els[..|els| - 1];
    var n := |els| - 1;
    GatherGoalsLast(els, prefix, key, isB);
    if GoalRole(els[n], prefix) == Some((key, isB)) {
      assert LastAnchor(els, prefix, key, isB, n);
    } else {
      GatherGoalsLastEnd(init, prefix, key, isB);
      var i :| LastAnchor(init, prefix, key, isB, i)
            && EndOf(GatherGoals(init, prefix), key, isB).value == GetXY(init[i]);
      LastAnchorExtend(els, prefix, key, isB, i);
    }
  }

  /** A last anchor stays last when a non-anchor is appended. */
  lemma LastAnchorExtend(els: seq<Element>, prefix: string, key: string, isB: bool, i: int)
    requires els != [] && LastAnchor(els[..|els| - 1], prefix, key, isB, i)
    requires GoalRole(els[|els| - 1], prefix) != Some((key, isB))
    ensures LastAnchor(els, prefix, key, isB, i) && els[i] == els[..|els| - 1][i]
  {
    var init := els[..|els| - 1];
    assert forall j :: i < j < |init| ==> els[j] == init[j];
  }

  /** A key is collected exactly when the drawing has both an `a` and a `b`
      anchor for it, and each end is the position of the LAST such anchor. */
  lemma CollectGoalsSpec(els: seq<Element>, prefix: string, key: string)
    ensures key in CollectGoals(els, prefix)
        <==> HasAnchor(els, prefix, key, false) && HasAnchor(els, prefix, key, true)
    ensures key in CollectGoals(els, prefix) ==>
      (exists i :: LastAnchor(els, prefix, key, false, i) && CollectGoals(els, prefix)[key].a == GetXY(els[i]))
      && (exists j :: LastAnchor(els, prefix, key, true, j) && CollectGoals(els, prefix)[key].b == GetXY(els[j]))
  {
    GatherGoalsHasEnd(els, prefix, key, false);
    GatherGoalsHasEnd(els, prefix, key, true);
    GatherGoalsKeys(els, prefix, key);
    var pairs := GatherGoals(els, prefix);
    if key in CollectGoals(els, prefix) {
      GatherGoalsLastEnd(els, prefix, key, false);
      GatherGoalsLastEnd(els, prefix, key, true);
    }
  }

  // ---------------------------------------------------------------------
  // Namespacing: every id gets the per-placement prefix, and references to
  // it in the reference attributes are rewritten to match.
  // ---------------------------------------------------------------------

  /** The attributes `namespaceIds` inspects for references. */
  const RefAttrs: seq<string> := ["fill", "stroke", "filter", "clip-path", "mask", "href", "xlink:href"]

  /** `s.replaceAll(pat, rep)` for a non-empty literal pattern: occurrences are
      replaced left to right without overlapping. */
  function ReplaceAll(s: string, pat: string, rep: string): string
    requires pat != []
    decreases |s|
  {
    if |s| < |pat| then s
    else if s[..|pat|] == pat then rep + ReplaceAll(s[|pat|..], pat, rep)
    else [s[0]] + ReplaceAll(s[1..], pat, rep)
  }

  lemma {:induction false} ReplaceAllAbsent(s: string, pat: string, rep: string)
    requires pat != [] && !Contains(s, pat)
    ensures ReplaceAll(s, pat, rep) == s
  {
    if |s| >= |pat| {
      assert !OccursAt(s, pat, 0);
      if !Contains(s[1..], pat) {
        ReplaceAllAbsent(s[1..], pat, rep);
      } else {
        var i :| 0 <= i <= |s[1..]| - |pat| && OccursAt(s[1..], pat, i);
        assert s[1..][i..i + |pat|] == s[i + 1..i + 1 + |pat|];
        assert OccursAt(s, pat, i + 1);
      }
    }
  }

  /** Where no occurrence of the pattern starts inside `a`, `a` is copied as
      it is and the scan resumes at the start of `b`. */
  lemma {:induction false} ReplaceAllSkip(a: string, b: string, pat: string, rep: string)
    requires pat != []
    requires forall i :: 0 <= i < |a| ==> !OccursAt(a + b, pat, i)
    ensures ReplaceAll(a + b, pat, rep) == a + ReplaceAll(b, pat, rep)
  {
    if a != [] {
      var s := a + b;
      assert !OccursAt(s, pat, 0);
      assert s[1..] == a[1..] + b;
      forall i | 0 <= i < |a[1..]| ensures !OccursAt(a[1..] + b, pat, i) {
        assert !OccursAt(s, pat, i + 1);
      }
      ReplaceAllSkip(a[1..], b, pat, rep);
      if |s| < |pat| {
        assert ReplaceAll(b, pat, rep) == b;
        assert ReplaceAll(s, pat, rep) == s;
      } else {
        assert s[..|pat|] != pat;
        assert ReplaceAll(s, pat, rep) == [s[0]] + ReplaceAll(a[1..] + b, pat, rep);
        assert s[0] == a[0];
        assert [a[0]] + (a[1..] + ReplaceAll(b, pat, rep)) == a + ReplaceAll(b, pat, rep);
      }
    } else {
      assert a + b == b;
    }
  }

  /** Left to right: the first occurrence is replaced and the scan resumes
      right after it. */
  lemma ReplaceAllFirst(a: string, b: string, pat: string, rep: string)
    requires pat != []
    requires forall i :: 0 <= i < |a| ==> !OccursAt(a + pat + b, pat, i)
    ensures ReplaceAll(a + pat + b, pat, rep) == a + rep + ReplaceAll(b, pat, rep)
  {
    assert a + pat + b == a + (pat + b);
    ReplaceAllSkip(a, pat + b, pat, rep);
    var t := pat + b;
    assert t[..|pat|] == pat && t[|pat|..] == b;
  }

  lemma ContainsAfter(a: string, t: string, x: string)
    requires Contains(t, x)
    ensures Contains(a + t, x)
  {
    var j :| 0 <= j <= |t| - |x| && OccursAt(t, x, j);
    assert (a + t)[|a| + j..|a| + j + |x|] == t[j..j + |x|];
    assert OccursAt(a + t, x, |a| + j);
  }

  lemma ContainsInSuffix(s: string, x: string, r: int, k: nat)
    requires OccursAt(s, x, r) && k <= r
    ensures Contains(s[k..], x)
  {
    assert s[k..][r - k..r - k + |x|] == s[r..r + |x|];
    assert OccursAt(s[k..], x, r - k);
  }

  lemma OccursAtChar(s: string, p: string, i: int, k: int)
    requires OccursAt(s, p, i) && 0 <= k < |p|
    ensures s[i + k] == p[k]
  {
    assert s[i..i + |p|][k] == s[i + k];
  }

  /** Replacing a pattern that occurs leaves the replacement in the result. */
  lemma {:induction false} ReplaceAllLeavesRep(s: string, pat: string, rep: string)
    requires pat != [] && Contains(s, pat)
    ensures Contains(ReplaceAll(s, pat, rep), rep)
    decreases |s|
  {
    var i :| 0 <= i <= |s| - |pat| && OccursAt(s, pat, i);
    if s[..|pat|] == pat {
      var r := ReplaceAll(s, pat, rep);
      assert r[..|rep|] == rep;
      assert OccursAt(r, rep, 0);
    } else {
      assert i != 0;
      ContainsInSuffix(s, pat, i, 1);
      ReplaceAllLeavesRep(s[1..], pat, rep);
      ContainsAfter([s[0]], ReplaceAll(s[1..], pat, rep), rep);
    }
  }

  /** A name with no `#` and no `)`, so that it cannot be mistaken for the
      delimiters of a `url(#...)` reference. */
  predicate PlainName(s: string) {
    forall k :: 0 <= k < |s| ==> s[k] != '#' && s[k] != ')'
  }

  lemma PlainConcat(a: string, b: string)
    requires PlainName(a) && PlainName(b)
    ensures PlainName(a + b)
  {
    forall k | 0 <= k < |a + b| ensures (a + b)[k] != '#' && (a + b)[k] != ')' {
      if k >= |a| {
        assert (a + b)[k] == b[k - |a|];
      }
    }
  }

  function UrlRef(id: string): string {
    "url(#" + id + ")"
  }

  lemma UrlRefChars(id: string)
    ensures |UrlRef(id)| == |id| + 6
    ensures UrlRef(id)[0] == 'u' && UrlRef(id)[1] == 'r' && UrlRef(id)[2] == 'l'
    ensures UrlRef(id)[3] == '(' && UrlRef(id)[4] == '#'
    ensures forall k :: 5 <= k < |id| + 5 ==> UrlRef(id)[k] == id[k - 5]
    ensures UrlRef(id)[|id| + 5] == ')'
  {
  }

  /** Inside `url(#id)` a plain name contributes no `#` and no `)`. */
  lemma UrlRefInside(id: string, k: int)
    requires PlainName(id) && 5 <= k < |id| + 5
    ensures UrlRef(id)[k] != '#' && UrlRef(id)[k] != ')'
  {
    UrlRefChars(id);
    assert UrlRef(id)[k] == id[k - 5];
  }

  /** Two occurrences in `s` agree where they overlap. */
  lemma SameCharAt(s: string, u: string, i: int, v: string, r: int, k: int, l: int)
    requires OccursAt(s, u, i) && OccursAt(s, v, r)
    requires 0 <= k < |u| && 0 <= l < |v| && i + k == r + l
    ensures u[k] == v[l]
  {
    OccursAtChar(s, u, i, k);
    OccursAtChar(s, v, r, l);
  }

  /** Two references starting at the same place and as long as each other
      are to the same name. */
  lemma SameUrlRef(s: string, p: string, q: string, i: int)
    requires OccursAt(s, UrlRef(p), i) && OccursAt(s, UrlRef(q), i) && |p| == |q|
    ensures p == q
  {
    UrlRefChars(p);
    UrlRefChars(q);
    forall k | 0 <= k < |p| ensures p[k] == q[k] {
      SameCharAt(s, UrlRef(p), i, UrlRef(q), i, k + 5, k + 5);
    }
  }

  /** Occurrences of references to two different plain names never overlap. */
  lemma UrlRefsApart(s: string, p: string, q: string, i: int, r: int)
    requires PlainName(p) && PlainName(q) && p != q
    requires OccursAt(s, UrlRef(p), i) && OccursAt(s, UrlRef(q), r)
    ensures i + |UrlRef(p)| <= r || r + |UrlRef(q)| <= i
  {
    if i <= r {
      UrlRefsApartOrdered(s, p, q, i, r);
    } else {
      UrlRefsApartOrdered(s, q, p, r, i);
    }
  }

  lemma UrlRefsApartOrdered(s: string, p: string, q: string, i: int, r: int)
    requires PlainName(p) && PlainName(q) && p != q
    requires OccursAt(s, UrlRef(p), i) && OccursAt(s, UrlRef(q), r) && i <= r
    ensures i + |UrlRef(p)| <= r
  {
    UrlRefChars(p);
    UrlRefChars(q);
    var u, v := UrlRef(p), UrlRef(q);
    var d := r - i;
    if d < |u| {
      if d == 0 && |u| == |v| {
        SameUrlRef(s, p, q, i);
      } else if d == 0 && |u| < |v| {
        UrlRefInside(q, |u| - 1);
        SameCharAt(s, u, i, v, r, |u| - 1, |u| - 1);
      } else if d == 0 {
        UrlRefInside(p, |v| - 1);
        SameCharAt(s, u, i, v, r, |v| - 1, |v| - 1);
      } else if d <= 4 || d == |u| - 1 {
        SameCharAt(s, u, i, v, r, d, 0);
      } else if d + 4 <= |u| - 1 {
        if d + 4 < |u| - 1 {
          UrlRefInside(p, d + 4);
        }
        SameCharAt(s, u, i, v, r, d + 4, 4);
      } else {
        SameCharAt(s, u, i, v, r, |u| - 1, |u| - 1 - d);
      }
    }
  }

  /** Rewriting the references to one plain name keeps every reference to
      another plain name. */
  lemma {:induction false} ReplaceAllKeepsUrl(s: string, p: string, q: string, rep: string)
    requires PlainName(p) && PlainName(q) && p != q && Contains(s, UrlRef(q))
    ensures Contains(ReplaceAll(s, UrlRef(p), rep), UrlRef(q))
    decreases |s|
  {
    var u, v := UrlRef(p), UrlRef(q);
    var r :| 0 <= r <= |s| - |v| && OccursAt(s, v, r);
    if |s| < |u| {
    } else if s[..|u|] == u {
      assert OccursAt(s, u, 0);
      UrlRefsApart(s, p, q, 0, r);
      ContainsInSuffix(s, v, r, |u|);
      ReplaceAllKeepsUrl(s[|u|..], p, q, rep);
      ContainsAfter(rep, ReplaceAll(s[|u|..], u, rep), v);
    } else if r > 0 {
      ContainsInSuffix(s, v, r, 1);
      ReplaceAllKeepsUrl(s[1..], p, q, rep);
      ContainsAfter([s[0]], ReplaceAll(s[1..], u, rep), v);
    } else {
      var rest := s[|v|..];
      assert v + rest == s;
      forall i | 0 <= i < |v| ensures !OccursAt(v + rest, u, i) {
        if OccursAt(s, u, i) {
          UrlRefsApart(s, p, q, i, 0);
        }
      }
      ReplaceAllSkip(v, rest, u, rep);
      var out := ReplaceAll(s, u, rep);
      assert out[..|v|] == v;
      assert OccursAt(out, v, 0);
    }
  }

  /** One attribute value after the rename `oldId` to `newId`: every
      `url(#oldId)` is rewritten, and a value that is exactly `#oldId` becomes
      `#newId`; empty values are skipped. */
  function RewriteValue(v: string, oldId: string, newId: string): string {
    if v == "" then v
    else if v == "#" + oldId then "#" + newId
    else if Contains(v, UrlRef(oldId)) then ReplaceAll(v, UrlRef(oldId), UrlRef(newId))
    else v
  }

  function RewriteRefs(attrs: map<string, string>, oldId: string, newId: string): map<string, string> {
    map a | a in attrs :: if a in RefAttrs then RewriteValue(attrs[a], oldId, newId) else attrs[a]
  }

  function Retarget(e: Element, oldId: string, newId: string): Element {
    e.(attrs := RewriteRefs(e.attrs, oldId, newId))
  }

  function RewriteAll(els: seq<Element>, oldId: string, newId: string): (r: seq<Element>)
    ensures |r| == |els|
  {
    seq(|els|, k requires 0 <= k < |els| => Retarget(els[k], oldId, newId))
  }

  /** The first `j` elements of `cur` are those of `orig` retargeted; the
      rest are untouched. */
  ghost predicate RetargetedUpTo(cur: seq<Element>, orig: seq<Element>, j: nat, oldId: string, newId: string) {
    && |cur| == |orig| && j <= |orig|
    && (forall k :: 0 <= k < j ==> cur[k] == Retarget(orig[k], oldId, newId))
    && (forall k :: j <= k < |orig| ==> cur[k] == orig[k])
  }

  lemma RetargetedStep(cur: seq<Element>, orig: seq<Element>, j: nat, oldId: string, newId: string)
    requires RetargetedUpTo(cur, orig, j, oldId, newId) && j < |cur|
    ensures RetargetedUpTo(cur[j := Retarget(cur[j], oldId, newId)], orig, j + 1, oldId, newId)
  {
  }

  lemma RetargetedAll(cur: seq<Element>, orig: seq<Element>, oldId: string, newId: string)
    requires RetargetedUpTo(cur, orig, |orig|, oldId, newId)
    ensures cur == RewriteAll(orig, oldId, newId)
  {
  }

  /** The effect of the outer loop's `i`-th iteration: rename element `i` (if
      it has an id) and rewrite every reference to its old id. */
  function RenameStep(els: seq<Element>, i: nat, prefix: string): (r: seq<Element>)
    requires i < |els|
    ensures |r| == |els|
  {
    match els[i].id
    case None => els
    case Some(oldId) => RewriteAll(els[i := els[i].(id := Some(prefix + oldId))], oldId, prefix + oldId)
  }

  /** The drawing after the outer loop has run from iteration `i` to the end. */
  function RenameFrom(els: seq<Element>, i: nat, prefix: string): (r: seq<Element>)
    requires i <= |els|
    ensures |r| == |els|
    decreases |els| - i
  {
    if i == |els| then els else RenameFrom(RenameStep(els, i, prefix), i + 1, prefix)
  }

  function Namespaced(els: seq<Element>, prefix: string): seq<Element> {
    RenameFrom(els, 0, prefix)
  }

  /** The inner loop of `namespaceIds`: rewrite references to one renamed id
      in every element. */
  method RewriteRefsInPlace(els: array<Element>, oldId: string, newId: string)
    modifies els
    ensures els[..] == RewriteAll(old(els[..]), oldId, newId)
  {
    var j := 0;
    while j < els.Length
      invariant 0 <= j <= els.Length
      invariant RetargetedUpTo(els[..], old(els[..]), j, oldId, newId)
    {
      RetargetedStep(els[..], old(els[..]), j, oldId, newId);
      els[j] := Retarget(els[j], oldId, newId);
      j := j + 1;
    }
    RetargetedAll(els[..], old(els[..]), oldId, newId);
  }

  /** `namespaceIds`: rewrites the drawing in place. */
  method NamespaceIds(els: array<Element>, prefix: string)
    modifies els
    ensures els[..] == Namespaced(old(els[..]), prefix)
  {
    var i := 0;
    while i < els.Length
      invariant 0 <= i <= els.Length
      invariant RenameFrom(els[..], i, prefix) == Namespaced(old(els[..]), prefix)
    {
      ghost var before := els[..];
      var id := els[i].id;
      if id.Some? {
        var newId := prefix + id.value;
        els[i] := els[i].(id := Some(newId));
        assert els[..] == before[i := before[i].(id := Some(newId))];
        RewriteRefsInPlace(els, id.value, newId);
      }
      assert els[..] == RenameStep(before, i, prefix);
      i := i + 1;
    }
  }

  /** The rename only touches ids; coordinates and attribute names stay. */
  predicate SameShape(e: Element, f: Element) {
    e.cx == f.cx && e.cy == f.cy && e.x == f.x && e.y == f.y && e.x1 == f.x1 && e.y1 == f.y1
    && e.attrs.Keys == f.attrs.Keys
    && forall a :: a in e.attrs && a !in RefAttrs ==> f.attrs[a] == e.attrs[a]
  }

  function PrefixedId(id: Option<string>, prefix: string): Option<string> {
    match id
    case None => None
    case Some(s) => Some(prefix + s)
  }

  lemma {:induction false} RenameFromSpec(els: seq<Element>, i: nat, prefix: string)
    requires i <= |els|
    ensures forall k :: 0 <= k < |els| ==>
      RenameFrom(els, i, prefix)[k].id == (if k < i then els[k].id else PrefixedId(els[k].id, prefix))
      && SameShape(els[k], RenameFrom(els, i, prefix)[k])
    decreases |els| - i
  {
    if i < |els| {
      var next := RenameStep(els, i, prefix);
      RenameFromSpec(next, i + 1, prefix);
      assert forall k :: 0 <= k < |els| ==>
        next[k].id == (if k == i then PrefixedId(els[k].id, prefix) else els[k].id) && SameShape(els[k], next[k]);
      assert RenameFrom(els, i, prefix) == RenameFrom(next, i + 1, prefix);
    }
  }

  /** Namespacing prefixes every id, drops none, adds none, and leaves the
      coordinates and every non-reference attribute as they were. */
  lemma NamespacedSpec(els: seq<Element>, prefix: string)
    ensures |Namespaced(els, prefix)| == |els|
    ensures forall k :: 0 <= k < |els| ==>
      Namespaced(els, prefix)[k].id == PrefixedId(els[k].id, prefix)
      && SameShape(els[k], Namespaced(els, prefix)[k])
  {
    RenameFromSpec(els, 0, prefix);
  }

  /** A reference that is exactly `#old` follows the rename; a value that
      mentions neither form of the old id is left alone. */
  lemma RewriteValueSpec(v: string, oldId: string, newId: string)
    ensures RewriteValue("#" + oldId, oldId, newId) == "#" + newId
    ensures v != "#" + oldId && !Contains(v, UrlRef(oldId)) ==> RewriteValue(v, oldId, newId) == v
    ensures RewriteValue(UrlRef(oldId), oldId, newId) == UrlRef(newId)
  {
    var u := UrlRef(oldId);
    assert u[0] == 'u' && u != "#" + oldId;
    assert OccursAt(u, u, 0);
    assert u[..|u|] == u && u[|u|..] == [];
    assert ReplaceAll(u, u, UrlRef(newId)) == UrlRef(newId) + ReplaceAll([], u, UrlRef(newId));
  }

  /** A value `#n` holds no `url(#...)` reference: its only `#` is its first
      character. */
  lemma HashHasNoUrl(n: string, id: string)
    requires PlainName(n)
    ensures !Contains("#" + n, UrlRef(id))
  {
    if Contains("#" + n, UrlRef(id)) {
      var r :| 0 <= r <= |"#" + n| - |UrlRef(id)| && OccursAt("#" + n, UrlRef(id), r);
      UrlRefChars(id);
      HashOnlyFirst(n, r + 4);
      OccursAtChar("#" + n, UrlRef(id), r, 4);
    }
  }

  lemma HashOnlyFirst(n: string, k: int)
    requires PlainName(n) && 1 <= k < |n| + 1
    ensures ("#" + n)[k] != '#'
  {
    assert ("#" + n)[k] == n[k - 1];
  }

  /** One rename on a value `#n`: it follows the rename of `n` and ignores
      every other. */
  lemma RewriteHash(n: string, oldId: string, newId: string)
    requires PlainName(n)
    ensures RewriteValue("#" + n, oldId, newId) == "#" + (if n == oldId then newId else n)
  {
    HashHasNoUrl(n, oldId);
    assert ("#" + n)[1..] == n && ("#" + oldId)[1..] == oldId;
  }

  /** One rename on a value holding `url(#q)`: the reference survives the
      rename of any other plain name, and the rename of `q` leaves a
      reference to the new name. */
  lemma RewriteUrl(v: string, q: string, oldId: string, newId: string)
    requires PlainName(q) && PlainName(oldId) && Contains(v, UrlRef(q))
    ensures Contains(RewriteValue(v, oldId, newId), UrlRef(if q == oldId then newId else q))
  {
    UrlRefChars(q);
    if v == "#" + oldId {
      HashHasNoUrl(oldId, q);
    } else if q == oldId {
      ReplaceAllLeavesRep(v, UrlRef(q), UrlRef(newId));
    } else if Contains(v, UrlRef(oldId)) {
      ReplaceAllKeepsUrl(v, oldId, q, UrlRef(newId));
    }
  }

  /** One outer iteration rewrites a reference attribute of any element for
      the iteration's id. */
  lemma RenameStepAttr(els: seq<Element>, i: nat, prefix: string, k: nat, a: string)
    requires i < |els| && k < |els| && a in els[k].attrs && a in RefAttrs
    ensures a in RenameStep(els, i, prefix)[k].attrs
    ensures RenameStep(els, i, prefix)[k].attrs[a]
      == if els[i].id.Some? then RewriteValue(els[k].attrs[a], els[i].id.value, prefix + els[i].id.value)
         else els[k].attrs[a]
  {
  }

  /** One outer iteration renames element `i` only. */
  lemma IdsFromStep(els: seq<Element>, i: nat, prefix: string)
    requires i < |els|
    ensures IdsFrom(RenameStep(els, i, prefix), i + 1) == IdsFrom(els, i)[1..]
  {
    var next := RenameStep(els, i, prefix);
    assert forall m :: i < m < |els| ==> next[m].id == els[m].id;
  }

  /** The ids of the elements from `i` on, in order. */
  function IdsFrom(els: seq<Element>, i: nat): (ids: seq<Option<string>>)
    requires i <= |els|
    ensures |ids| == |els| - i && forall m :: 0 <= m < |ids| ==> ids[m] == els[i + m].id
  {
    seq(|els| - i, m requires 0 <= m < |els| - i => els[i + m].id)
  }

  /** A reference value after the renames of `ids`, one after the other. */
  function RewriteThrough(ids: seq<Option<string>>, prefix: string, v: string): string
    decreases |ids|
  {
    if ids == [] then v
    else
      var v' := match ids[0] case None => v case Some(o) => RewriteValue(v, o, prefix + o);
      RewriteThrough(ids[1..], prefix, v')
  }

  /** What the outer loop does to one reference attribute: the renames of the
      remaining elements' ids, in element order. */
  lemma {:induction false} RenameFromValue(els: seq<Element>, i: nat, prefix: string, k: nat, a: string)
    requires i <= |els| && k < |els| && a in els[k].attrs && a in RefAttrs
    ensures a in RenameFrom(els, i, prefix)[k].attrs
    ensures RenameFrom(els, i, prefix)[k].attrs[a] == RewriteThrough(IdsFrom(els, i), prefix, els[k].attrs[a])
    decreases |els| - i
  {
    if i < |els| {
      var next := RenameStep(els, i, prefix);
      RenameStepAttr(els, i, prefix, k, a);
      IdsFromStep(els, i, prefix);
      RenameFromValue(next, i + 1, prefix, k, a);
      RewriteThroughStep(IdsFrom(els, i), prefix, els[k].attrs[a]);
      assert RenameFrom(els, i, prefix) == RenameFrom(next, i + 1, prefix);
    } else {
      assert IdsFrom(els, i) == [];
    }
  }

  lemma RewriteThroughStep(ids: seq<Option<string>>, prefix: string, v: string)
    requires ids != []
    ensures RewriteThrough(ids, prefix, v)
            == RewriteThrough(ids[1..], prefix, if ids[0].Some? then RewriteValue(v, ids[0].value, prefix + ids[0].value) else v)
  {
  }

  /** Every id in the list is a plain name. */
  predicate PlainIds(ids: seq<Option<string>>) {
    forall m :: 0 <= m < |ids| && ids[m].Some? ==> PlainName(ids[m].value)
  }

  /** A `#n` value whose name is never renamed stays as it is. */
  lemma {:induction false} HashKept(ids: seq<Option<string>>, prefix: string, n: string)
    requires PlainName(n) && forall m :: 0 <= m < |ids| ==> ids[m] != Some(n)
    ensures RewriteThrough(ids, prefix, "#" + n) == "#" + n
    decreases |ids|
  {
    if ids != [] {
      if ids[0].Some? {
        RewriteHash(n, ids[0].value, prefix + ids[0].value);
      }
      HashKept(ids[1..], prefix, n);
    }
  }

  /** A `#n` value follows the first rename of `n` and, the new name being
      renamed no more, keeps it. */
  lemma {:induction false} HashFollows(ids: seq<Option<string>>, prefix: string, n: string, j: nat)
    requires j < |ids| && ids[j] == Some(n) && PlainName(prefix) && PlainName(n)
    requires forall m :: 0 <= m < j ==> ids[m] != Some(n)
    requires forall m :: j < m < |ids| ==> ids[m] != Some(prefix + n)
    ensures RewriteThrough(ids, prefix, "#" + n) == "#" + prefix + n
    decreases |ids|
  {
    if j > 0 {
      if ids[0].Some? {
        RewriteHash(n, ids[0].value, prefix + ids[0].value);
      }
      HashFollows(ids[1..], prefix, n, j - 1);
    } else {
      RewriteHash(n, n, prefix + n);
      PlainConcat(prefix, n);
      assert "#" + (prefix + n) == "#" + prefix + n;
      HashKept(ids[1..], prefix, prefix + n);
    }
  }

  /** A `url(#n)` reference whose name is never renamed survives every rename. */
  lemma {:induction false} UrlKept(ids: seq<Option<string>>, prefix: string, v: string, n: string)
    requires PlainName(n) && PlainIds(ids) && Contains(v, UrlRef(n))
    requires forall m :: 0 <= m < |ids| ==> ids[m] != Some(n)
    ensures Contains(RewriteThrough(ids, prefix, v), UrlRef(n))
    decreases |ids|
  {
    if ids != [] {
      var v' := match ids[0] case None => v case Some(o) => RewriteValue(v, o, prefix + o);
      if ids[0].Some? {
        RewriteUrl(v, n, ids[0].value, prefix + ids[0].value);
      }
      UrlKept(ids[1..], prefix, v', n);
    }
  }

  /** A `url(#n)` reference becomes one to `prefix + n` at the first rename of
      `n` and survives the later renames. */
  lemma {:induction false} UrlFollows(ids: seq<Option<string>>, prefix: string, v: string, n: string, j: nat)
    requires j < |ids| && ids[j] == Some(n) && PlainName(prefix) && PlainIds(ids) && Contains(v, UrlRef(n))
    requires forall m :: 0 <= m < j ==> ids[m] != Some(n)
    requires forall m :: j < m < |ids| ==> ids[m] != Some(prefix + n)
    ensures Contains(RewriteThrough(ids, prefix, v), UrlRef(prefix + n))
    decreases |ids|
  {
    var v' := match ids[0] case None => v case Some(o) => RewriteValue(v, o, prefix + o);
    if j > 0 {
      if ids[0].Some? {
        RewriteUrl(v, n, ids[0].value, prefix + ids[0].value);
      }
      UrlFollows(ids[1..], prefix, v', n, j - 1);
    } else {
      RewriteUrl(v, n, n, prefix + n);
      PlainConcat(prefix, n);
      UrlKept(ids[1..], prefix, v', prefix + n);
    }
  }

  /** The drawing's ids are plain, pairwise distinct, and none is the prefix
      followed by another id. */
  predicate RenameSafe(els: seq<Element>, prefix: string) {
    && PlainName(prefix)
    && (forall m :: 0 <= m < |els| && els[m].id.Some? ==> PlainName(els[m].id.value))
    && (forall m, m' :: 0 <= m < m' < |els| && els[m].id.Some? ==> els[m'].id != els[m].id)
    && (forall m, m' :: 0 <= m < |els| && 0 <= m' < |els| && els[m].id.Some? ==>
          els[m'].id != Some(prefix + els[m].id.value))
  }

  /** After namespacing, a reference attribute that named element `j`'s id,
      as `#id` or through `url(#id)`, names its new id `prefix + id`. */
  lemma NamespacedRefs(els: seq<Element>, prefix: string, k: nat, a: string, j: nat)
    requires RenameSafe(els, prefix)
    requires k < |els| && a in els[k].attrs && a in RefAttrs && j < |els| && els[j].id.Some?
    ensures a in Namespaced(els, prefix)[k].attrs
    ensures els[k].attrs[a] == "#" + els[j].id.value ==>
      Namespaced(els, prefix)[k].attrs[a] == "#" + prefix + els[j].id.value
    ensures Contains(els[k].attrs[a], UrlRef(els[j].id.value)) ==>
      Contains(Namespaced(els, prefix)[k].attrs[a], UrlRef(prefix + els[j].id.value))
  {
    RenameFromValue(els, 0, prefix, k, a);
    var ids, n, v := IdsFrom(els, 0), els[j].id.value, els[k].attrs[a];
    assert forall m :: 0 <= m < j ==> ids[m] != Some(n);
    assert forall m :: j < m < |ids| ==> ids[m] != Some(prefix + n);
    if v == "#" + n {
      HashFollows(ids, prefix, n, j);
    }
    if Contains(v, UrlRef(n)) {
      UrlFollows(ids, prefix, v, n, j);
    }
  }

  // ---------------------------------------------------------------------
  // Instance independence: what is read from a namespaced drawing under its
  // prefix is what the bare drawing holds, whatever the prefix.
  // ---------------------------------------------------------------------

  /** `t` is `s` with every id prefixed and nothing else that anchors read changed. */
  predicate PrefixedCopy(s: seq<Element>, t: seq<Element>, prefix: string) {
    |s| == |t| && forall k :: 0 <= k < |s| ==> t[k].id == PrefixedId(s[k].id, prefix) && SameShape(s[k], t[k])
  }

  lemma {:induction false} FirstWithIdPrefixed(s: seq<Element>, t: seq<Element>, prefix: string, id: string)
    requires PrefixedCopy(s, t, prefix)
    ensures FirstWithId(t, prefix + id) == FirstWithId(s, id)
  {
    if s != [] {
      assert PrefixedCopy(s[1..], t[1..], prefix);
      FirstWithIdPrefixed(s[1..], t[1..], prefix, id);
      assert t[0].id == Some(prefix + id) <==> s[0].id == Some(id) by {
        if t[0].id == Some(prefix + id) {
          assert (prefix + s[0].id.value)[|prefix|..] == s[0].id.value;
          assert (prefix + id)[|prefix|..] == id;
        }
      }
    }
  }

  lemma StartsWithPrefixed(prefix: string, o: string, p: string)
    ensures StartsWith(prefix + o, prefix + p) <==> StartsWith(o, p)
  {
    var fo := prefix + o;
    if |o| >= |p| {
      assert fo[..|prefix| + |p|] == prefix + o[..|p|];
      if fo[..|prefix| + |p|] == prefix + p {
        assert o[..|p|] == (prefix + o[..|p|])[|prefix|..] == (prefix + p)[|prefix|..] == p;
      }
    }
  }

  lemma GoalRolePrefixed(e: Element, f: Element, prefix: string)
    requires f.id == PrefixedId(e.id, prefix)
    ensures GoalRole(f, prefix) == GoalRole(e, "")
  {
    assert "" + "goal-" == "goal-";
    if e.id.Some? {
      var o := e.id.value;
      var fo := prefix + o;
      StartsWithPrefixed(prefix, o, "goal-");
      if StartsWith(o, "goal-") {
        assert fo[|prefix| + 5..] == o[5..];
      }
    }
  }

  lemma {:induction false} GatherGoalsPrefixed(s: seq<Element>, t: seq<Element>, prefix: string)
    requires PrefixedCopy(s, t, prefix)
    ensures GatherGoals(t, prefix) == GatherGoals(s, "")
  {
    if s != [] {
      var n := |s| - 1;
      assert PrefixedCopy(s[..n], t[..n], prefix);
      GatherGoalsPrefixed(s[..n], t[..n], prefix);
      GoalRolePrefixed(s[n], t[n], prefix);
      assert GetXY(t[n]) == GetXY(s[n]);
    }
  }

  /** The socket of a placed instance does not depend on its prefix: it is the
      socket the bare drawing describes. */
  lemma ReadSocketNamespaced(trig: Trig, els: seq<Element>, prefix: string)
    ensures ReadSocket(trig, Namespaced(els, prefix), prefix) == ReadSocket(trig, els, "")
  {
    var t := Namespaced(els, prefix);
    NamespacedSpec(els, prefix);
    assert PrefixedCopy(els, t, prefix);
    FirstWithIdPrefixed(els, t, prefix, "entry-point");
    FirstWithIdPrefixed(els, t, prefix, "exit-point");
    FirstWithIdPrefixed(els, t, prefix, "entry-dir");
    FirstWithIdPrefixed(els, t, prefix, "exit-dir");
    FirstWithIdPrefixed(els, t, prefix, "center-point");
    assert "" + "entry-point" == "entry-point" && "" + "exit-point" == "exit-point";
    assert "" + "entry-dir" == "entry-dir" && "" + "exit-dir" == "exit-dir";
    assert "" + "center-point" == "center-point";
  }

  /** Likewise for the goal pairs of a placed instance. */
  lemma CollectGoalsNamespaced(els: seq<Element>, prefix: string)
    ensures CollectGoals(Namespaced(els, prefix), prefix) == CollectGoals(els, "")
  {
    NamespacedSpec(els, prefix);
    GatherGoalsPrefixed(els, Namespaced(els, prefix), prefix);
  }
}
