/** The rigid-body kernel shared by tile placement and checkpoint markers:
    2D rotation about the origin followed by translation (script.js
    `rotatePoint`, `localToGlobal`). Coordinates are reals; cosine, sine and
    atan2 are left uninterpreted and travel as a `Trig` value, so every fact
    proved here holds whatever those functions return. */
module Geometry {
  import opened Wrappers

  datatype Point = Point(x: real, y: real)

  /** Math.cos, Math.sin and Math.atan2(y, x), uninterpreted. */
  datatype Trig = Trig(cos: real -> real, sin: real -> real, atan2: (real, real) -> real)

  /** A tile's world transform: translate(tx, ty) rotate(rot). */
  datatype Pose = Pose(tx: real, ty: real, rot: real)

  /** The contact geometry read from a tile drawing: entry and exit points,
      the tangent angle at each, and the optional centre used for the badge. */
  datatype Socket = Socket(entry: Point, exit: Point, entryAngle: real, exitAngle: real,
                           center: Option<Point>)

  /** The world position where the first tile's entry point is put. */
  const Origin: Point := Point(2000.0, 1500.0)

  function Rotate(trig: Trig, p: Point, rad: real): Point {
    var c, s := trig.cos(rad), trig.sin(rad);
    Point(p.x * c - p.y * s, p.x * s + p.y * c)
  }

  function LocalToGlobal(trig: Trig, pose: Pose, p: Point): Point {
    var pr := Rotate(trig, p, pose.rot);
    Point(pose.tx + pr.x, pose.ty + pr.y)
  }

  function Minus(p: Point, q: Point): Point {
    Point(p.x - q.x, p.y - q.y)
  }

  function NormSq(p: Point): real {
    p.x * p.x + p.y * p.y
  }

  function Midpoint(p: Point, q: Point): (m: Point)
    ensures Minus(m, p) == Minus(q, m)
  {
    Point((p.x + q.x) / 2.0, (p.y + q.y) / 2.0)
  }

  /** The pose with rotation `rot` that carries local point `local` onto world
      point `target` (the translation solved in `placeTile`). */
  function PlaceAt(trig: Trig, target: Point, rot: real, local: Point): (pose: Pose)
    ensures pose.rot == rot
    ensures LocalToGlobal(trig, pose, local) == target
  {
    var pr := Rotate(trig, local, rot);
    Pose(target.x - pr.x, target.y - pr.y, rot)
  }

  /** Pose of the first tile of a course: no rotation, entry at `Origin`. */
  function FirstPose(trig: Trig, s: Socket): (pose: Pose)
    ensures pose.rot == 0.0
    ensures LocalToGlobal(trig, pose, s.entry) == Origin
  {
    PlaceAt(trig, Origin, 0.0, s.entry)
  }

  /** Pose of a tile appended after a tile at `prev` with socket `ps`: the new
      entry lands on the previous exit and the tangent is continuous. */
  function NextPose(trig: Trig, prev: Pose, ps: Socket, s: Socket): (pose: Pose)
    ensures LocalToGlobal(trig, pose, s.entry) == LocalToGlobal(trig, prev, ps.exit)
    ensures pose.rot + s.entryAngle == prev.rot + ps.exitAngle
  {
    var prevExitGlobal := LocalToGlobal(trig, prev, ps.exit);
    var prevExitAngleGlobal := prev.rot + ps.exitAngle;
    PlaceAt(trig, prevExitGlobal, prevExitAngleGlobal - s.entryAngle, s.entry)
  }

  /** cos² + sin² = 1 at `rad`: the one fact about the trigonometric functions
      that rigidity needs. */
  predicate UnitAt(trig: Trig, rad: real) {
    trig.cos(rad) * trig.cos(rad) + trig.sin(rad) * trig.sin(rad) == 1.0
  }

  /** Rotation is linear: it commutes with taking differences. */
  lemma RotateMinus(trig: Trig, p: Point, q: Point, rad: real)
    ensures Rotate(trig, Minus(p, q), rad) == Minus(Rotate(trig, p, rad), Rotate(trig, q, rad))
  {
    var c, s := trig.cos(rad), trig.sin(rad);
    calc {
      (p.x - q.x) * c - (p.y - q.y) * s;
      (p.x * c - p.y * s) - (q.x * c - q.y * s);
    }
    calc {
      (p.x - q.x) * s + (p.y - q.y) * c;
      (p.x * s + p.y * c) - (q.x * s + q.y * c);
    }
  }

  /** Rotation by an angle whose cosine and sine lie on the unit circle keeps
      lengths. */
  lemma RotatePreservesNorm(trig: Trig, p: Point, rad: real)
    requires UnitAt(trig, rad)
    ensures NormSq(Rotate(trig, p, rad)) == NormSq(p)
  {
    var c, s := trig.cos(rad), trig.sin(rad);
    var a, b := p.x * c - p.y * s, p.x * s + p.y * c;
    calc {
      a * a + b * b;
      p.x * p.x * (c * c + s * s) + p.y * p.y * (c * c + s * s);
      p.x * p.x * 1.0 + p.y * p.y * 1.0;
    }
  }

  /** Placing a tile is a rigid motion: distances between two of its local
      points are the same in world coordinates. */
  lemma LocalToGlobalIsRigid(trig: Trig, pose: Pose, p: Point, q: Point)
    requires UnitAt(trig, pose.rot)
    ensures NormSq(Minus(LocalToGlobal(trig, pose, p), LocalToGlobal(trig, pose, q))) == NormSq(Minus(p, q))
  {
    RotateMinus(trig, p, q, pose.rot);
    RotatePreservesNorm(trig, Minus(p, q), pose.rot);
    assert Minus(LocalToGlobal(trig, pose, p), LocalToGlobal(trig, pose, q))
        == Minus(Rotate(trig, p, pose.rot), Rotate(trig, q, pose.rot));
  }
}
