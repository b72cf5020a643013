/** The records the course is made of: a tile's manifest entry, a placed tile
    and a checkpoint (script.js state at lines 41-49 and the objects pushed
    by `placeTile` and `addCheckpoint`). */
module Tiles {
  import opened Strings
  import opened Geometry
  import opened Drawing

  /** Square counts per terrain kind from the manifest (`stats`). */
  datatype Stats = Stats(flat: int, asc: int, desc: int, supply: int, cobb: int, slip: int)

  /** A normalised manifest entry: id, label, theme, stats and track (the
      ordered terrain-step tokens). */
  datatype TileMeta = TileMeta(id: string, labelText: string, theme: string, stats: Stats, track: seq<string>)

  /** One entry of `placed`; DOM handles are not modelled. */
  datatype PlacedTile = PlacedTile(prefix: string, pose: Pose, socket: Socket,
                                   goals: map<string, GoalPair>, meta: TileMeta)

  /** One entry of `checkpoints`: a weak reference to a tile by index, the
      goal key, the pair's local ends, the colour name and the label text. */
  datatype Checkpoint = Checkpoint(tileIdx: int, key: string, aLocal: Point, bLocal: Point,
                                   color: string, labelText: string)

  /** `id.replace(/-upp$/, "")`: the front and back ("-upp") faces of a tile
      share one counter. */
  function BaseId(id: string): (b: string)
    ensures EndsWith(id, "-upp") ==> b + "-upp" == id
    ensures !EndsWith(id, "-upp") ==> b == id
  {
    if EndsWith(id, "-upp") then id[..|id| - 4] else id
  }
}
