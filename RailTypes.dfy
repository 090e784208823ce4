/** The entities of the simulation: trains, block sections, balises, the
    signal aspects and the preset scenarios. */
module RailTypes {

  datatype Option<T> = None | Some(value: T)

  /** The aspect of a block's signal: green (clear), yellow (caution), red (danger). */
  datatype Aspect = Green | Yellow | Red

  /** A block section ("canton") covering the positions `start <= p < end`. */
  datatype Block = Block(id: int, start: real, end: real, occupied: bool, signal: Aspect)

  /** A fixed speed-restriction marker. Its type label is display metadata and is not modelled. */
  datatype Balise = Balise(position: real, speedLimit: int)

  /** A train. Speeds are in km/h and move in whole steps; position and
      movement authority `ma` are in metres. Name and colour are display only. */
  datatype Train = Train(id: int, position: real, speed: int, maxSpeed: int, ma: real)

  /** The presets of `loadScenario`; `Reset` is its default branch. */
  datatype Scenario = Collision | CatchUp | BaliseTest | MaLimit | Reset
}
