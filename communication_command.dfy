/** server/src/communication/command.rs: a command frame matched as a whole
    slice. Only the four one-byte frames `[2]`..`[5]` mean something; every
    other frame, longer ones starting with those bytes included, clears the
    steering of ship 1. The `Space` that the actions apply to
    (server/src/game/space.rs) is not part of this model, so the decoder
    yields the call it would make. */
module CommunicationCommand {
  import opened Common
  import opened Geometry
  import GameObject

  /** The call `run_command` makes on the world. */
  datatype Call =
    | AddPlanet(body: GameObject.Object)
    | AddShip(id: u8, body: GameObject.Object, config: GameObject.ShipConfig)
    | RemoveShip(id: u8)
    | Shoot(id: u8, angle: Angle)
    | MoveShip(id: u8, direction: Option<Angle>)

  /** The bit pattern of the `f64` value `0.0`. */
  const ZeroAngle: Angle := 0

  /** The `match command[..]` of `run_command`; it never panics. */
  function Decode(frame: seq<u8>): (c: Call)
    ensures frame == [2] <==> c == AddPlanet(GameObject.Object.Default)
    ensures frame == [3] <==> c == AddShip(1, GameObject.Object.Default, GameObject.ShipConfig.Default)
    ensures frame == [4] <==> c == RemoveShip(1)
    ensures frame == [5] <==> c == Shoot(1, ZeroAngle)
    ensures frame != [2] && frame != [3] && frame != [4] && frame != [5] <==> c == MoveShip(1, None)
  {
    if frame == [2] then AddPlanet(GameObject.Object.Default)
    else if frame == [3] then AddShip(1, GameObject.Object.Default, GameObject.ShipConfig.Default)
    else if frame == [4] then RemoveShip(1)
    else if frame == [5] then Shoot(1, ZeroAngle)
    else MoveShip(1, None)
  }

  /** A frame of more than one byte is never one of the four commands,
      whatever its first byte. */
  lemma LongFramesFallBack(frame: seq<u8>)
    requires |frame| > 1
    ensures Decode(frame) == MoveShip(1, None)
  {
  }

  /** The only frames that do not fall back are the four one-byte commands. */
  lemma MeaningfulFrames(frame: seq<u8>)
    requires Decode(frame) != MoveShip(1, None)
    ensures |frame| == 1 && 2 <= frame[0] <= 5
  {
  }
}
