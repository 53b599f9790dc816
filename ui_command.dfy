/** server/src/ui/command.rs: a command frame from a player, decoded into
    one mutation of the unit-square world. Byte 0 is the tag, byte 1 the
    ship id. For a steering command, byte 2 is a presence flag and bytes 3..
    are the new direction as an 8-byte big-endian `f64`. */
module UiCommand {
  import opened Common
  import opened Geometry
  import opened LogicSpaceObject
  import opened LogicSpace

  datatype Action =
    | AddShip(id: u8)
    | RemoveShip(id: u8)
    | MoveShip(id: u8, direction: Option<Angle>)

  /** The result of decoding: a world mutation, or the panic that the frame
      causes (an index past the end, or an angle slice that is not 8 bytes
      long, which makes `try_into().unwrap()` fail). */
  datatype Outcome = Run(action: Action) | IndexOutOfBounds | AngleNotEightBytes

  /** 2^64, the number of `u64` bit patterns. */
  lemma EightBytesAreAnAngle()
    ensures Pow256(8) == 0x1_0000_0000_0000_0000
  {
  }

  /** The `match` of `run_command`, panics included. */
  function Decode(frame: seq<u8>): (r: Outcome)
    ensures r == IndexOutOfBounds <==>
              |frame| == 0 || ((frame[0] == 0 || frame[0] == 1) && |frame| < 2) || (frame[0] == 2 && |frame| < 3)
    ensures r == AngleNotEightBytes <==> |frame| >= 3 && frame[0] == 2 && frame[2] != 0 && |frame| != 11
    ensures |frame| >= 2 && frame[0] == 0 ==> r == Run(AddShip(frame[1]))
    ensures |frame| >= 2 && frame[0] == 1 ==> r == Run(RemoveShip(frame[1]))
    ensures |frame| >= 3 && frame[0] == 2 && frame[2] == 0 ==> r == Run(MoveShip(frame[1], None))
    ensures |frame| == 11 && frame[0] == 2 && frame[2] != 0 ==>
              (EightBytesAreAnAngle(); r == Run(MoveShip(frame[1], Some(FromBigEndian(frame[3..])))))
    ensures |frame| >= 1 && frame[0] > 2 ==> r == Run(MoveShip(1, None))
  {
    if |frame| == 0 then IndexOutOfBounds
    else if frame[0] == 0 || frame[0] == 1 then
      if |frame| < 2 then IndexOutOfBounds
      else if frame[0] == 0 then Run(AddShip(frame[1])) else Run(RemoveShip(frame[1]))
    else if frame[0] == 2 then
      if |frame| < 3 then IndexOutOfBounds
      else if frame[2] == 0 then Run(MoveShip(frame[1], None))
      else if |frame| != 11 then AngleNotEightBytes
      else
        EightBytesAreAnAngle();
        Run(MoveShip(frame[1], Some(FromBigEndian(frame[3..]))))
    else Run(MoveShip(1, None))
  }

  /** The frame a client sends for `action`: two bytes, or three, or eleven
      with flag 1 and the angle's bit pattern in big-endian order. */
  function Encode(action: Action): (frame: seq<u8>)
    ensures |frame| >= 2 && frame[1] == action.id
  {
    match action
    case AddShip(id) => [0, id]
    case RemoveShip(id) => [1, id]
    case MoveShip(id, None) => [2, id, 0]
    case MoveShip(id, Some(angle)) => [2, id, 1] + ToBigEndian(angle, 8)
  }

  /** Every action survives the round trip through its frame. */
  lemma DecodeEncode(action: Action)
    ensures Decode(Encode(action)) == Run(action)
  {
    if action.MoveShip? && action.direction.Some? {
      var frame := Encode(action);
      var angle := action.direction.value;
      assert frame[3..] == ToBigEndian(angle, 8);
      BigEndianRoundTrip(angle, 8);
      EightBytesAreAnAngle();
    }
  }

  /** The angle decode loses nothing: the bytes of a decoded direction
      encode back to the bytes of the frame. */
  lemma DecodedAngleKeepsBytes(frame: seq<u8>)
    requires |frame| == 11 && frame[0] == 2 && frame[2] != 0
    ensures Decode(frame).Run? && Decode(frame).action.direction.Some?
    ensures ToBigEndian(Decode(frame).action.direction.value, 8) == frame[3..]
  {
    BigEndianInverse(frame[3..]);
  }

  /** A tag above 2 is never an error, whatever follows it. */
  lemma UnknownTagsSteerShipOne(frame: seq<u8>, rest: seq<u8>)
    requires |frame| >= 1 && frame[0] > 2
    ensures Decode(frame) == Decode(frame[..1] + rest) == Run(MoveShip(1, None))
  {
  }

  /** `run_command`: decode, then apply the action to `space`. `AddShip`
      draws the location with `gen_new_location`. A panicking frame leaves
      the world as it was. */
  method RunCommand(space: Space, frame: seq<u8>) returns (r: Outcome)
    modifies space
    ensures r == Decode(frame)
    ensures !r.Run? ==> space.ships == old(space.ships)
    ensures r.Run? && r.action.AddShip? ==>
              exists location :: InUnitRange(location) &&
                space.ships == Added(old(space.ships), r.action.id, location, space.shipConfig)
    ensures r.Run? && r.action.RemoveShip? ==> space.ships == Removed(old(space.ships), r.action.id)
    ensures r.Run? && r.action.MoveShip? ==>
              space.ships == Steered(old(space.ships), r.action.id, r.action.direction)
    ensures space.planets == old(space.planets) && space.bullets == old(space.bullets)
  {
    r := Decode(frame);
    if r.Run? {
      match r.action
      case AddShip(id) =>
        var location := GenNewLocation();
        space.AddShip(id, location);
      case RemoveShip(id) =>
        space.RemoveShip(id);
      case MoveShip(id, direction) =>
        space.MoveShip(id, direction);
    }
  }
}
