/** server/src/communication/connection.rs: the connection code that
    server/src/lib.rs wires to the game. Snapshots are framed by a trailing
    `MSG_END` byte instead of a length prefix, commands are read up to
    `MSG_END` and tagged with `48 + id`, and a connection that ends sends
    the teardown frame `[b'a', 48 + id]`. `run_game` drains the pending
    commands of a tick in arrival order, then updates the world once.
    `MAX_PLAYERS`, `MAX_PLAYERS_MSG` and `MSG_END` are not in
    server/src/constants.rs, so they are parameters here. */
module CommunicationConnection {
  import opened Common
  import opened NetworkingConnection
  import CommunicationCommand

  datatype Constants = Constants(maxPlayers: u8, maxPlayersMsg: seq<u8>, msgEnd: u8)

  /** `GAME_UPDATE_TICK_SECONDS`. */
  const GameUpdateTickSeconds: real := 0.000001

  /** `init_connection`: finished handles are dropped; at or above the cap
      the refusal is written and the stream shut down, and no id is
      allocated; otherwise the lowest free id in `1..=MAX_PLAYERS`. */
  method InitConnection<H>(registry: Registry<H>, finished: H -> bool, constants: Constants)
    returns (id: Option<u8>, written: seq<u8>, shutdown: bool)
    modifies registry
    ensures registry.handles == Live(old(registry.handles), finished)
    ensures |registry.handles| >= constants.maxPlayers ==>
              id.None? && written == constants.maxPlayersMsg && shutdown
    ensures |registry.handles| < constants.maxPlayers ==>
              written == [] && !shutdown && id == FreeId(registry.handles.Keys, constants.maxPlayers)
  {
    registry.handles := Live(registry.handles, finished);
    if |registry.handles| >= constants.maxPlayers {
      return None, constants.maxPlayersMsg, true;
    }
    id := FreeId(registry.handles.Keys, constants.maxPlayers);
    written, shutdown := [], false;
  }

  /** The frame `vec![b'a', 48 + id]` sent when a connection ends. */
  function Teardown(id: u8): (r: seq<u8>)
    ensures |r| == 2 && r[0] == 97
    ensures id < 208 ==> r[1] == id + 48
  {
    [97, WrappingAdd(48, id)]
  }

  /** The trace of the loop of `handle_connection`: the frames written
      (snapshot plus `MSG_END`), the tagged commands forwarded, and whether
      the loop stopped on a failed write or read. */
  function Rounds(id: u8, msgEnd: u8, rounds: seq<Round>): (t: Trace)
    ensures |t.sent| <= |t.written| <= |rounds|
    ensures !t.stopped ==> |t.written| == |t.sent| == |rounds|
    ensures t.stopped ==> |t.written| == |t.sent| + 1
    ensures forall k :: 0 <= k < |t.written| ==> |t.written[k]| >= 1 && t.written[k][|t.written[k]| - 1] == msgEnd
    ensures forall k :: 0 <= k < |t.sent| ==> t.sent[k] == Tagged(ReadUntil(rounds[k].input, msgEnd), id)
  {
    if rounds == [] then Trace([], [], false)
    else
      var init := rounds[..|rounds| - 1];
      var t := Rounds(id, msgEnd, init);
      assert forall j :: 0 <= j < |init| ==> init[j] == rounds[j];
      if t.stopped then t
      else
        var r := rounds[|rounds| - 1];
        var frame := Latest(r.first, r.pending) + [msgEnd];
        if !r.writeOk || !r.readOk then Trace(t.written + [frame], t.sent, true)
        else Trace(t.written + [frame], t.sent + [Tagged(ReadUntil(r.input, msgEnd), id)], false)
  }

  /** `handle_connection`: the rounds, then one teardown frame once the
      loop breaks on a failed write or read. While every round succeeds the
      loop goes on waiting for the next snapshot, so a session whose rounds
      all succeeded has sent no teardown yet. */
  method HandleConnection(id: u8, msgEnd: u8, rounds: seq<Round>) returns (written: seq<seq<u8>>, sent: seq<seq<u8>>)
    ensures written == Rounds(id, msgEnd, rounds).written
    ensures sent == Rounds(id, msgEnd, rounds).sent +
                    (if Rounds(id, msgEnd, rounds).stopped then [Teardown(id)] else [])
  {
    var t := Trace([], [], false);
    var k := 0;
    while k < |rounds| && !t.stopped
      invariant 0 <= k <= |rounds|
      invariant t == Rounds(id, msgEnd, rounds[..k])
      invariant t.stopped ==> Rounds(id, msgEnd, rounds) == t
      decreases |rounds| - k
    {
      assert rounds[..k + 1][..k] == rounds[..k];
      var r := rounds[k];
      var state := Coalesce(r.first, r.pending);
      state := state + [msgEnd];
      t := t.(written := t.written + [state]);
      if !r.writeOk || !r.readOk {
        t := t.(stopped := true);
      } else {
        var command := ReadUntil(r.input, msgEnd);
        t := t.(sent := t.sent + [Tagged(command, id)]);
      }
      k := k + 1;
      if t.stopped {
        RoundsStayStopped(id, msgEnd, rounds, k);
      }
    }
    if !t.stopped {
      assert rounds[..k] == rounds;
    }
    written, sent := t.written, t.sent;
    if t.stopped {
      sent := sent + [Teardown(id)];
    }
  }

  /** Once the loop stopped, later rounds add nothing. */
  lemma {:induction false} RoundsStayStopped(id: u8, msgEnd: u8, rounds: seq<Round>, k: nat)
    requires k <= |rounds| && Rounds(id, msgEnd, rounds[..k]).stopped
    ensures Rounds(id, msgEnd, rounds) == Rounds(id, msgEnd, rounds[..k])
    decreases |rounds| - k
  {
    if k < |rounds| {
      assert rounds[..k + 1][..k] == rounds[..k];
      RoundsStayStopped(id, msgEnd, rounds, k + 1);
    } else {
      assert rounds[..k] == rounds;
    }
  }

  /** The `k`-th frame written is the newest snapshot of round `k`
      followed by `MSG_END`. */
  lemma {:induction false} WrittenFramesAreSnapshots(id: u8, msgEnd: u8, rounds: seq<Round>, k: nat)
    requires k < |Rounds(id, msgEnd, rounds).written|
    ensures Rounds(id, msgEnd, rounds).written[k] == Latest(rounds[k].first, rounds[k].pending) + [msgEnd]
  {
    var init := rounds[..|rounds| - 1];
    var t := Rounds(id, msgEnd, init);
    if k < |t.written| {
      WrittenFramesAreSnapshots(id, msgEnd, init, k);
      assert init[k] == rounds[k];
    } else {
      assert k == |init|;
    }
  }

  /** A command is forwarded from exactly the rounds whose write and read
      both succeeded; the first round that fails is the last one written. */
  lemma {:induction false} RoundsStopOnFailure(id: u8, msgEnd: u8, rounds: seq<Round>, k: nat)
    requires k < |Rounds(id, msgEnd, rounds).written|
    ensures k < |Rounds(id, msgEnd, rounds).sent| <==> rounds[k].writeOk && rounds[k].readOk
  {
    var init := rounds[..|rounds| - 1];
    var t := Rounds(id, msgEnd, init);
    if k < |t.written| {
      RoundsStopOnFailure(id, msgEnd, init, k);
      assert init[k] == rounds[k];
    } else {
      assert k == |init|;
    }
  }

  /** What `run_game` does to the world in one tick. */
  datatype Step = Apply(call: CommunicationCommand.Call) | Update(time: real)

  /** One tick of `run_game`: every pending command in arrival order, then
      one update. */
  method Tick(commands: seq<seq<u8>>) returns (steps: seq<Step>)
    ensures |steps| == |commands| + 1
    ensures forall k :: 0 <= k < |commands| ==> steps[k] == Apply(CommunicationCommand.Decode(commands[k]))
    ensures steps[|commands|] == Update(GameUpdateTickSeconds)
  {
    steps := [];
    var k := 0;
    while k < |commands|
      invariant 0 <= k <= |commands| && |steps| == k
      invariant forall m :: 0 <= m < k ==> steps[m] == Apply(CommunicationCommand.Decode(commands[m]))
    {
      steps := steps + [Apply(CommunicationCommand.Decode(commands[k]))];
      k := k + 1;
    }
    steps := steps + [Update(GameUpdateTickSeconds)];
  }

  /** A frame a connection forwards never matches one of the four
      one-byte commands unless its tag byte is 2 to 5 (ids 210 to 213):
      the tag is appended to whatever was read, so every command a player
      sends clears the steering of ship 1. */
  lemma ForwardedCommandsFallBack(id: u8, msgEnd: u8, input: seq<u8>)
    requires id < 210 || id > 213
    ensures CommunicationCommand.Decode(Tagged(ReadUntil(input, msgEnd), id)) == CommunicationCommand.MoveShip(1, None)
  {
    var command := ReadUntil(input, msgEnd);
    if command == [] {
      assert Tagged(command, id) == [WrappingAdd(id, 48)];
    } else {
      CommunicationCommand.LongFramesFallBack(Tagged(command, id));
    }
  }

  /** The teardown frame is two bytes long, so it falls back too. */
  lemma TeardownFallsBack(id: u8)
    ensures CommunicationCommand.Decode(Teardown(id)) == CommunicationCommand.MoveShip(1, None)
  {
    CommunicationCommand.LongFramesFallBack(Teardown(id));
  }

  /** Every frame that a session forwards, teardown included, clears the
      steering of ship 1 when the game runs it. */
  lemma SessionOnlySteersShipOne(id: u8, msgEnd: u8, rounds: seq<Round>)
    requires id < 210 || id > 213
    ensures var t := Rounds(id, msgEnd, rounds);
            var sent := t.sent + (if t.stopped then [Teardown(id)] else []);
            forall k :: 0 <= k < |sent| ==> CommunicationCommand.Decode(sent[k]) == CommunicationCommand.MoveShip(1, None)
  {
    var t := Rounds(id, msgEnd, rounds);
    var sent := t.sent + (if t.stopped then [Teardown(id)] else []);
    forall k | 0 <= k < |sent|
      ensures CommunicationCommand.Decode(sent[k]) == CommunicationCommand.MoveShip(1, None)
    {
      if k < |t.sent| {
        ForwardedCommandsFallBack(id, msgEnd, rounds[k].input);
      } else {
        TeardownFallsBack(id);
      }
    }
  }
}
