/** server/src/networking/connection.rs: the byte-level helpers of a player
    connection. `init_connection` hands out the lowest free player id under
    a cap. Each round of `handle_connection` sends the newest state
    snapshot behind a 4-byte big-endian length, then forwards the player's
    command through the delimiter `0x04`, tagged with the byte `id + 48`.
    Threads, channels and sockets are left out: a handle's liveness is a
    given predicate, and each round's I/O is an input. */
module NetworkingConnection {
  import opened Common

  /** `retain(|_, handle| !handle.is_finished())`: exactly the unfinished
      handles stay, under their own ids. */
  function Live<H>(handles: map<u8, H>, finished: H -> bool): (r: map<u8, H>)
    ensures forall id :: id in r <==> id in handles && !finished(handles[id])
    ensures forall id :: id in r ==> r[id] == handles[id]
  {
    map id | id in handles && !finished(handles[id]) :: handles[id]
  }

  /** `(lo..hi).find(|&i| !keys.contains(&i))`. */
  function FirstFree(keys: set<u8>, lo: u8, hi: int): (r: Option<u8>)
    ensures r.Some? ==> lo <= r.value < hi && r.value !in keys
    ensures r.Some? ==> forall k: u8 :: lo <= k < r.value ==> k in keys
    ensures r.None? <==> forall k: u8 :: lo <= k < hi ==> k in keys
    decreases hi - lo
  {
    if hi <= lo then None
    else if lo !in keys then Some(lo)
    else if lo == 255 then None
    else FirstFree(keys, lo + 1, hi)
  }

  /** The id search as written: `max_players + 1` is a `u8` sum, which a
      release build wraps to 0 when `max_players` is 255. */
  function FreeIdAsWritten(keys: set<u8>, maxPlayers: u8): Option<u8>
  {
    FirstFree(keys, 1, WrappingAdd(maxPlayers, 1))
  }

  /** The search over `1..=max_players` that is meant. */
  function FreeId(keys: set<u8>, maxPlayers: u8): (r: Option<u8>)
    ensures r.Some? ==> 1 <= r.value <= maxPlayers && r.value !in keys
    ensures r.Some? ==> forall k: u8 :: 1 <= k < r.value ==> k in keys
    ensures r.None? <==> forall k: u8 :: 1 <= k <= maxPlayers ==> k in keys
  {
    FirstFree(keys, 1, maxPlayers + 1)
  }

  /** Finding: with a cap of 255 and no player at all, the search as
      written finds nothing, while an id is free. */
  lemma FreeIdAsWrittenMissesAtCap255()
    ensures FreeIdAsWritten({}, 255) == None
    ensures FreeId({}, 255) == Some(1)
  {
  }

  /** Below the cap of 255 the two searches agree. */
  lemma FreeIdAsWrittenAgreesBelow255(keys: set<u8>, maxPlayers: u8)
    requires maxPlayers < 255
    ensures FreeIdAsWritten(keys, maxPlayers) == FreeId(keys, maxPlayers)
  {
  }

  /** The ids `1..=n`. */
  function Slots(n: u8): (r: set<u8>)
    ensures forall k: u8 :: k in r <==> 1 <= k <= n
    ensures |r| == n
  {
    if n == 0 then {}
    else
      var r := Slots(n - 1) + {n};
      assert n !in Slots(n - 1);
      r
  }

  /** Pigeonhole: when every key is an id in `1..=max` and fewer than `max`
      are taken, an id is free. */
  lemma FreeIdFound(keys: set<u8>, maxPlayers: u8)
    requires forall k :: k in keys ==> 1 <= k <= maxPlayers
    requires |keys| < maxPlayers
    ensures FreeId(keys, maxPlayers).Some?
  {
    if FreeId(keys, maxPlayers).None? {
      var slots := Slots(maxPlayers);
      assert slots <= keys;
      SubsetCardinality(slots, keys);
      assert false;
    }
  }

  lemma {:induction false} SubsetCardinality(a: set<u8>, b: set<u8>)
    requires a <= b
    ensures |a| <= |b|
  {
    if a != {} {
      var x :| x in a;
      SubsetCardinality(a - {x}, b - {x});
    }
  }

  /** The bookkeeping of `handle_listen`: player ids and their handles. */
  class Registry<H> {
    var handles: map<u8, H>

    constructor ()
      ensures handles == map[]
    {
      handles := map[];
    }

    /** Every registered id lies in `1..=max`. */
    predicate Valid(maxPlayers: u8)
      reads this
    {
      forall id :: id in handles ==> 1 <= id <= maxPlayers
    }

    /** `init_connection`. The finished handles are dropped; at or above
        the cap the refusal message is written and nothing is allocated;
        otherwise the lowest free id comes back and nothing is written.
        The id is the one the search over `1..=max` finds, which is the
        program's own search whenever the cap is below 255. */
    method InitConnection(finished: H -> bool, maxPlayers: u8, refusal: seq<u8>)
      returns (id: Option<u8>, written: seq<u8>)
      modifies this
      ensures handles == Live(old(handles), finished)
      ensures |handles| >= maxPlayers ==> id.None? && written == refusal
      ensures |handles| < maxPlayers ==> written == [] && id == FreeId(handles.Keys, maxPlayers)
      ensures |handles| < maxPlayers && maxPlayers < 255 ==>
                id == FreeIdAsWritten(handles.Keys, maxPlayers)
      ensures old(Valid(maxPlayers)) ==> Valid(maxPlayers)
      ensures old(Valid(maxPlayers)) && |handles| < maxPlayers ==> id.Some?
    {
      handles := Live(handles, finished);
      if |handles| >= maxPlayers {
        return None, refusal;
      }
      id := FreeId(handles.Keys, maxPlayers);
      written := [];
      if maxPlayers < 255 {
        FreeIdAsWrittenAgreesBelow255(handles.Keys, maxPlayers);
      }
      if Valid(maxPlayers) {
        assert |handles.Keys| == |handles|;
        FreeIdFound(handles.Keys, maxPlayers);
      }
    }

    /** `connections.insert(id, handle)` once the player's thread runs. */
    method Register(id: u8, handle: H)
      modifies this
      ensures handles == old(handles)[id := handle]
    {
      handles := handles[id := handle];
    }
  }

  /** Registering the id that `init_connection` returned keeps every id in
      `1..=max` and adds a player that was not there. */
  lemma RegisterFreeIdStaysValid<H>(handles: map<u8, H>, maxPlayers: u8, handle: H)
    requires forall id :: id in handles ==> 1 <= id <= maxPlayers
    requires FreeId(handles.Keys, maxPlayers).Some?
    ensures var id := FreeId(handles.Keys, maxPlayers).value;
            var after := handles[id := handle];
            id !in handles && |after| == |handles| + 1 &&
            (forall k :: k in after ==> 1 <= k <= maxPlayers)
  {
  }

  /** The snapshot a round sends: the newest of the one `recv` returned and
      the ones `try_recv` drained after it. */
  function Latest(first: seq<u8>, pending: seq<seq<u8>>): (r: seq<u8>)
    ensures pending == [] ==> r == first
    ensures pending != [] ==> r == pending[|pending| - 1]
  {
    if pending == [] then first else pending[|pending| - 1]
  }

  /** The drain loop `while let Ok(msg) = try_recv() { state_msg = msg }`. */
  method Coalesce(first: seq<u8>, pending: seq<seq<u8>>) returns (state: seq<u8>)
    ensures state == Latest(first, pending)
  {
    state := first;
    var k := 0;
    while k < |pending|
      invariant 0 <= k <= |pending|
      invariant state == Latest(first, pending[..k])
    {
      state := pending[k];
      k := k + 1;
    }
    assert pending[..k] == pending;
  }

  /** `u32::to_be_bytes(len as u32)` followed by the payload. The prefix
      decodes to the payload's length when that fits in 32 bits. */
  function LengthPrefixed(payload: seq<u8>): (r: seq<u8>)
    ensures |r| == 4 + |payload| && r[4..] == payload
    ensures FromBigEndian(r[..4]) == |payload| % 0x1_0000_0000
    ensures |payload| < 0x1_0000_0000 ==> FromBigEndian(r[..4]) == |payload|
  {
    var prefix := ToBigEndian(|payload|, 4);
    BigEndianRoundTrip(|payload|, 4);
    assert Pow256(4) == 0x1_0000_0000;
    assert (prefix + payload)[..4] == prefix;
    prefix + payload
  }

  /** `read_until(delimiter)`: the input up to and including the first
      delimiter, or all of it when there is none. */
  function ReadUntil(input: seq<u8>, delimiter: u8): (r: seq<u8>)
    ensures |r| <= |input| && r == input[..|r|]
    ensures delimiter in input ==> |r| > 0 && r[|r| - 1] == delimiter && delimiter !in r[..|r| - 1]
    ensures delimiter !in input ==> r == input
  {
    if input == [] then []
    else if input[0] == delimiter then [delimiter]
    else
      var rest := ReadUntil(input[1..], delimiter);
      assert [input[0]] + rest == input[..|rest| + 1];
      [input[0]] + rest
  }

  /** `command_msg.push(id + 48)`, wrapping like a release build. */
  function Tagged(command: seq<u8>, id: u8): (r: seq<u8>)
    ensures |r| == |command| + 1 && r[..|command|] == command
    ensures id < 208 ==> r[|command|] == id + 48
  {
    command + [WrappingAdd(id, 48)]
  }

  /** What the environment does in one round: the snapshots available,
      whether the write succeeds, and what the player's socket holds. */
  datatype Round = Round(first: seq<u8>, pending: seq<seq<u8>>, writeOk: bool, input: seq<u8>, readOk: bool)

  /** What the connection has done: the frames it wrote (a failed write
      included), the tagged commands it forwarded, and whether it stopped. */
  datatype Trace = Trace(written: seq<seq<u8>>, sent: seq<seq<u8>>, stopped: bool)

  /** The trace of `handle_connection` over the rounds the environment
      provides, one round after the other. */
  function Session(id: u8, rounds: seq<Round>): (t: Trace)
    ensures |t.sent| <= |t.written| <= |rounds|
    ensures !t.stopped ==> |t.written| == |t.sent| == |rounds|
    ensures forall k :: 0 <= k < |t.written| ==> |t.written[k]| >= 4
    ensures t.stopped ==> |t.written| == |t.sent| + 1
  {
    if rounds == [] then Trace([], [], false)
    else
      var t := Session(id, rounds[..|rounds| - 1]);
      if t.stopped then t
      else
        var r := rounds[|rounds| - 1];
        var frame := LengthPrefixed(Latest(r.first, r.pending));
        if !r.writeOk then Trace(t.written + [frame], t.sent, true)
        else if !r.readOk then Trace(t.written + [frame], t.sent, true)
        else Trace(t.written + [frame], t.sent + [Tagged(ReadUntil(r.input, 4), id)], false)
  }

  /** `handle_connection`: rounds until a write or a read fails (or the
      environment has no more rounds). */
  method HandleConnection(id: u8, rounds: seq<Round>) returns (t: Trace)
    ensures t == Session(id, rounds)
  {
    t := Trace([], [], false);
    var k := 0;
    while k < |rounds| && !t.stopped
      invariant 0 <= k <= |rounds|
      invariant t == Session(id, rounds[..k])
      invariant t.stopped ==> Session(id, rounds) == t
      decreases |rounds| - k
    {
      assert rounds[..k + 1][..k] == rounds[..k];
      var r := rounds[k];
      var state := Coalesce(r.first, r.pending);
      var msg := LengthPrefixed(state);
      t := t.(written := t.written + [msg]);
      if !r.writeOk {
        t := t.(stopped := true);
      } else if !r.readOk {
        t := t.(stopped := true);
      } else {
        var command := ReadUntil(r.input, 4);
        t := t.(sent := t.sent + [Tagged(command, id)]);
      }
      k := k + 1;
      if t.stopped {
        SessionStaysStopped(id, rounds, k);
      }
    }
    if !t.stopped {
      assert rounds[..k] == rounds;
    }
  }

  /** Once the connection stopped, later rounds add nothing. */
  lemma {:induction false} SessionStaysStopped(id: u8, rounds: seq<Round>, k: nat)
    requires k <= |rounds| && Session(id, rounds[..k]).stopped
    ensures Session(id, rounds) == Session(id, rounds[..k])
    decreases |rounds| - k
  {
    if k < |rounds| {
      assert rounds[..k + 1][..k] == rounds[..k];
      SessionStaysStopped(id, rounds, k + 1);
    } else {
      assert rounds[..k] == rounds;
    }
  }

  /** The `k`-th frame written is the length-prefixed newest snapshot of
      round `k`. */
  lemma {:induction false} WrittenFramesAreSnapshots(id: u8, rounds: seq<Round>, k: nat)
    requires k < |Session(id, rounds).written|
    ensures Session(id, rounds).written[k] == LengthPrefixed(Latest(rounds[k].first, rounds[k].pending))
  {
    var init := rounds[..|rounds| - 1];
    var t := Session(id, init);
    if k < |t.written| {
      WrittenFramesAreSnapshots(id, init, k);
      assert init[k] == rounds[k];
    } else {
      assert k == |init|;
    }
  }

  /** The connection forwards a command only from a round whose write and
      read both succeeded, and when it stops, the round after the last
      forwarded command is one whose write or read failed. */
  lemma {:induction false} SessionStopsOnFailure(id: u8, rounds: seq<Round>, k: nat)
    requires k < |Session(id, rounds).written|
    ensures k < |Session(id, rounds).sent| <==> rounds[k].writeOk && rounds[k].readOk
  {
    var init := rounds[..|rounds| - 1];
    var t := Session(id, init);
    if k < |t.written| {
      SessionStopsOnFailure(id, init, k);
      assert init[k] == rounds[k];
    } else {
      assert k == |init|;
    }
  }

  /** The `k`-th forwarded command is what the player sent in round `k`
      up to the delimiter, followed by the tag byte. */
  lemma {:induction false} SentCommandsAreTagged(id: u8, rounds: seq<Round>, k: nat)
    requires k < |Session(id, rounds).sent|
    ensures Session(id, rounds).sent[k] == ReadUntil(rounds[k].input, 4) + [WrappingAdd(id, 48)]
  {
    var init := rounds[..|rounds| - 1];
    var t := Session(id, init);
    if k < |t.sent| {
      SentCommandsAreTagged(id, init, k);
      assert init[k] == rounds[k];
    } else {
      assert k == |init|;
    }
  }
}
