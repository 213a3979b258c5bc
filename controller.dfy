/**
 * The display/controller node (MetroS3/src/main.cpp): the joystick quantiser,
 * the change-or-heartbeat dispatcher that sends the control state to the
 * camera node, and the guard and frame counter on the frame-receive callback.
 */
module Controller {
  import opened Wrappers
  import opened Wire

  /** Longest silence between two control sends, in ms. */
  const HEARTBEAT_MS: nat := 200
  /** Size of the receive buffer a frame is decoded from: 96 KiB. */
  const JPG_MAX: nat := 96 * 1024
  /** Length of one frame-rate measuring window, in ms. */
  const FPS_WINDOW_MS: nat := 1000

  /** Joystick thresholds on the raw ADC readings. */
  const X_LEFT: int := 1650
  const X_RIGHT: int := 2150
  const Y_DOWN: int := 1660
  const Y_UP: int := 2260

  /** The level `digitalRead` returns for the button pin (pull-up: LOW means pressed). */
  datatype PinLevel = Low | High

  predicate InCentre(x: int, y: int) {
    X_LEFT <= x <= X_RIGHT && Y_DOWN <= y <= Y_UP
  }

  /**
   * quantizeInputs: the x chain sets LEFT/RIGHT, the y chain then overrides it
   * with DOWN/UP, and the centre box forces 0. The button follows the level.
   */
  function Quantize(x: int, y: int, level: PinLevel): (c: ControlState)
    ensures -2 <= c.dir <= 2
    ensures c.button <= 1 && (c.button == 1 <==> level == Low)
    ensures c.dir == 0 <==> InCentre(x, y)
    ensures y < Y_DOWN ==> c.dir == -1
    ensures y > Y_UP ==> c.dir == 1
    ensures Y_DOWN <= y <= Y_UP && x < X_LEFT ==> c.dir == -2
    ensures Y_DOWN <= y <= Y_UP && x > X_RIGHT ==> c.dir == 2
  {
    var afterX: Int8 := if x < X_LEFT then -2 else if x > X_RIGHT then 2 else 0;
    var afterY: Int8 := if y < Y_DOWN then -1 else if y > Y_UP then 1 else afterX;
    var dir: Int8 := if InCentre(x, y) then 0 else afterY;
    ControlState(dir, if level == Low then 1 else 0)
  }

  /** A joystick pushed right (x = 2200) with y centred (2000) and the button up reads RIGHT, not pressed. */
  lemma QuantizeRightNotPressed()
    ensures Quantize(2200, 2000, High) == ControlState(2, 0)
  {
  }

  /** The last control state sent and when it was sent: the dispatcher's globals. */
  datatype Link = Link(lastSend: ControlState, lastSentMs: U32)

  /** One loop iteration's outcome: the new globals and the payload handed to `esp_now_send`, if any. */
  datatype Dispatched = Dispatched(link: Link, packet: Option<seq<Byte>>)

  predicate Changed(cur: ControlState, last: ControlState) {
    cur.dir != last.dir || cur.button != last.button
  }

  predicate HeartbeatDue(now: U32, lastSentMs: U32) {
    Elapsed(now, lastSentMs) >= HEARTBEAT_MS
  }

  /**
   * The dispatcher's decision for the sample `cur` taken at `now`: send on
   * any change, or when the heartbeat bound has passed; a send records
   * `cur` and `now` whatever the transport answers.
   */
  function Dispatch(s: Link, cur: ControlState, now: U32): (r: Dispatched)
    ensures r.packet.Some? <==> (cur != s.lastSend || Elapsed(now, s.lastSentMs) >= HEARTBEAT_MS)
    ensures r.packet.Some? ==> r.packet.value == Encode(cur) && r.link == Link(cur, now)
    ensures r.packet.None? ==> r.link == s
    ensures r.link.lastSend == cur
    ensures Elapsed(now, r.link.lastSentMs) < HEARTBEAT_MS
  {
    if Changed(cur, s.lastSend) || HeartbeatDue(now, s.lastSentMs) then
      Dispatched(Link(cur, now), Some(Encode(cur)))
    else
      Dispatched(s, None)
  }

  /** One sampled loop iteration: the quantised input and the clock. */
  datatype Sample = Sample(cur: ControlState, now: U32)

  /** Runs the dispatcher over successive iterations: the final globals and the states sent, in order. */
  function Run(s: Link, samples: seq<Sample>): (Link, seq<ControlState>)
    decreases |samples|
  {
    if samples == [] then (s, [])
    else
      var d := Dispatch(s, samples[0].cur, samples[0].now);
      var rest := Run(d.link, samples[1..]);
      (rest.0, (if d.packet.Some? then [samples[0].cur] else []) + rest.1)
  }

  function Inputs(samples: seq<Sample>): (curs: seq<ControlState>)
    ensures |curs| == |samples|
    decreases |samples|
  {
    if samples == [] then [] else [samples[0].cur] + Inputs(samples[1..])
  }

  /** The values of `curs` that differ from the value before them (`prev` before the first). */
  function Distinct(prev: ControlState, curs: seq<ControlState>): seq<ControlState>
    decreases |curs|
  {
    if curs == [] then []
    else (if curs[0] != prev then [curs[0]] else []) + Distinct(curs[0], curs[1..])
  }

  /**
   * No change is ever dropped and nothing is invented: with repeats removed,
   * the stream of sent states equals the stream of sampled states.
   */
  lemma {:induction false} RunSendsEveryChange(s: Link, samples: seq<Sample>)
    ensures Distinct(s.lastSend, Run(s, samples).1) == Distinct(s.lastSend, Inputs(samples))
    decreases |samples|
  {
    if samples != [] {
      var cur := samples[0].cur;
      var d := Dispatch(s, cur, samples[0].now);
      RunSendsEveryChange(d.link, samples[1..]);
      var sentRest := Run(d.link, samples[1..]).1;
      assert Inputs(samples) == [cur] + Inputs(samples[1..]);
      if d.packet.Some? {
        assert Run(s, samples).1 == [cur] + sentRest;
        assert Distinct(s.lastSend, [cur] + sentRest)
            == (if cur != s.lastSend then [cur] else []) + Distinct(cur, sentRest);
      } else {
        assert d.link == s && cur == s.lastSend;
        assert Run(s, samples).1 == sentRest;
      }
      assert Distinct(s.lastSend, [cur] + Inputs(samples[1..]))
          == (if cur != s.lastSend then [cur] else []) + Distinct(cur, Inputs(samples[1..]));
    }
  }

  /**
   * After any non-empty run the last state sent is the latest sample, and the
   * last send is less than a heartbeat interval before the latest iteration.
   */
  lemma {:induction false} RunEndsOnLatest(s: Link, samples: seq<Sample>)
    requires samples != []
    ensures Run(s, samples).0.lastSend == samples[|samples| - 1].cur
    ensures Elapsed(samples[|samples| - 1].now, Run(s, samples).0.lastSentMs) < HEARTBEAT_MS
    decreases |samples|
  {
    var d := Dispatch(s, samples[0].cur, samples[0].now);
    if |samples| > 1 {
      RunEndsOnLatest(d.link, samples[1..]);
      assert samples[1..][|samples[1..]| - 1] == samples[|samples| - 1];
    }
  }

  /**
   * An idle joystick inside one heartbeat window is silent: no send, and the
   * globals do not move.
   */
  lemma {:induction false} RunIdleIsSilent(s: Link, samples: seq<Sample>)
    requires forall i :: 0 <= i < |samples| ==> samples[i].cur == s.lastSend
    requires forall i :: 0 <= i < |samples| ==> Elapsed(samples[i].now, s.lastSentMs) < HEARTBEAT_MS
    ensures Run(s, samples) == (s, [])
    decreases |samples|
  {
    if samples != [] {
      var d := Dispatch(s, samples[0].cur, samples[0].now);
      assert d.link == s && d.packet.None?;
      var rest := samples[1..];
      assert forall i :: 0 <= i < |rest| ==> rest[i] == samples[i + 1];
      RunIdleIsSilent(s, rest);
      var empty: seq<ControlState> := [];
      assert [] + Run(d.link, rest).1 == empty;
      assert Run(s, samples) == (s, empty);
    }
  }

  /** The dispatcher's globals `lastSend` and `lastSentMs`, updated by `loop`. */
  class Dispatcher {
    var lastSend: ControlState
    var lastSentMs: U32

    constructor ()
      ensures lastSend == ControlState(0, 0) && lastSentMs == 0
    {
      lastSend := ControlState(0, 0);
      lastSentMs := 0;
    }

    function State(): Link
      reads this
    {
      Link(lastSend, lastSentMs)
    }

    /**
     * One iteration of `loop`: quantise the inputs, then send on change or
     * heartbeat. The returned payload is what is handed to `esp_now_send`.
     */
    method Loop(x: int, y: int, level: PinLevel, now: U32) returns (packet: Option<seq<Byte>>)
      modifies this
      ensures var cur := Quantize(x, y, level);
        && (packet.Some? <==> (cur != old(lastSend) || Elapsed(now, old(lastSentMs)) >= HEARTBEAT_MS))
        && (packet.Some? ==> packet.value == Encode(cur) && lastSend == cur && lastSentMs == now)
        && (packet.None? ==> lastSend == old(lastSend) && lastSentMs == old(lastSentMs))
      ensures Dispatched(State(), packet) == Dispatch(old(State()), Quantize(x, y, level), now)
    {
      var cur := Quantize(x, y, level);
      var stateChanged := cur.dir != lastSend.dir || cur.button != lastSend.button;
      var heartbeat := Elapsed(now, lastSentMs) >= HEARTBEAT_MS;
      packet := None;
      if stateChanged || heartbeat {
        packet := Some(Encode(cur));
        lastSend := cur;
        lastSentMs := now;
      }
    }
  }

  /** Whether the frame-receive callback accepts a frame of `length` bytes. */
  predicate FrameLengthOk(length: U32) {
    length != 0 && length <= JPG_MAX
  }

  /** The crude frame-rate counter of `onDataReady`: globals `frames` and `last_ms`. */
  class FpsCounter {
    var frames: U32
    var lastMs: U32

    constructor ()
      ensures frames == 0 && lastMs == 0
    {
      frames := 0;
      lastMs := 0;
    }

    /**
     * `onDataReady(length)`: a frame of 0 bytes or of more than the buffer
     * holds is rejected untouched; otherwise it is drawn and counted, and
     * once a second the count is reported and restarted.
     */
    method OnDataReady(length: U32, now: U32) returns (drawn: bool, fps: Option<U32>)
      modifies this
      ensures drawn <==> 0 < length <= JPG_MAX
      ensures !drawn ==> frames == old(frames) && lastMs == old(lastMs) && fps == None
      ensures drawn && Elapsed(now, old(lastMs)) >= FPS_WINDOW_MS ==>
        fps == Some(AddWrap(old(frames), 1)) && frames == 0 && lastMs == now
      ensures drawn && Elapsed(now, old(lastMs)) < FPS_WINDOW_MS ==>
        fps == None && frames == AddWrap(old(frames), 1) && lastMs == old(lastMs)
      ensures drawn ==> Elapsed(now, lastMs) < FPS_WINDOW_MS
    {
      fps := None;
      if !FrameLengthOk(length) {
        drawn := false;
        return;
      }
      drawn := true;
      frames := AddWrap(frames, 1);
      if Elapsed(now, lastMs) >= FPS_WINDOW_MS {
        fps := Some(frames);
        frames := 0;
        lastMs := now;
      }
    }
  }
}
