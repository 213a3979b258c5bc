/**
 * The camera node (FreenoveCam/src/main.cpp): the boot-time capture
 * configuration, the camera's frame-buffer pool, the control slot written by
 * the receive callback, and the main loop that paces frame sends and forwards
 * the control state on a heartbeat.
 */
module Camera {
  import opened Wrappers
  import opened Wire
  import SerialLine

  /** Minimum spacing between two frame attempts, in ms (about 8 fps). */
  const SEND_INTERVAL_MS: nat := 120
  /** Longest silence on the serial control forwarder, in ms. */
  const HEARTBEAT_MS: nat := 200
  /** `CAM_FB_COUNT`: double buffering. */
  const CAM_FB_COUNT: nat := 2
  /** `CAM_XCLK_HZ`: 10 MHz sensor clock. */
  const CAM_XCLK_HZ: nat := 10000000
  /** The JPEG quality both branches of the configuration choose. */
  const CONFIG_JPEG_QUALITY: int := 20
  /** The initial value of the global `CAM_JPEG_QUALITY`, before the configuration is built. */
  const INITIAL_JPEG_QUALITY: int := 45

  datatype FrameSize = FrameSizeQQVGA | FrameSizeHVGA
  datatype PixelFormat = PixFormatJpeg
  datatype FbLocation = FbInPsram | FbInDram
  datatype GrabMode = GrabWhenEmpty

  /** The fields of `camera_config_t` that are not pin assignments. */
  datatype CameraConfig = CameraConfig(
    xclkFreqHz: nat,
    pixelFormat: PixelFormat,
    fbLocation: FbLocation,
    frameSize: FrameSize,
    jpegQuality: int,
    fbCount: nat,
    grabMode: GrabMode)

  /**
   * `camCfg`: with PSRAM the frame buffers go to PSRAM at QQVGA, without it
   * to DRAM at HVGA; everything else is the same in both branches.
   */
  function CamCfg(psram: bool): (c: CameraConfig)
    ensures c.xclkFreqHz == CAM_XCLK_HZ && c.pixelFormat == PixFormatJpeg
    ensures c.fbCount == CAM_FB_COUNT && c.jpegQuality == CONFIG_JPEG_QUALITY
    ensures c.grabMode == GrabWhenEmpty
    ensures c.fbLocation == FbInPsram <==> psram
    ensures c.frameSize == FrameSizeQQVGA <==> psram
  {
    var location := if psram then FbInPsram else FbInDram;
    var size := if psram then FrameSizeQQVGA else FrameSizeHVGA;
    CameraConfig(CAM_XCLK_HZ, PixFormatJpeg, location, size, 20, CAM_FB_COUNT, GrabWhenEmpty)
  }

  /** PSRAM presence moves the buffers and changes the resolution, and nothing else. */
  lemma CamCfgBranchesDiffer()
    ensures CamCfg(true).(fbLocation := FbInDram, frameSize := FrameSizeHVGA) == CamCfg(false)
    ensures CamCfg(true).fbLocation != CamCfg(false).fbLocation
    ensures CamCfg(true).frameSize != CamCfg(false).frameSize
  {
  }

  /** The pacing test of `loop`: a frame attempt is allowed once the interval has passed. */
  predicate Paced(now: U32, lastSend: U32) {
    Elapsed(now, lastSend) >= SEND_INTERVAL_MS
  }

  /**
   * After an attempt at `t`, the iteration `d` ms later may attempt again
   * exactly when `d` reaches the interval, even across a wrap of `millis()`.
   */
  lemma NextAttemptAfterInterval(t: U32, d: U32)
    ensures Paced(AddWrap(t, d), t) <==> d >= SEND_INTERVAL_MS
  {
  }

  /** Likewise for the heartbeat: `d` ms after a forward the next one is due exactly when `d` reaches 200. */
  lemma NextHeartbeatAfterInterval(t: U32, d: U32)
    ensures Elapsed(AddWrap(t, d), t) >= HEARTBEAT_MS <==> d >= HEARTBEAT_MS
  {
  }

  /** A frame buffer handed out by the camera driver: a handle and the JPEG bytes. */
  datatype FrameBuffer = FrameBuffer(id: nat, buf: seq<Byte>)

  /**
   * The driver's pool of `capacity` frame buffers. `outstanding` holds the
   * handles given out by `Get` and not yet given back by `Return`.
   */
  class FramePool {
    const capacity: nat
    var outstanding: set<nat>
    var nextId: nat

    ghost predicate Valid()
      reads this
    {
      |outstanding| <= capacity && forall i :: i in outstanding ==> i < nextId
    }

    constructor (capacity: nat)
      ensures Valid() && this.capacity == capacity && outstanding == {}
    {
      this.capacity := capacity;
      outstanding := {};
      nextId := 0;
    }

    /**
     * `esp_camera_fb_get`: `ready` is the frame the sensor has, if any. A
     * buffer is handed out when a frame is ready and the pool is not
     * exhausted; otherwise the result is null.
     */
    method Get(ready: Option<seq<Byte>>) returns (fb: Option<FrameBuffer>)
      requires Valid()
      modifies this
      ensures Valid()
      ensures fb.Some? <==> ready.Some? && |old(outstanding)| < capacity
      ensures fb.Some? ==> fb.value.buf == ready.value && fb.value.id !in old(outstanding)
      ensures fb.Some? ==> outstanding == old(outstanding) + {fb.value.id}
      ensures fb.None? ==> outstanding == old(outstanding)
    {
      if ready.None? || |outstanding| >= capacity {
        fb := None;
        return;
      }
      assert nextId !in outstanding;
      fb := Some(FrameBuffer(nextId, ready.value));
      outstanding := outstanding + {nextId};
      nextId := nextId + 1;
    }

    /** `esp_camera_fb_return`: only a buffer that is out may be given back, so each is given back once. */
    method Return(fb: FrameBuffer)
      requires Valid() && fb.id in outstanding
      modifies this
      ensures Valid()
      ensures outstanding == old(outstanding) - {fb.id} && nextId == old(nextId)
    {
      outstanding := outstanding - {fb.id};
    }
  }

  /**
   * The shared slot `latestControl` with its flag `controlUpdated`. Each
   * method is one critical section (`noInterrupts()` ... `interrupts()`),
   * so it is one atomic step here.
   */
  class ControlStore {
    var latest: ControlState
    var updated: bool

    constructor ()
      ensures latest == ControlState(0, 0) && !updated
    {
      latest := ControlState(0, 0);
      updated := false;
    }

    /**
     * `OnDataRecv`: a packet of any length but `sizeof(controlState)` is
     * discarded; a 2-byte packet overwrites the slot, last value wins.
     */
    method OnDataRecv(data: seq<Byte>)
      modifies this
      ensures |data| != CONTROL_STATE_SIZE ==> latest == old(latest) && updated == old(updated)
      ensures |data| == CONTROL_STATE_SIZE ==>
        latest == ControlState(FromByte(data[0]), data[1]) && updated
    {
      if |data| != CONTROL_STATE_SIZE {
        return;
      }
      var tmp := Decode(data).value;
      latest := tmp;
      updated := true;
    }

    /** The loop's copy-out: the latest value, and the flag cleared. */
    method TakeSnapshot() returns (cs: ControlState)
      modifies this
      ensures cs == old(latest) && latest == old(latest) && !updated
    {
      cs := latest;
      updated := false;
    }
  }

  /** The camera node's globals, its control slot and its camera driver. */
  class CamNode {
    var lastSend: U32
    var camJpegQuality: int
    var camFrameSize: FrameSize
    var lastSentMs: U32
    const store: ControlStore
    const pool: FramePool

    ghost predicate Valid()
      reads this, pool
    {
      pool.Valid() && pool.capacity == CAM_FB_COUNT
    }

    /** The static initial values, and a camera driver with `CAM_FB_COUNT` buffers, none of them out. */
    constructor ()
      ensures Valid() && fresh(store) && fresh(pool)
      ensures lastSend == 0 && lastSentMs == 0
      ensures camJpegQuality == INITIAL_JPEG_QUALITY && camFrameSize == FrameSizeHVGA
      ensures store.latest == ControlState(0, 0) && !store.updated
      ensures pool.outstanding == {}
    {
      lastSend := 0;
      camJpegQuality := INITIAL_JPEG_QUALITY;
      camFrameSize := FrameSizeHVGA;
      lastSentMs := 0;
      store := new ControlStore();
      pool := new FramePool(CAM_FB_COUNT);
    }

    /** The part of `camCfg` with effects: the chosen quality and frame size are copied into the globals. */
    method Configure(psram: bool) returns (cfg: CameraConfig)
      modifies this
      ensures cfg == CamCfg(psram)
      ensures camJpegQuality == cfg.jpegQuality && camFrameSize == cfg.frameSize
      ensures lastSend == old(lastSend) && lastSentMs == old(lastSentMs)
    {
      cfg := CamCfg(psram);
      camJpegQuality := cfg.jpegQuality;
      camFrameSize := cfg.frameSize;
    }

    /**
     * One iteration of `loop` at time `now`, with `ready` the frame the
     * sensor holds and `hbNow` the clock when the heartbeat is tested. It
     * returns the bytes given to the radio and the line written to the
     * serial ports, if any.
     */
    method Loop(now: U32, ready: Option<seq<Byte>>, hbNow: U32) returns (frame: Option<seq<Byte>>, line: Option<string>)
      requires Valid()
      modifies this, pool, store
      ensures Valid()
      ensures pool.outstanding == old(pool.outstanding)
      ensures camJpegQuality == old(camJpegQuality) && camFrameSize == old(camFrameSize)
      // the pacing gate: nothing is touched before the interval has passed
      ensures !Paced(now, old(lastSend)) ==>
        && frame.None? && line.None?
        && lastSend == old(lastSend) && lastSentMs == old(lastSentMs)
        && unchanged(store) && unchanged(pool)
      // past the gate the attempt is recorded before the capture, whatever it gives
      ensures Paced(now, old(lastSend)) ==> lastSend == now
      ensures frame.Some? <==> Paced(now, old(lastSend)) && ready.Some? && |old(pool.outstanding)| < pool.capacity
      ensures frame.Some? ==> frame.value == ready.value
      // a failed capture ends the iteration: no snapshot, no heartbeat
      ensures frame.None? ==> line.None? && lastSentMs == old(lastSentMs) && unchanged(store)
      // a sent frame is followed by the snapshot-and-clear and the heartbeat test
      ensures frame.Some? ==> store.latest == old(store.latest) && !store.updated
      ensures line.Some? <==> frame.Some? && Elapsed(hbNow, old(lastSentMs)) >= HEARTBEAT_MS
      ensures line.Some? ==>
        line.value == SerialLine.HeartbeatLine(old(store.latest).dir, old(store.latest).button) && lastSentMs == hbNow
      ensures line.None? ==> lastSentMs == old(lastSentMs)
    {
      frame, line := None, None;
      if !Paced(now, lastSend) {
        return;
      }
      lastSend := now;

      var fb := pool.Get(ready);
      if fb.None? {
        return;
      }
      frame := Some(fb.value.buf);
      pool.Return(fb.value);

      var cs := store.TakeSnapshot();
      var heartbeat := Elapsed(hbNow, lastSentMs) >= HEARTBEAT_MS;
      if heartbeat {
        lastSentMs := hbNow;
        line := Some(SerialLine.HeartbeatLine(cs.dir, cs.button));
      }
    }
  }
}
