# ESP-NOW camera link: control-plane model

A Dafny model of the control plane of two ESP32 firmware nodes that talk over ESP-NOW.

- **Display/controller node** (`MetroS3/src/main.cpp`). It quantises a joystick and a button into a two-field control state. Its loop sends that state to the camera node when the state changes, or as a 200 ms heartbeat. It accepts received JPEG frames within a length guard and counts rendered frames per second.
- **Camera node** (`FreenoveCam/src/main.cpp`). It builds its capture configuration at boot from PSRAM presence. Its loop paces frame captures to one attempt per 120 ms and returns every frame buffer it takes. Its receive callback overwrites a single control slot with each valid 2-byte packet. On a 200 ms heartbeat it forwards the latest control state as a `"%d,%d\n"` line on its serial ports.

Modules:

- `Wire` (wire.dfy): the shared types. These are `int8_t`, `uint8_t` and wrapping 32-bit time (`Elapsed` is unsigned `now - since`), plus `ControlState` and its 2-byte `Encode`/`Decode`.
- `Controller` (controller.dfy): the controller node. `Quantize` is a function. `Dispatch` is the pure decision of one loop iteration, and `Run` repeats it over a trace. The class `Dispatcher` holds the globals `lastSend`/`lastSentMs`, and the class `FpsCounter` holds `frames`/`last_ms`.
- `Camera` (camera.dfy): the camera node. It has `CamCfg` and the pacing predicate. `FramePool` is the driver's buffer pool, tracking every handle given out and not yet returned. `ControlStore` is `latestControl`/`controlUpdated`, and each of its methods is one critical section. `CamNode` holds the globals and runs `loop`.
- `SerialLine` (serial_line.dfy): the heartbeat line `"%d,%d\n"` and a reader for it. The reader shows that the line determines both numbers.
- `Wrappers` (wrappers.dfy): `Option`, used for null buffers and optional outputs.

Hardware is reduced to inputs and outputs:

- Inputs: the ADC readings `x`, `y`; the button level; `millis()` values; `psramFound()`; the frame the sensor holds; received packet bytes.
- Outputs: the payload handed to `esp_now_send`; the frame bytes handed to `radio.sendData`; the serial heartbeat line; the reported frame count.

Where the design description and the code disagree, the model follows the code:

- On the camera node the heartbeat test is reached only after a frame was captured and sent (`FreenoveCam/src/main.cpp:181-187`). A stalled camera therefore also stops the serial control forwarding, although the design text says the control cadence is unaffected by the media path.
- The button is level-sensed (`MetroS3/src/main.cpp:107-113`). The comment at lines 85-87 speaks of printing it "only once". The edge-latched one-shot variant the design text mentions does not exist in these files and is not modelled.
- With PSRAM the frame size is QQVGA, although the comment says VGA. Both branches choose JPEG quality 20, so the global's initial value 45 is always overwritten by `Configure`.
- No range check is applied to a received control packet: `dir` is any `int8_t`, `button` any byte.

## Model

| member | source | states |
|---|---|---|
| `Wire.Elapsed` | FreenoveCam/src/main.cpp:172-173 | Unsigned 32-bit subtraction of timestamps: the plain difference when no wrap happened, otherwise the difference plus 2^32. |
| `Wire.AddWrap` | MetroS3/src/main.cpp:76 | `uint32_t` increment/addition wraps modulo 2^32 and is plain addition below it. |
| `Wire.ElapsedAfterAdvance` | FreenoveCam/src/main.cpp:173 | `d` ms after `t` the wrapped elapsed time is exactly `d`, so interval tests stay correct across a `millis()` wrap. |
| `Wire.ToByte` | MetroS3/src/main.cpp:52-55 | An `int8_t` is stored as its two's-complement byte: congruent modulo 256, and at least 128 exactly for negative values. |
| `Wire.FromByte` | FreenoveCam/src/main.cpp:35-38 | Reading a byte as `int8_t` gives the unique value congruent to it in [-128, 127], and it inverts `ToByte`. |
| `Wire.Encode` | MetroS3/src/main.cpp:182 | The control payload is exactly 2 bytes: `dir` as a signed byte, then `button`. |
| `Wire.Decode` | FreenoveCam/src/main.cpp:128-134 | A payload decodes iff its length is `sizeof(controlState)` = 2; then `button` is byte 1, `dir` is byte 0 as `int8_t`, with no range check; decoding then re-encoding gives back the bytes. |
| `Wire.DecodeEncode` | FreenoveCam/src/main.cpp:133-134 | The camera node decodes exactly the state the controller node encoded. |
| `Wire.EncodeInjective` | MetroS3/src/main.cpp:182 | Different control states have different payloads. |
| `Controller.Quantize` | MetroS3/src/main.cpp:88-114 | `dir` is in -2..2; `dir` is 0 iff x in 1650..2150 and y in 1660..2260; y < 1660 gives -1 and y > 2260 gives 1 whatever x is; only with y in range do x < 1650 (-2) and x > 2150 (2) apply; `button` is 1 iff the level is LOW, else 0. |
| `Controller.QuantizeRightNotPressed` | MetroS3/src/main.cpp:94-113 | x = 2200, y = 2000, button released gives `{dir: 2, button: 0}`. |
| `Controller.Dispatch` | MetroS3/src/main.cpp:176-190 | Sends iff the sample differs from the last sent state or at least 200 ms (mod 2^32) have passed. A send records the sample and the time, and a non-send changes nothing. Afterwards the last sent state always equals the sample, and less than 200 ms have elapsed since the last send. |
| `Controller.RunSendsEveryChange` | MetroS3/src/main.cpp:173-192 | Over any run of iterations, the sent states with repeats removed equal the sampled states with repeats removed: no change is lost and nothing unsampled is sent. |
| `Controller.RunEndsOnLatest` | MetroS3/src/main.cpp:180-190 | After any non-empty run, the last sent state is the latest sample, and the last send is under 200 ms before the latest iteration. |
| `Controller.RunIdleIsSilent` | MetroS3/src/main.cpp:176-180 | Unchanged input inside one heartbeat window sends nothing and leaves `lastSend` and `lastSentMs` as they were. |
| `Controller.Dispatcher.constructor` | MetroS3/src/main.cpp:57-60 | `lastSend` starts as `{0, 0}` and `lastSentMs` as 0. |
| `Controller.Dispatcher.Loop` | MetroS3/src/main.cpp:173-192 | Quantises the inputs, then sends iff the state changed or the heartbeat is due. After a send, `lastSend` is the sample and `lastSentMs` is the time, whatever the transport answered. Otherwise both are unchanged. The step agrees with `Dispatch`. |
| `Controller.FpsCounter.constructor` | MetroS3/src/main.cpp:42-43 | `frames` and `last_ms` start at 0. |
| `Controller.FpsCounter.OnDataReady` | MetroS3/src/main.cpp:64-83 | A frame is drawn iff 0 < length <= 98304; a rejected frame changes neither `frames` nor `last_ms`; an accepted one increments `frames` (mod 2^32), and when 1000 ms (mod 2^32) have passed the count is reported, `frames` reset to 0 and `last_ms` set to now. |
| `Camera.CamCfg` | FreenoveCam/src/main.cpp:79-98 | Both branches use a 10 MHz clock, JPEG pixel format, `fb_count` 2, JPEG quality 20 and grab-when-empty; PSRAM present iff buffers in PSRAM, iff frame size QQVGA (else DRAM and HVGA). |
| `Camera.CamCfgBranchesDiffer` | FreenoveCam/src/main.cpp:82-92 | The two configurations differ in buffer location and frame size and in nothing else. |
| `Camera.NextAttemptAfterInterval` | FreenoveCam/src/main.cpp:172-177 | After an attempt at `t`, the iteration `d` ms later passes the pacing test iff `d >= 120`, across a wrap of `millis()` too. |
| `Camera.NextHeartbeatAfterInterval` | FreenoveCam/src/main.cpp:206-211 | After a forward at `t`, the heartbeat is due `d` ms later iff `d >= 200`, across a wrap too. |
| `Camera.FramePool.constructor` | FreenoveCam/src/main.cpp:28 | The driver starts with `CAM_FB_COUNT` buffers and none outstanding. |
| `Camera.FramePool.Get` | FreenoveCam/src/main.cpp:181-187 | A buffer holding the sensor's frame is handed out iff a frame is ready and fewer than `fb_count` buffers are out. Its handle is new, and the outstanding count never exceeds `fb_count`. Null hands out nothing. |
| `Camera.FramePool.Return` | FreenoveCam/src/main.cpp:196 | Only an outstanding buffer can be returned, and returning removes it, so a buffer is returned at most once. |
| `Camera.ControlStore.constructor` | FreenoveCam/src/main.cpp:40-41 | `latestControl` starts as `{0, 0}`, `controlUpdated` as false. |
| `Camera.ControlStore.OnDataRecv` | FreenoveCam/src/main.cpp:121-140 | A packet whose length is not 2 leaves `latestControl` and `controlUpdated` unchanged. A 2-byte packet sets `latestControl` to `{int8(byte 0), byte 1}` and `controlUpdated` to true. |
| `Camera.ControlStore.TakeSnapshot` | FreenoveCam/src/main.cpp:201-204 | The copy equals `latestControl`, the slot keeps its value, and `controlUpdated` becomes false. |
| `Camera.CamNode.constructor` | FreenoveCam/src/main.cpp:22-45 | The globals start at their static values (`lastSend` 0, quality 45, HVGA, `lastSentMs` 0, slot `{0, 0}` not updated), with no buffer outstanding. |
| `Camera.CamNode.Configure` | FreenoveCam/src/main.cpp:93-94 | `CAM_JPEG_QUALITY` and `CAM_FRAMESIZE` end up equal to the quality and frame size of `camCfg`'s result. |
| `Camera.CamNode.Loop` | FreenoveCam/src/main.cpp:168-219 | See the list below the table. |
| `SerialLine.NatDigits` | FreenoveCam/src/main.cpp:216-217 | The decimal form of a natural number is non-empty, all digits, and has no leading zero. |
| `SerialLine.Decimal` | FreenoveCam/src/main.cpp:216-217 | `%d`: it starts with '-' iff the number is negative, the rest is digits, and it holds no ',' or newline. |
| `SerialLine.HeartbeatLine` | FreenoveCam/src/main.cpp:213-217 | The forwarded line ends in a newline. |
| `SerialLine.NatDigitsValue` | FreenoveCam/src/main.cpp:216-217 | Reading the digits back gives the number. |
| `SerialLine.DecimalRoundTrip` | FreenoveCam/src/main.cpp:216-217 | Reading a `%d` field back gives the number, negative ones included. |
| `SerialLine.HeartbeatLineRoundTrip` | FreenoveCam/src/main.cpp:213-217 | The heartbeat line `"<dir>,<button>\n"` reads back as exactly the `dir` and `button` of the snapshot. |

What the contract of `Camera.CamNode.Loop` states:

- If fewer than 120 ms (mod 2^32) have passed, the iteration returns with no frame and no line. The camera pool, the control slot, `lastSend` and `lastSentMs` are untouched.
- Otherwise `lastSend := now` is set before the capture, so it advances even when the capture then fails.
- A frame is sent iff the sensor had one and a buffer was free. The frame sent is that frame.
- Every buffer taken is returned, so the set of outstanding buffers is the same at the end of the iteration as at its start.
- A failed capture ends the iteration: no snapshot and no heartbeat.
- After a sent frame, the slot is snapshotted and `controlUpdated` is cleared.
- The heartbeat line, holding the snapshot, is written iff 200 ms (mod 2^32) have passed since `lastSentMs`. Only then is `lastSentMs` updated.
- The configuration globals do not change.

## Left out

- Camera hardware: pin map, LEDC timer/channel, `esp_camera_init` and its halt loop on failure, and the sensor setters (`set_quality`, `set_framesize`, `set_contrast`). These are driver calls; `CamCfg` models only the non-pin fields of the configuration.
- Radio: `radio.init`, `setTarget`, MAC addresses, ESPNowCam fragmentation, `esp_now_send` and `radio.sendData`. Their status only selects a log line, so the model returns the bytes each would be given, and the state does not depend on the result.
- Display: LCD init, `drawJpg` decoding and the receive buffer (`malloc` and its halt loop). `OnDataReady` models only the guard and the counter around the draw.
- Inputs: `analogRead`, `digitalRead`, `pinMode` and `psramFound` are parameters.
- Serial diagnostics: the raw hex dump and "invalid size" messages, "Capture failed", the send-status text and the PSRAM size. `OnDataSent` is empty. The FPS value is returned, not its text. The camera's heartbeat line is modelled because it is the control forwarding to the serial peer.
- The "every 5 frames" log: its counter is a local variable reset to 0 at every call, so it never fires.
- `delay` and yields: no effect on the modelled state.
- `sequenceStarted` and the display globals `W`, `H`, `dw`, `dh` are never used in logic.
- Interrupt concurrency: each `noInterrupts()`…`interrupts()` block is one atomic method of `ControlStore`, and interleavings are not modelled.
- Controller.Dispatcher.Loop: the two `millis()` reads (the heartbeat test and `lastSentMs := millis()`) are taken as one `now` per iteration.
- Camera.CamNode.Loop: the two `millis()` reads of the heartbeat (test and update) are taken as one `hbNow`. It is separate from the pacing clock `now`, because the capture and send run between them.
- Camera.FramePool.Get: when every buffer is out, the real driver waits for one with a timeout; the model returns null at once. The frame length `fb->len` is the length of the byte sequence.
- The design text's heartbeat-rate property (exactly one heartbeat per elapsed interval) is not proved as a count. `Controller.RunIdleIsSilent` and `Controller.RunEndsOnLatest` bound it from both sides per iteration: no send inside a window, and never 200 ms of unanswered silence at an iteration.
