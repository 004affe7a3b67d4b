# M17 receiver synchronisation, modelled in Dafny

This project models the control core of the M17 demodulator of the Mobilinkd TNC3
firmware (`TNC/M17Demodulator.h`). Each demodulated symbol goes through `frame`. That
function drives a four-state machine: UNLOCKED, SYNC, FR_SYNC and FRAMING. It keeps
the locked flag, the FR_SYNC sync-loss counter, the PLL loop gain and the last
bit-error count. When the framer completes a frame, it copies the frame into the
368-slot soft-decision buffer, runs the decoder, and decides whether the decoded
frame is released back to the pool or handed to the caller. Around it sit the
control calls `stop`, `locked`, `size` and `passall`, and the saturation of the PLL
timing step `dt` inside `demod`.

Files:

- `control.dfy` (module `M17Control`) holds the state machine as values. `Control`
  is the demodulator's control fields. `UnitOutputs` is what the external units answer
  for one symbol. `Step` is one call of `frame`. `Run` is a sequence of calls. `Inv`
  says the sync-loss counter stays in [0, 9], and at most 8 in FR_SYNC.
- `properties.dfy` (module `M17Properties`) holds the transition rules of each state
  and the release-or-emit decision, one call at a time. It also holds the multi-call
  properties: no carrier keeps UNLOCKED, acquisition, and the FR_SYNC timeout.
- `timing.dfy` (module `M17Timing`) holds the `dt` update and its saturation to
  [0.095, 0.105], over reals.
- `demodulator.dfy` (module `M17Demodulator`) holds the `Demodulator` class. Its fields
  are updated in place, and the frame buffer is an `array`. Every `frame` call is proved
  to change the fields exactly as `Step` says (the two-state predicate `Stepped`). The
  copy loop is proved to overwrite the first `len` buffer slots with the framer output
  and to leave the rest unchanged.

The external units are parameters of each call, gathered in `UnitOutputs`. These are
the carrier detector `dcd`, the correlators `sync1` and `sync4`, the framer and the
decoder. `Step` records which of them were consulted or reset (`Calls`). The class
counts each of these five events in a ghost counter: framer-and-decoder resets,
`sync1` and `sync4` queries, framer calls and decoder calls. `hdlc::release` is a
ghost log of released frames.

Three behaviours of the code are worth stating outright:

- `locked()` is not tied to FRAMING. Losing the carrier in FR_SYNC (lines 144-152) goes
  to UNLOCKED without clearing `locked_`, and regaining the carrier carries the flag
  into SYNC. `LockedOutsideFraming` and `LockedAfterCarrierLoss` show this, the second
  from the initial state. What does hold is `Step`'s postcondition: the flag only
  rises in FRAMING.
- From a counter of 0, FR_SYNC gives up on the ninth unmatched locked symbol, because
  the test is `++sync_count > 8` (line 157). The eighth keeps FR_SYNC (`FrSyncTimeout`).
- Entering SYNC resets only the framer and the decoder (lines 125-127). `buffer` keeps
  its contents until the next completed frame overwrites its front.

## Model

| member | source | states |
|---|---|---|
| `M17Control.Step` | TNC/M17Demodulator.h:111-187 | One `frame` call never changes pass-all. It sets the gain to 0.002 with carrier and 0.01 without. It resets framer and decoder exactly when leaving UNLOCKED with carrier. `sync1` is consulted only with carrier in UNLOCKED or SYNC, and `sync4` only with carrier in FR_SYNC. The decoder runs exactly when FRAMING gets a non-empty frame. The locked flag rises only in FRAMING. Without a decode, `result` is untouched and nothing is released. A release is of the decoded frame, which is non-null, and clears `result`. A non-null decode is released or emitted, never both. The sync-counter bounds and "FR_SYNC implies locked" are preserved. |
| `M17Control.Run` | TNC/M17Demodulator.h:111-187 | Over any sequence of calls, pass-all is unchanged and the sync-counter invariant and "FR_SYNC implies locked" are kept. |
| `M17Properties.UnlockedNoCarrier` | TNC/M17Demodulator.h:120-124 | UNLOCKED without carrier stays UNLOCKED and clears the locked flag. Only the gain also changes. No unit is consulted or reset, and `result` is untouched. |
| `M17Properties.UnlockedFallsThrough` | TNC/M17Demodulator.h:125-142 | UNLOCKED with carrier resets framer and decoder and consults `sync1` in the same call. It ends in FRAMING if `sync1` matches and in SYNC otherwise; no other field but the gain changes. |
| `M17Properties.SyncTransitions` | TNC/M17Demodulator.h:129-142 | SYNC: carrier loss gives UNLOCKED, else a `sync1` match gives FRAMING, else SYNC stays. `sync1` is consulted if and only if the carrier is locked. Nothing is reset, and the locked flag and counter are unchanged. |
| `M17Properties.FrSyncTransitions` | TNC/M17Demodulator.h:143-162 | FR_SYNC: carrier loss gives UNLOCKED and keeps the locked flag. A `sync4` match gives FRAMING. Otherwise the counter goes up by one; the state becomes UNLOCKED with the flag dropped exactly when the counter exceeds 8, and stays FR_SYNC otherwise. |
| `M17Properties.FramingStep` | TNC/M17Demodulator.h:163-173 | FRAMING raises the locked flag and calls the framer. With a non-zero length, the state becomes FR_SYNC with the counter at 0 and `ber` from the decoder, whatever the validity. With length 0, the state stays FRAMING and `result` is untouched. |
| `M17Properties.ReleaseOrEmit` | TNC/M17Demodulator.h:174-183 | On a completed frame, the decoded frame is released once and `result` cleared if and only if the decode is invalid, non-null and pass-all is off. If the decode is valid, or pass-all is on, `result` is the decoder's frame and nothing is released. |
| `M17Properties.LockedOutsideFraming` | TNC/M17Demodulator.h:143-152 | From FR_SYNC with the flag raised, a carrier loss gives UNLOCKED with the flag still raised. A following locked, unmatched symbol gives SYNC with the flag still raised. |
| `M17Properties.NoCarrierStaysUnlocked` | TNC/M17Demodulator.h:120-124 | From UNLOCKED, any number of symbols without carrier keeps UNLOCKED and the counter. After at least one, the locked flag is down. |
| `M17Properties.SyncWaits` | TNC/M17Demodulator.h:129-142 | In SYNC, any number of locked symbols without a `sync1` match keeps SYNC and the locked flag. |
| `M17Properties.Acquisition` | TNC/M17Demodulator.h:120-142 | From UNLOCKED, k locked unmatched symbols followed by one `sync1` match end in FRAMING after k+1 calls. |
| `M17Properties.FrSyncCounts` | TNC/M17Demodulator.h:153-161 | In FR_SYNC, n locked symbols without a `sync4` match keep FR_SYNC and add n to the counter while it stays at most 8. |
| `M17Properties.FrSyncTimeout` | TNC/M17Demodulator.h:157-171 | Entering FR_SYNC with the counter at 0, 8 unmatched locked symbols keep FR_SYNC. The ninth gives UNLOCKED with the locked flag down. |
| `M17Properties.LockedAfterCarrierLoss` | TNC/M17Demodulator.h:120-152 | From the initial state, the sequence acquire, complete a frame, lose the carrier ends in UNLOCKED with `locked()` true. |
| `M17Timing.ClampDt` | TNC/M17Demodulator.h:214 | The result lies in [0.095, 0.105]. It equals the input inside the band, 0.095 below it and 0.105 above it. |
| `M17Timing.NextDt` | TNC/M17Demodulator.h:213-214 | The new `dt` lies in [0.095, 0.105] for every phase estimate and gain. It equals `0.1 - phase * gain` while that correction is within 0.005 in size, and saturates at the lower or upper end otherwise. |
| `M17Timing.ClampDtMonotone` | TNC/M17Demodulator.h:214 | Saturating to the band preserves order: a smaller input never gives a larger result. |
| `M17Timing.NextDtMonotone` | TNC/M17Demodulator.h:213-214 | With a non-negative gain, a larger phase estimate never gives a larger `dt`. |
| `M17Demodulator.Demodulator.constructor` | TNC/M17Demodulator.h:57-83 | The demodulator starts UNLOCKED. The locked flag and pass-all are off, the counter is 0, the gain 0.005, `ber` -1 and `dt` 0.1. No frame has been released. |
| `M17Demodulator.Demodulator.Stop` | TNC/M17Demodulator.h:89-94 | The locked flag is false afterwards, and no other field changes. |
| `M17Demodulator.Demodulator.Locked` | TNC/M17Demodulator.h:96-99 | Returns the locked flag. |
| `M17Demodulator.Demodulator.Size` | TNC/M17Demodulator.h:101-104 | Returns 192, the ADC block size. |
| `M17Demodulator.Demodulator.PassAll` | TNC/M17Demodulator.h:106-109 | Sets pass-all to the argument, and no other field changes. |
| `M17Demodulator.Demodulator.CopyIntoBuffer` | TNC/M17Demodulator.h:173 | The first `len` slots of the buffer become the framer output, and the others are unchanged. |
| `M17Demodulator.Demodulator.ApplySyncRule` | TNC/M17Demodulator.h:129-142 | The SYNC rule on the state field: carrier loss gives UNLOCKED, else a `sync1` match gives FRAMING, else no change. `sync1` is counted as consulted exactly when the carrier is locked. |
| `M17Demodulator.Demodulator.Frame` | TNC/M17Demodulator.h:111-187 | The fields become `Step`'s next state and `result` becomes `Step`'s result. A released frame is appended to the release log. Resets, correlator queries, framer calls and decoder calls are counted. The buffer is overwritten at the front by the framer output exactly when the decoder runs. The counter invariant and the `dt` band are kept. |
| `M17Demodulator.Demodulator.FrameUnlocked` | TNC/M17Demodulator.h:120-142 | The UNLOCKED case, with its fall-through into the SYNC rule, changes the fields as `Step` says. |
| `M17Demodulator.Demodulator.FrameFrSync` | TNC/M17Demodulator.h:143-162 | The FR_SYNC case changes the fields as `Step` says. |
| `M17Demodulator.Demodulator.FrameFraming` | TNC/M17Demodulator.h:163-186 | The FRAMING case changes the fields, `result`, the release log, the call counters and the buffer as `Step` says. |
| `M17Demodulator.Demodulator.CompleteFrame` | TNC/M17Demodulator.h:169-184 | On a completed frame, the counter becomes 0, the state FR_SYNC and `ber` the decoder's count. The buffer front becomes the framer output and the rest is unchanged. An invalid, non-null decode with pass-all off is appended to the release log and `result` becomes null; otherwise `result` is the decoder's frame and nothing is released. |
| `M17Demodulator.Demodulator.AdjustTiming` | TNC/M17Demodulator.h:213-214 | `dt` becomes `NextDt` of the phase estimate and the current gain, so it stays in [0.095, 0.105]. |

## Left out

- The hardware side of `stop` (stopping the audio loopback and the ADC) is left out. `Stop` models only the locked flag.
- `readBatteryLevel` is left out. It is ADC, timer and GPIO register access with delays.
- `start` and `operator()` are declared but not defined in `TNC/M17Demodulator.h`, so they are not part of this model.
- The signal conditioning in `demod` is left out: sample scaling, deviation and frequency correction, the phase estimate and its sign correction, the accumulation of `t`, and symbol/EVM slicing. The sign-corrected phase estimate is a parameter of `AdjustTiming`.
- The external units are left out: the phase estimator, the deviation and frequency correctors, the symbol EVM slicer, the carrier detector, the sync correlators, the framer, the decoder, `llr` and `from_4fsk`. Their bodies are not part of this model. Their answers for the current symbol are parameters (`UnitOutputs`). Their internal state is reduced to ghost counts of resets and correlator queries.
- `Frame` requires the framer output to be at most 368 long. This is the capacity of `M17Framer<368>`; the copy into the buffer relies on it.
- The `ber` out-argument of the decoder is taken to be always written. The decoder's answer is the `decodedBer` parameter.
- The frame pool (`TNC/HdlcFrame.cpp`: `acquire`, `release`, `IoFramePool`) is left out because its implementation is not shown. A release is recorded in the ghost log `released`. Pool capacity, exhaustion and the error handler are not modelled. Nor is the pool's safety across execution contexts, which is about concurrency.
- Logging (`INFO`, `WARN`) and the function-local `count` used to decimate it are left out. They do not affect control flow.
- `AdjustTiming` and `NextDt` use exact reals. They do not model single-precision rounding, so `0.095f` and `0.105f` are taken as exact. They do not model NaN either; `std::max(0.095f, NaN)` would yield 0.095f, which still lies in the band.
- The `int` sync-loss counter is unbounded. `Inv` shows that it never exceeds 9, so 32-bit overflow cannot occur.
