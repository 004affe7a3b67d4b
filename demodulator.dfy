/**
 * The M17 demodulator object: the fields `frame`, `stop`, `passall` and the timing
 * step of `demod` update in place, and the 368-slot soft-decision frame buffer.
 */
module M17Demodulator {
  import opened M17Control
  import opened M17Timing

  /** Samples per ADC block (`ADC_BLOCK_SIZE`). */
  const AdcBlockSize: nat := 192

  class Demodulator {
    var demodState: DemodState
    var locked: bool
    var passAll: bool
    var syncCount: int
    var gain: real
    var ber: int
    var dt: real
    const buffer: array<i8>

    /** Frames handed back to the pool by `frame` (`hdlc::release`), in order. */
    ghost var released: seq<Handle>
    /** Number of `framer.reset(); decoder.reset();` pairs. */
    ghost var unitResets: nat
    /** Number of symbols fed to the short and to the long sync correlator. */
    ghost var sync1Queries: nat
    ghost var sync4Queries: nat
    /** Number of symbols fed to the framer, and of frames fed to the decoder. */
    ghost var framerCalls: nat
    ghost var decoderCalls: nat

    ghost predicate Valid()
      reads this
    {
      buffer.Length == FrameBufferSize &&
      Inv(Abstract()) &&
      MinDt <= dt <= MaxDt
    }

    function Abstract(): (a: Control)
      reads this
    {
      Control(demodState, locked, passAll, syncCount, gain, ber)
    }

    constructor ()
      ensures Valid() && fresh(buffer)
      ensures Abstract() == Initial && dt == IdealDt
      ensures released == [] && unitResets == 0 && sync1Queries == 0 && sync4Queries == 0
      ensures framerCalls == 0 && decoderCalls == 0
    {
      demodState := Unlocked;
      locked := false;
      passAll := false;
      syncCount := 0;
      gain := InitialGain;
      ber := -1;
      dt := IdealDt;
      buffer := new i8[FrameBufferSize];
      released := [];
      unitResets := 0;
      sync1Queries := 0;
      sync4Queries := 0;
      framerCalls := 0;
      decoderCalls := 0;
    }

    /** `stop()`: the locked flag is dropped; the hardware side is not modelled. */
    method Stop()
      requires Valid()
      modifies this`locked
      ensures Valid() && !locked
    {
      locked := false;
    }

    method Locked() returns (b: bool)
      ensures b == locked
    {
      b := locked;
    }

    /** `size()`: the number of samples the demodulator takes per block. */
    method Size() returns (n: nat)
      ensures n == AdcBlockSize
    {
      n := AdcBlockSize;
    }

    /** `passall(enabled)`: only the pass-all flag changes. */
    method PassAll(enabled: bool)
      requires Valid()
      modifies this`passAll
      ensures Valid() && passAll == enabled
    {
      passAll := enabled;
    }

    /** `std::copy(tmp, tmp + len, buffer.begin())`. */
    method CopyIntoBuffer(src: seq<i8>)
      requires |src| <= buffer.Length
      modifies buffer
      ensures buffer[..] == src + old(buffer[..])[|src|..]
    {
      var i := 0;
      while i < |src|
        invariant 0 <= i <= |src|
        invariant forall k :: 0 <= k < i ==> buffer[k] == src[k]
        invariant forall k :: i <= k < buffer.Length ==> buffer[k] == old(buffer[k])
      {
        buffer[i] := src[i];
        i := i + 1;
      }
      assert buffer[..] == src + old(buffer[..])[|src|..];
    }

    /** The SYNC case of `frame`, also reached by falling through from UNLOCKED. */
    method ApplySyncRule(carrier: bool, sync1: bool)
      modifies this`demodState, this`sync1Queries
      ensures demodState == if !carrier then Unlocked
                            else if sync1 then Framing
                            else old(demodState)
      ensures sync1Queries == old(sync1Queries) + if carrier then 1 else 0
    {
      if !carrier {
        demodState := Unlocked;
      } else {
        sync1Queries := sync1Queries + 1;
        if sync1 {
          demodState := Framing;
        }
      }
    }

    /**
     * The effect of one call of `frame`: the fields change as `Step` says, the frame
     * handed back to the pool (if any) is logged, the calls into the external units
     * are counted, and the framer output overwrites the front of the buffer exactly
     * when the decoder runs.
     */
    twostate predicate Stepped(u: UnitOutputs, result: Handle, out: Handle)
      reads this, buffer
    {
      var s := Step(old(Abstract()), u, result);
      && Valid() && dt == old(dt)
      && Abstract() == s.next
      && out == s.result
      && released == old(released) + s.released
      && unitResets == old(unitResets) + (if s.calls.reset then 1 else 0)
      && sync1Queries == old(sync1Queries) + (if s.calls.sync1 then 1 else 0)
      && sync4Queries == old(sync4Queries) + (if s.calls.sync4 then 1 else 0)
      && framerCalls == old(framerCalls) + (if s.calls.framer then 1 else 0)
      && decoderCalls == old(decoderCalls) + (if s.calls.decoder then 1 else 0)
      && if s.calls.decoder
         then |u.framed| <= buffer.Length &&
              buffer[..] == u.framed + old(buffer[..])[|u.framed|..]
         else buffer[..] == old(buffer[..])
    }

    /**
     * `frame(demod_result, result)`: one symbol through the state machine. `u` holds
     * what the carrier detector, the correlators, the framer and the decoder answer
     * for this symbol; `result` is the caller's frame pointer and `out` its new value.
     */
    method Frame(u: UnitOutputs, result: Handle) returns (out: Handle)
      requires Valid()
      requires |u.framed| <= FrameBufferSize
      modifies this, buffer
      ensures Stepped(u, result, out)
    {
      match demodState
      case Unlocked =>
        out := FrameUnlocked(u, result);
      case Sync =>
        gain := if u.carrier then LockedGain else UnlockedGain;
        ApplySyncRule(u.carrier, u.sync1);
        out := result;
      case FrSync =>
        out := FrameFrSync(u, result);
      case Framing =>
        out := FrameFraming(u, result);
    }

    /** `frame` in UNLOCKED, including the fall-through into the SYNC rule. */
    method FrameUnlocked(u: UnitOutputs, result: Handle) returns (out: Handle)
      requires Valid() && demodState == Unlocked
      modifies this
      ensures Stepped(u, result, out)
    {
      out := result;
      gain := if u.carrier then LockedGain else UnlockedGain;
      if !u.carrier {
        locked := false;
      } else {
        demodState := Sync;
        unitResets := unitResets + 1;
        ApplySyncRule(u.carrier, u.sync1);
      }
    }

    /** `frame` in FR_SYNC. */
    method FrameFrSync(u: UnitOutputs, result: Handle) returns (out: Handle)
      requires Valid() && demodState == FrSync
      modifies this
      ensures Stepped(u, result, out)
    {
      out := result;
      gain := if u.carrier then LockedGain else UnlockedGain;
      if !u.carrier {
        demodState := Unlocked;
      } else {
        sync4Queries := sync4Queries + 1;
        if u.sync4 {
          demodState := Framing;
        } else {
          syncCount := syncCount + 1;
          if syncCount > SyncLossLimit {
            demodState := Unlocked;
            locked := false;
          }
        }
      }
    }

    /** `frame` in FRAMING: the framing step, then the completed-frame handling. */
    method FrameFraming(u: UnitOutputs, result: Handle) returns (out: Handle)
      requires Valid() && demodState == Framing
      requires |u.framed| <= FrameBufferSize
      modifies this, buffer
      ensures Stepped(u, result, out)
    {
      out := result;
      gain := if u.carrier then LockedGain else UnlockedGain;
      locked := true;
      framerCalls := framerCalls + 1;
      var len := |u.framed|;
      if len != 0 {
        out := CompleteFrame(u);
      }
    }

    /**
     * A completed frame: the counter is cleared, the state becomes FR_SYNC, the frame
     * is copied into the buffer and decoded, and an invalid non-null decode is released
     * unless pass-all is on.
     */
    method CompleteFrame(u: UnitOutputs) returns (out: Handle)
      requires |u.framed| <= buffer.Length
      modifies this`syncCount, this`demodState, this`ber, this`released, this`decoderCalls, buffer
      ensures syncCount == 0 && demodState == FrSync && ber == u.decodedBer
      ensures decoderCalls == old(decoderCalls) + 1
      ensures buffer[..] == u.framed + old(buffer[..])[|u.framed|..]
      ensures if !u.valid && u.decoded != Null && !passAll
              then out == Null && released == old(released) + [u.decoded]
              else out == u.decoded && released == old(released)
    {
      syncCount := 0;
      demodState := FrSync;
      CopyIntoBuffer(u.framed);
      decoderCalls := decoderCalls + 1;
      var valid := u.valid;
      out, ber := u.decoded, u.decodedBer;
      if !valid {
        if out != Null && !passAll {
          released := released + [out];
          out := Null;
        }
      }
    }

    /**
     * The timing step of `demod`: `dt = ideal_dt - phase_estimate * gain`, then
     * saturated to [0.095, 0.105].
     */
    method AdjustTiming(phaseEstimate: real)
      requires Valid()
      modifies this`dt
      ensures Valid()
      ensures dt == NextDt(phaseEstimate, gain)
    {
      dt := IdealDt - phaseEstimate * gain;
      dt := Min(Max(MinDt, dt), MaxDt);
    }
  }
}
