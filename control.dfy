/**
 * The synchronisation state machine of the M17 receiver (M17Demodulator::frame),
 * as a function on values. One call of `Step` is one call of `frame`: it takes the
 * control state of the demodulator, the outputs of the external units for the
 * current symbol and the caller's `result` frame pointer, and gives the new control
 * state, the new `result`, the frames handed back to the pool and the record of
 * which external units were consulted.
 */
module M17Control {

  /** Length of the soft-decision frame buffer (`std::array<int8_t, 368> buffer`). */
  const FrameBufferSize: nat := 368

  /** FR_SYNC gives up once the sync-loss counter exceeds this value. */
  const SyncLossLimit: int := 8

  /** Loop gain while the carrier detector reports lock, and while it does not. */
  const LockedGain: real := 0.002
  const UnlockedGain: real := 0.01

  /** Loop gain the demodulator is constructed with. */
  const InitialGain: real := 0.005

  /** A signed soft-decision byte (`int8_t`). */
  newtype i8 = x: int | -128 <= x < 128

  datatype DemodState = Unlocked | Sync | FrSync | Framing

  /** An `hdlc::IoFrame*`: null, or a frame owned through the pool. */
  datatype Handle = Null | Frame(id: nat)

  /**
   * What the external units answer for the current symbol: the carrier detector's
   * lock decision, whether the short (`sync1`) and long (`sync4`) correlators would
   * match, the framer's output (empty when the framer returns length 0), and the
   * decoder's validity, output frame and bit-error count. A unit that the state
   * machine does not consult on this call has its answer ignored.
   */
  datatype UnitOutputs = UnitOutputs(
    carrier: bool,
    sync1: bool,
    sync4: bool,
    framed: seq<i8>,
    valid: bool,
    decoded: Handle,
    decodedBer: int)

  /** The fields of the demodulator that `frame` reads or writes. */
  datatype Control = Control(
    state: DemodState,
    locked: bool,
    passAll: bool,
    syncCount: int,
    gain: real,
    ber: int)

  /** Which external units one call consulted or reset. */
  datatype Calls = Calls(reset: bool, sync1: bool, sync4: bool, framer: bool, decoder: bool)

  datatype StepOut = StepOut(next: Control, result: Handle, released: seq<Handle>, calls: Calls)

  const NoCalls := Calls(false, false, false, false, false)

  /** The state the demodulator is constructed in. */
  const Initial := Control(Unlocked, false, false, 0, InitialGain, -1)

  /**
   * The sync-loss counter never leaves [0, 9], and is at most 8 while in FR_SYNC:
   * the `++sync_count` of FR_SYNC cannot overflow.
   */
  predicate Inv(c: Control) {
    0 <= c.syncCount <= SyncLossLimit + 1 &&
    (c.state == FrSync ==> c.syncCount <= SyncLossLimit)
  }

  /**
   * FR_SYNC is only ever entered from FRAMING, which raises the locked flag. Every
   * `frame` call keeps this; `stop` can break it, since it drops the flag in any state.
   */
  predicate FrSyncLocked(c: Control) {
    c.state == FrSync ==> c.locked
  }

  /** The SYNC rule, applied in SYNC and, after the reset, on entry from UNLOCKED. */
  function SyncRule(c: Control, u: UnitOutputs, result: Handle, reset: bool): (r: StepOut)
  {
    if !u.carrier then
      StepOut(c.(state := Unlocked), result, [], NoCalls.(reset := reset))
    else if u.sync1 then
      StepOut(c.(state := Framing), result, [], NoCalls.(reset := reset, sync1 := true))
    else
      StepOut(c, result, [], NoCalls.(reset := reset, sync1 := true))
  }

  /** One call of `frame`. */
  function Step(c: Control, u: UnitOutputs, result: Handle): (r: StepOut)
    ensures r.next.passAll == c.passAll
    ensures r.next.gain == if u.carrier then LockedGain else UnlockedGain
    ensures r.calls.reset <==> c.state == Unlocked && u.carrier
    ensures r.calls.sync1 ==> u.carrier && c.state in {Unlocked, Sync}
    ensures r.calls.sync4 ==> u.carrier && c.state == FrSync
    ensures r.calls.decoder <==> c.state == Framing && |u.framed| != 0
    ensures r.next.locked && !c.locked ==> c.state == Framing
    ensures !r.calls.decoder ==> r.result == result && r.released == []
    ensures r.released != [] ==>
              r.released == [u.decoded] && u.decoded != Null && r.result == Null
    ensures r.calls.decoder && u.decoded != Null ==>
              (r.result == u.decoded) != (r.released == [u.decoded])
    ensures Inv(c) ==> Inv(r.next)
    ensures FrSyncLocked(c) ==> FrSyncLocked(r.next)
  {
    var c1 := c.(gain := if u.carrier then LockedGain else UnlockedGain);
    match c1.state
    case Unlocked =>
      if !u.carrier then StepOut(c1.(locked := false), result, [], NoCalls)
      else SyncRule(c1.(state := Sync), u, result, true)
    case Sync =>
      SyncRule(c1, u, result, false)
    case FrSync =>
      if !u.carrier then
        StepOut(c1.(state := Unlocked), result, [], NoCalls)
      else if u.sync4 then
        StepOut(c1.(state := Framing), result, [], NoCalls.(sync4 := true))
      else if c1.syncCount + 1 > SyncLossLimit then
        StepOut(c1.(syncCount := c1.syncCount + 1, state := Unlocked, locked := false),
                result, [], NoCalls.(sync4 := true))
      else
        StepOut(c1.(syncCount := c1.syncCount + 1), result, [], NoCalls.(sync4 := true))
    case Framing =>
      var c2 := c1.(locked := true);
      if |u.framed| == 0 then
        StepOut(c2, result, [], NoCalls.(framer := true))
      else
        var c3 := c2.(syncCount := 0, state := FrSync, ber := u.decodedBer);
        var calls := NoCalls.(framer := true, decoder := true);
        if !u.valid && u.decoded != Null && !c3.passAll then
          StepOut(c3, Null, [u.decoded], calls)
        else
          StepOut(c3, u.decoded, [], calls)
  }

  /** The control state after feeding the symbols `us` one call at a time. */
  function Run(c: Control, us: seq<UnitOutputs>): (r: Control)
    ensures r.passAll == c.passAll
    ensures Inv(c) ==> Inv(r)
    ensures FrSyncLocked(c) ==> FrSyncLocked(r)
    decreases |us|
  {
    if us == [] then c else Run(Step(c, us[0], Null).next, us[1..])
  }
}
