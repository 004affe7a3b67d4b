/**
 * What one call of `frame` does in each state, and what a sequence of calls does.
 */
module M17Properties {
  import opened M17Control

  /** A symbol for which the carrier is locked and no correlator matches. */
  predicate Unmatched(u: UnitOutputs) {
    u.carrier && !u.sync1 && !u.sync4
  }

  // ---------------------------------------------------------------- one call

  /** UNLOCKED without carrier: stays UNLOCKED, drops the locked flag, resets nothing. */
  lemma UnlockedNoCarrier(c: Control, u: UnitOutputs, result: Handle)
    requires c.state == Unlocked && !u.carrier
    ensures Step(c, u, result).next == c.(locked := false, gain := UnlockedGain)
    ensures Step(c, u, result).calls == NoCalls
    ensures Step(c, u, result).result == result && Step(c, u, result).released == []
  {
  }

  /**
   * UNLOCKED with carrier: the framer and decoder are reset and the SYNC rule is
   * applied in the same call, so `sync1` decides between FRAMING and SYNC.
   */
  lemma UnlockedFallsThrough(c: Control, u: UnitOutputs, result: Handle)
    requires c.state == Unlocked && u.carrier
    ensures var r := Step(c, u, result);
      && r.calls.reset && r.calls.sync1
      && r.next == c.(state := if u.sync1 then Framing else Sync, gain := LockedGain)
      && r.result == result && r.released == []
  {
  }

  /** SYNC: carrier loss gives UNLOCKED, else a `sync1` match gives FRAMING, else no change. */
  lemma SyncTransitions(c: Control, u: UnitOutputs, result: Handle)
    requires c.state == Sync
    ensures var r := Step(c, u, result);
      && r.next.state == (if !u.carrier then Unlocked else if u.sync1 then Framing else Sync)
      && (r.calls.sync1 <==> u.carrier)
      && !r.calls.reset && !r.calls.sync4 && !r.calls.framer
      && r.next.locked == c.locked && r.next.syncCount == c.syncCount
      && r.result == result && r.released == []
  {
  }

  /**
   * FR_SYNC: carrier loss gives UNLOCKED and keeps the locked flag; a `sync4` match
   * gives FRAMING; otherwise the sync-loss counter goes up by one, and once it
   * exceeds 8 the state is UNLOCKED with the locked flag dropped.
   */
  lemma FrSyncTransitions(c: Control, u: UnitOutputs, result: Handle)
    requires c.state == FrSync
    ensures var r := Step(c, u, result);
      && (!u.carrier ==>
            r.next == c.(state := Unlocked, gain := UnlockedGain) && !r.calls.sync4)
      && (u.carrier && u.sync4 ==>
            r.next == c.(state := Framing, gain := LockedGain) && r.calls.sync4)
      && (u.carrier && !u.sync4 ==>
            && r.calls.sync4
            && r.next.syncCount == c.syncCount + 1
            && (r.next.state == Unlocked <==> c.syncCount + 1 > SyncLossLimit)
            && (r.next.state == FrSync <==> c.syncCount + 1 <= SyncLossLimit)
            && r.next.locked == (c.locked && c.syncCount + 1 <= SyncLossLimit))
      && r.result == result && r.released == [] && !r.calls.sync1
  {
  }

  /**
   * FRAMING: the locked flag is raised; when the framer returns a frame the counter
   * is cleared and the state becomes FR_SYNC whatever the decoder says; otherwise
   * the state stays FRAMING.
   */
  lemma FramingStep(c: Control, u: UnitOutputs, result: Handle)
    requires c.state == Framing
    ensures var r := Step(c, u, result);
      && r.next.locked && r.calls.framer
      && (|u.framed| != 0 ==>
            r.next == c.(state := FrSync, locked := true, syncCount := 0,
                         gain := r.next.gain, ber := u.decodedBer))
      && (|u.framed| == 0 ==>
            r.next == c.(locked := true, gain := r.next.gain) && r.result == result)
  {
  }

  /**
   * The release-or-emit decision on a completed frame: an invalid, non-null decode
   * with pass-all off is released once and `result` is cleared; a valid decode, or
   * pass-all on, leaves `result` as the decoder produced it.
   */
  lemma ReleaseOrEmit(c: Control, u: UnitOutputs, result: Handle)
    requires c.state == Framing && |u.framed| != 0
    ensures var r := Step(c, u, result);
      && ((!u.valid && u.decoded != Null && !c.passAll) <==>
            r.released == [u.decoded] && r.result == Null && u.decoded != Null)
      && (u.valid || c.passAll || u.decoded == Null ==>
            r.result == u.decoded && r.released == [])
  {
  }

  /**
   * The locked flag is not tied to FRAMING: losing the carrier in FR_SYNC leaves it
   * raised in UNLOCKED, and regaining the carrier carries it into SYNC.
   */
  lemma LockedOutsideFraming(c: Control, u1: UnitOutputs, u2: UnitOutputs)
    requires c.state == FrSync && c.locked
    requires !u1.carrier && u2.carrier && !u2.sync1
    ensures Step(c, u1, Null).next.state == Unlocked
    ensures Step(c, u1, Null).next.locked
    ensures Step(Step(c, u1, Null).next, u2, Null).next.state == Sync
    ensures Step(Step(c, u1, Null).next, u2, Null).next.locked
  {
  }

  // ------------------------------------------------------------ many calls

  lemma {:induction false} RunAppend(c: Control, xs: seq<UnitOutputs>, ys: seq<UnitOutputs>)
    ensures Run(c, xs + ys) == Run(Run(c, xs), ys)
    decreases |xs|
  {
    if xs == [] {
      assert xs + ys == ys;
    } else {
      assert (xs + ys)[0] == xs[0];
      assert (xs + ys)[1..] == xs[1..] + ys;
      RunAppend(Step(c, xs[0], Null).next, xs[1..], ys);
    }
  }

  /** Without carrier, UNLOCKED is kept indefinitely and the locked flag is down. */
  lemma {:induction false} NoCarrierStaysUnlocked(c: Control, us: seq<UnitOutputs>)
    requires c.state == Unlocked
    requires forall i :: 0 <= i < |us| ==> !us[i].carrier
    ensures Run(c, us).state == Unlocked
    ensures Run(c, us).syncCount == c.syncCount
    ensures us != [] ==> !Run(c, us).locked
    decreases |us|
  {
    if us != [] {
      var c1 := Step(c, us[0], Null).next;
      assert c1.state == Unlocked && !c1.locked && c1.syncCount == c.syncCount;
      NoCarrierStaysUnlocked(c1, us[1..]);
    }
  }

  /** While the carrier holds and `sync1` does not match, SYNC is kept. */
  lemma {:induction false} SyncWaits(c: Control, us: seq<UnitOutputs>)
    requires c.state == Sync
    requires forall i :: 0 <= i < |us| ==> us[i].carrier && !us[i].sync1
    ensures Run(c, us).state == Sync
    ensures Run(c, us).locked == c.locked
    decreases |us|
  {
    if us != [] {
      SyncWaits(Step(c, us[0], Null).next, us[1..]);
    }
  }

  /**
   * Acquisition: from UNLOCKED, a locked carrier held for `|wait|` symbols without
   * a short sync match, followed by one that matches, ends in FRAMING.
   */
  lemma Acquisition(c: Control, wait: seq<UnitOutputs>, hit: UnitOutputs)
    requires c.state == Unlocked
    requires forall i :: 0 <= i < |wait| ==> wait[i].carrier && !wait[i].sync1
    requires hit.carrier && hit.sync1
    ensures Run(c, wait + [hit]).state == Framing
  {
    RunAppend(c, wait, [hit]);
    if wait == [] {
      assert Run(c, [hit]) == Step(c, hit, Null).next;
    } else {
      var c1 := Step(c, wait[0], Null).next;
      assert c1.state == Sync;
      SyncWaits(c1, wait[1..]);
      assert Run(c, wait) == Run(c1, wait[1..]);
      var c2 := Run(c, wait);
      assert Run(c2, [hit]) == Step(c2, hit, Null).next;
    }
  }

  /**
   * In FR_SYNC, each locked symbol without a `sync4` match raises the counter by one
   * and keeps FR_SYNC as long as the counter stays at most 8.
   */
  lemma {:induction false} FrSyncCounts(c: Control, us: seq<UnitOutputs>)
    requires c.state == FrSync && 0 <= c.syncCount
    requires c.syncCount + |us| <= SyncLossLimit
    requires forall i :: 0 <= i < |us| ==> Unmatched(us[i])
    ensures Run(c, us).state == FrSync
    ensures Run(c, us).syncCount == c.syncCount + |us|
    ensures Run(c, us).locked == c.locked
    decreases |us|
  {
    if us != [] {
      FrSyncCounts(Step(c, us[0], Null).next, us[1..]);
    }
  }

  /**
   * The sync-loss timeout: entering FR_SYNC with the counter at 0, eight unmatched
   * locked symbols keep FR_SYNC and the ninth returns to UNLOCKED with the locked
   * flag dropped.
   */
  lemma FrSyncTimeout(c: Control, us: seq<UnitOutputs>)
    requires c.state == FrSync && c.syncCount == 0
    requires |us| == SyncLossLimit + 1
    requires forall i :: 0 <= i < |us| ==> Unmatched(us[i])
    ensures Run(c, us[..SyncLossLimit]).state == FrSync
    ensures Run(c, us).state == Unlocked
    ensures !Run(c, us).locked
  {
    var prefix := us[..SyncLossLimit];
    FrSyncCounts(c, prefix);
    var c8 := Run(c, prefix);
    assert us == prefix + [us[SyncLossLimit]];
    RunAppend(c, prefix, [us[SyncLossLimit]]);
    assert Run(c8, [us[SyncLossLimit]]) == Step(c8, us[SyncLossLimit], Null).next;
  }

  /**
   * Reachable from the initial state: acquire, complete one frame, lose the carrier.
   * The demodulator is then UNLOCKED while `locked()` still reports true.
   */
  lemma LockedAfterCarrierLoss(acquire: UnitOutputs, complete: UnitOutputs, lose: UnitOutputs)
    requires acquire.carrier && acquire.sync1
    requires complete.carrier && |complete.framed| != 0
    requires !lose.carrier
    ensures Run(Initial, [acquire, complete, lose]).state == Unlocked
    ensures Run(Initial, [acquire, complete, lose]).locked
  {
    var c1 := Step(Initial, acquire, Null).next;
    var c2 := Step(c1, complete, Null).next;
    var c3 := Step(c2, lose, Null).next;
    assert c3.state == Unlocked && c3.locked;
    assert [acquire, complete, lose][1..] == [complete, lose];
    assert [complete, lose][1..] == [lose];
    assert Run(c2, [lose]) == Run(c3, []);
  }
}
