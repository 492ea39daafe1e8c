/**
 What holds in every interleaving of the dispatch protocol: \Seen is set only after
 an onEmail call returned, two listener workers of one connection never hold the same UID,
 and a UID is dispatched again only after its previous onEmail call returned and its
 confirmation was consumed. ListenerLimits shows how far these go.
 */
module ListenerSafety {
  import opened ListenerProtocol

  // ----- \Seen only after onEmail returned -----------------------------------------------

  predicate Past(w: Worker) {
    w.phase in {Returned, Marked, Confirmed}
  }

  /** The UIDs the connection goroutine has taken off seenCh and not stored yet. */
  function TakenMarks(s: State): seq<Uid> {
    if s.control.DrainMarks? || s.control.Storing? then s.control.batch else []
  }

  ghost predicate RecoveryOwes(s: State, u: Uid) {
    exists id :: id in s.workers && s.workers[id].origin.FromRecovery? && s.workers[id].uid == u
  }

  /** For everything on its way to becoming a \Seen flag some onEmail call has returned. */
  ghost predicate MarksEarned(s: State) {
    && (forall id :: id in s.workers && Past(s.workers[id]) ==> s.workers[id].uid in s.returned)
    && (forall u :: u in s.seenCh ==> u in s.returned)
    && (forall u :: u in TakenMarks(s) ==> u in s.returned)
    && s.marked <= s.returned
    && (s.recovery.Sending? ==> forall u :: u in s.recovery.sent ==> u in s.returned || RecoveryOwes(s, u))
    && (s.recovery.Marking? ==> forall u :: u in s.recovery.sent ==> u in s.returned)
  }

  /** A recovery worker leaves only after its onEmail returned, and never changes its UID. */
  lemma OwedOrReturned(s: State, l: Label, u: Uid)
    requires Enabled(s, l) && MarksEarned(s) && RecoveryOwes(s, u)
    requires forall id :: id in s.workers ==> id < s.nextId
    ensures u in Apply(s, l).returned || RecoveryOwes(Apply(s, l), u)
  {
    var id :| id in s.workers && s.workers[id].origin.FromRecovery? && s.workers[id].uid == u;
    var t := Apply(s, l);
    if id in t.workers {
      assert t.workers[id].origin.FromRecovery? && t.workers[id].uid == u;
    } else {
      assert l == Release(id);
    }
  }

  lemma StepKeepsMarksEarned(s: State, l: Label)
    requires MarksEarned(s)
    requires forall id :: id in s.workers ==> id < s.nextId
    ensures MarksEarned(Step(s, l))
  {
    if Enabled(s, l) {
      var t := Apply(s, l);
      RecoverySideKept(s, l);
      if t.recovery.Sending? && s.recovery.Sending? {
        forall u | u in t.recovery.sent ensures u in t.returned || RecoveryOwes(t, u) {
          if u in s.recovery.sent {
            if u !in s.returned { OwedOrReturned(s, l, u); }
          } else {
            assert t.workers[s.nextId] == Worker(FromRecovery, u, Queued);
          }
        }
      }
      WorkerSideKept(s, l);
      ChannelSideKept(s, l);
      ListenerSideKept(s, l);
    }
  }

  lemma RecoverySideKept(s: State, l: Label)
    requires MarksEarned(s) && Enabled(s, l)
    ensures var t := Apply(s, l);
      && s.returned <= t.returned
      && (t.recovery.Marking? ==> forall u :: u in t.recovery.sent ==> u in t.returned)
      && (t.recovery.Sending? && !s.recovery.Sending? ==> t.recovery.sent == [])
  {
    if l.RecoveryWait? {
      forall u | u in s.recovery.sent ensures u in s.returned {
        assert forall id :: id in s.workers && s.workers[id].origin.FromRecovery? ==> id in Ids(s.workers, OfRecovery);
      }
    }
  }

  lemma WorkerSideKept(s: State, l: Label)
    requires MarksEarned(s) && Enabled(s, l)
    ensures var t := Apply(s, l);
      forall id :: id in t.workers && Past(t.workers[id]) ==> t.workers[id].uid in t.returned
  {
  }

  lemma ListenerSideKept(s: State, l: Label)
    requires MarksEarned(s) && Enabled(s, l)
    ensures var t := Apply(s, l);
      (forall u :: u in TakenMarks(t) ==> u in t.returned) && t.marked <= t.returned
  {
  }

  lemma ChannelSideKept(s: State, l: Label)
    requires MarksEarned(s) && Enabled(s, l)
    ensures var t := Apply(s, l); forall u :: u in t.seenCh ==> u in t.returned
  {
  }

  lemma {:induction false} MarksEarnedFrom(s: State, schedule: seq<Label>, k: nat)
    requires SlotsAccounted(s) && MarksEarned(s) && k <= |schedule|
    ensures MarksEarned(StateAt(s, schedule, k))
  {
    if k > 0 {
      MarksEarnedFrom(s, schedule, k - 1);
      SlotsAccountedFrom(s, schedule, k - 1);
      StepKeepsMarksEarned(StateAt(s, schedule, k - 1), schedule[k - 1]);
    }
  }

  /** Label `l`, taken in state `s`, is the return of an onEmail call for `u`. */
  predicate Returns(s: State, l: Label, u: Uid) {
    (l.Finish? || l.CancelScan?) && Enabled(s, l) && s.workers[l.id].uid == u
  }

  predicate ReturnsAt(s: State, schedule: seq<Label>, i: nat, u: Uid)
    requires i < |schedule|
  {
    Returns(StateAt(s, schedule, i), schedule[i], u)
  }

  lemma ReturnedAfterStep(s: State, l: Label, u: Uid)
    ensures u in Step(s, l).returned <==> u in s.returned || Returns(s, l, u)
  {
  }

  /** The history variable `returned` says what it should. */
  lemma {:induction false} ReturnedMeansReturned(s: State, schedule: seq<Label>, k: nat, u: Uid)
    requires k <= |schedule|
    ensures u in StateAt(s, schedule, k).returned <==>
      u in s.returned || exists i: nat :: i < k && ReturnsAt(s, schedule, i, u)
  {
    if k > 0 {
      ReturnedMeansReturned(s, schedule, k - 1, u);
      ReturnedAfterStep(StateAt(s, schedule, k - 1), schedule[k - 1], u);
      assert ReturnsAt(s, schedule, k - 1, u) <==> Returns(StateAt(s, schedule, k - 1), schedule[k - 1], u);
    }
  }

  lemma InitialIsGood(maxScans: nat)
    ensures SlotsAccounted(Initial(maxScans)) && MarksEarned(Initial(maxScans))
  {
    assert Ids(Initial(maxScans).workers, OfListener) == {};
    assert Ids(Initial(maxScans).workers, OfRecovery) == {};
    assert Ids(Initial(maxScans).workers, HoldsScanSlot) == {};
  }

  /** Over all runs, including reconnects and recovery scans: whenever the program has
      flagged a UID \Seen, some onEmail call for that UID returned earlier, after its scan or
      because it was cancelled while it waited for a scan slot. */
  lemma SeenOnlyAfterReturn(maxScans: nat, schedule: seq<Label>, u: Uid)
    requires u in Run(Initial(maxScans), schedule).marked
    ensures exists i: nat :: i < |schedule| && ReturnsAt(Initial(maxScans), schedule, i, u)
  {
    InitialIsGood(maxScans);
    MarksEarnedFrom(Initial(maxScans), schedule, |schedule|);
    ReturnedMeansReturned(Initial(maxScans), schedule, |schedule|, u);
  }

  /** So if no call for this message is cancelled before its scan, a flagged message has been
      scanned to the end. */
  lemma SeenOnlyAfterScan(maxScans: nat, schedule: seq<Label>, u: Uid) returns (i: nat)
    requires u in Run(Initial(maxScans), schedule).marked
    requires forall k: nat :: k < |schedule| && ReturnsAt(Initial(maxScans), schedule, k, u) ==> !schedule[k].CancelScan?
    ensures i < |schedule| && schedule[i].Finish? && ReturnsAt(Initial(maxScans), schedule, i, u)
  {
    SeenOnlyAfterReturn(maxScans, schedule, u);
    i :| i < |schedule| && ReturnsAt(Initial(maxScans), schedule, i, u);
  }

  // ----- Non-overlap within one connection --------------------------------------

  /** Each UID in flight has at most one claim on it: a worker that has not confirmed, a
      confirmation in the channel, or the loop waiting for a slot. */
  ghost predicate SingleClaim(s: State) {
    SingleClaimBeyond(s, {})
  }

  predicate Claims(s: State, id: nat, settled: set<Uid>) {
    id in s.workers && Active(s.workers[id]) && s.workers[id].uid !in settled
  }

  /** The same for the UIDs that are not settled, as those of leftover workers may be. */
  ghost predicate SingleClaimBeyond(s: State, settled: set<Uid>) {
    && (forall id :: Claims(s, id, settled) ==>
          s.workers[id].uid in s.inFlight && s.workers[id].uid !in s.confirmCh)
    && (forall i, j :: Claims(s, i, settled) && Claims(s, j, settled) && i != j ==> s.workers[i].uid != s.workers[j].uid)
    && (forall i, j :: 0 <= i < j < |s.confirmCh| && s.confirmCh[i] !in settled ==> s.confirmCh[i] != s.confirmCh[j])
    && (forall u :: u in s.confirmCh && u !in settled ==> u in s.inFlight)
    && (s.control.AwaitSlot? ==>
          && s.control.uid !in settled
          && s.control.uid in s.inFlight
          && s.control.uid !in s.confirmCh
          && forall id :: Claims(s, id, settled) ==> s.workers[id].uid != s.control.uid)
  }

  /** Every step other than a reconnect keeps this, as long as no settled UID is admitted. */
  lemma StepKeepsSingleClaim(s: State, l: Label, settled: set<Uid>)
    requires SingleClaimBeyond(s, settled) && !l.Connect? && forall u :: u in settled ==> !Admits(s, l, u)
    requires forall id :: id in s.workers ==> id < s.nextId
    ensures SingleClaimBeyond(Step(s, l), settled)
  {
    if Enabled(s, l) {
      if l.PullConfirm? {
        PullConfirmKeepsClaims(s, settled);
      } else if l.SendConfirm? {
        SendConfirmKeepsClaims(s, l.id, settled);
      } else if l.Admit? {
        AdmitKeepsClaims(s, settled);
      } else if l.Dispatch? || l.RecoveryDispatch? {
        ClaimMoves(s, l, settled);
      } else if TouchesWorkers(l) {
        WorkerProgressKeepsClaims(s, l, settled);
      } else {
        ClaimFrame(s, l);
        SameClaims(s, Apply(s, l), settled);
      }
    }
  }

  /** Label `l`, taken in state `s`, puts `u` into the in-flight set. */
  predicate Admits(s: State, l: Label, u: Uid) {
    l.Admit? && Enabled(s, l) && s.control.rest[0].uid == u
  }

  lemma SameClaims(s: State, t: State, settled: set<Uid>)
    requires SingleClaimBeyond(s, settled) && t.inFlight == s.inFlight && t.confirmCh == s.confirmCh
    requires t.control.AwaitSlot? ==> t.control == s.control
    requires forall id :: Claims(t, id, settled) ==> Claims(s, id, settled) && t.workers[id].uid == s.workers[id].uid
    ensures SingleClaimBeyond(t, settled)
  {
  }

  lemma ClaimFrame(s: State, l: Label)
    requires Enabled(s, l) && !TouchesWorkers(l) && !l.Connect? && !l.PullConfirm? && !l.Admit?
    ensures var t := Apply(s, l);
      t.workers == s.workers && t.inFlight == s.inFlight && t.confirmCh == s.confirmCh &&
      (t.control.AwaitSlot? ==> t.control == s.control)
  {
  }

  lemma WorkerProgressFrame(s: State, l: Label, settled: set<Uid>)
    requires Enabled(s, l)
    requires l.StartScan? || l.Finish? || l.CancelScan? || l.SendMark? || l.Release?
    ensures var t := Apply(s, l);
      && t.inFlight == s.inFlight && t.confirmCh == s.confirmCh && t.control == s.control
      && forall id :: Claims(t, id, settled) ==> Claims(s, id, settled) && t.workers[id].uid == s.workers[id].uid
  {
  }

  lemma WorkerProgressKeepsClaims(s: State, l: Label, settled: set<Uid>)
    requires SingleClaimBeyond(s, settled) && Enabled(s, l)
    requires l.StartScan? || l.Finish? || l.CancelScan? || l.SendMark? || l.Release?
    ensures SingleClaimBeyond(Apply(s, l), settled)
  {
    WorkerProgressFrame(s, l, settled);
    SameClaims(s, Apply(s, l), settled);
  }

  lemma AdmitKeepsClaims(s: State, settled: set<Uid>)
    requires SingleClaimBeyond(s, settled) && Enabled(s, Admit) && s.control.rest[0].uid !in settled
    ensures SingleClaimBeyond(Apply(s, Admit), settled)
  {
    var t := Apply(s, Admit);
    assert forall id :: Claims(t, id, settled) <==> Claims(s, id, settled);
  }

  lemma ClaimMoves(s: State, l: Label, settled: set<Uid>)
    requires SingleClaimBeyond(s, settled) && Enabled(s, l) && (l.Dispatch? || l.RecoveryDispatch?)
    requires forall id :: id in s.workers ==> id < s.nextId
    ensures SingleClaimBeyond(Apply(s, l), settled)
  {
    var t := Apply(s, l);
    assert t.confirmCh == s.confirmCh && t.inFlight == s.inFlight;
    assert forall id :: Claims(t, id, settled) ==>
      (Claims(s, id, settled) && t.workers[id] == s.workers[id]) ||
      (l.Dispatch? && id == s.nextId && t.workers[id].uid == s.control.uid);
  }

  lemma PullConfirmKeepsClaims(s: State, settled: set<Uid>)
    requires SingleClaimBeyond(s, settled) && Enabled(s, PullConfirm)
    ensures SingleClaimBeyond(Apply(s, PullConfirm), settled)
  {
    var t := Apply(s, PullConfirm);
    assert forall id :: Claims(t, id, settled) <==> Claims(s, id, settled);
    assert forall u :: u in t.confirmCh ==> u in s.confirmCh;
    assert s.confirmCh[0] in s.confirmCh;
    forall u | u in t.confirmCh && u !in settled ensures u != s.confirmCh[0] {
      var i :| 0 <= i < |t.confirmCh| && t.confirmCh[i] == u;
      assert s.confirmCh[i + 1] == u;
    }
  }

  lemma SendConfirmKeepsClaims(s: State, id: nat, settled: set<Uid>)
    requires SingleClaimBeyond(s, settled) && Enabled(s, SendConfirm(id))
    ensures SingleClaimBeyond(Apply(s, SendConfirm(id)), settled)
  {
    var t := Apply(s, SendConfirm(id));
    assert Active(s.workers[id]);
    assert forall j :: Claims(t, j, settled) ==> j != id && Claims(s, j, settled) && t.workers[j] == s.workers[j];
    assert forall u :: u in t.confirmCh ==> u in s.confirmCh || u == s.workers[id].uid;
    if s.workers[id].uid !in settled { assert Claims(s, id, settled); }
  }

  /** The state right after a connection is established. */
  ghost predicate JustConnected(s: State) {
    SlotsAccounted(s) && s.control == LoopTop && s.inFlight == {}
  }

  /** No worker from an earlier connection is still unconfirmed. */
  predicate NoLeftover(s: State) {
    forall id :: id in s.workers ==> !Active(s.workers[id])
  }

  ghost predicate CleanConnection(s: State) {
    JustConnected(s) && NoLeftover(s)
  }

  predicate OneConnection(schedule: seq<Label>) {
    forall l :: l in schedule ==> !l.Connect?
  }

  /** Nothing has been admitted yet, the confirmations left over from an earlier connection have
      not been drained yet, and leftover workers have settled UIDs. */
  predicate Undrained(s: State, settled: set<Uid>) {
    && s.inFlight == {} && (forall id :: id in s.workers ==> !Claims(s, id, settled))
    && (s.control.Offline? || s.control.Idle? || s.control.LoopTop? || s.control.DrainMarks? || s.control.Storing? ||
        s.control.DrainConfirms?)
  }

  lemma UndrainedFrame(s: State, l: Label, settled: set<Uid>)
    requires Undrained(s, settled) && Enabled(s, l) && !l.Connect? && !l.EndConfirms?
    ensures Undrained(Apply(s, l), settled)
  {
    assert forall id :: id in Apply(s, l).workers && id in s.workers ==> !Claims(s, id, settled);
  }

  lemma StepKeepsUndrained(s: State, l: Label, settled: set<Uid>)
    requires Undrained(s, settled) && !l.Connect?
    ensures Undrained(Step(s, l), settled) || SingleClaimBeyond(Step(s, l), settled)
  {
    if Enabled(s, l) {
      if l.EndConfirms? {
        assert forall id :: Claims(Apply(s, l), id, settled) ==> Claims(s, id, settled);
      } else {
        UndrainedFrame(s, l, settled);
      }
    }
  }

  /** None of these UIDs is admitted in the run. */
  ghost predicate NeverAdmits(s: State, schedule: seq<Label>, uids: set<Uid>) {
    forall u, k: nat :: u in uids && k < |schedule| ==> !AdmittedAt(s, schedule, k, u)
  }

  lemma StepFromClean(s: State, schedule: seq<Label>, k: nat, settled: set<Uid>)
    requires SlotsAccounted(s) && OneConnection(schedule) && k < |schedule| && NeverAdmits(s, schedule, settled)
    requires Undrained(StateAt(s, schedule, k), settled) || SingleClaimBeyond(StateAt(s, schedule, k), settled)
    ensures Undrained(StateAt(s, schedule, k + 1), settled) || SingleClaimBeyond(StateAt(s, schedule, k + 1), settled)
    ensures SingleClaimBeyond(StateAt(s, schedule, k), settled) ==> SingleClaimBeyond(StateAt(s, schedule, k + 1), settled)
  {
    SlotsAccountedFrom(s, schedule, k);
    var t := StateAt(s, schedule, k);
    if SingleClaimBeyond(t, settled) {
      forall u | u in settled ensures !Admits(t, schedule[k], u) { assert !AdmittedAt(s, schedule, k, u); }
      StepKeepsSingleClaim(t, schedule[k], settled);
    } else {
      StepKeepsUndrained(t, schedule[k], settled);
    }
  }

  /** Stale confirmations are drained before anything is admitted, so every UID that is not
      settled from the start has at most one claim on it. */
  lemma {:induction false} SingleClaimFrom(s: State, schedule: seq<Label>, k: nat, settled: set<Uid>)
    requires JustConnected(s) && (forall id :: id in s.workers ==> !Claims(s, id, settled))
    requires OneConnection(schedule) && k <= |schedule| && NeverAdmits(s, schedule, settled)
    ensures Undrained(StateAt(s, schedule, k), settled) || SingleClaimBeyond(StateAt(s, schedule, k), settled)
  {
    if k > 0 {
      SingleClaimFrom(s, schedule, k - 1, settled);
      StepFromClean(s, schedule, k - 1, settled);
    }
  }

  lemma {:induction false} SingleClaimOn(s: State, schedule: seq<Label>, i: nat, k: nat)
    requires SlotsAccounted(s) && OneConnection(schedule) && i <= k <= |schedule|
    requires SingleClaim(StateAt(s, schedule, i))
    ensures SingleClaim(StateAt(s, schedule, k))
    decreases k - i
  {
    if i < k {
      SingleClaimOn(s, schedule, i, k - 1);
      StepFromClean(s, schedule, k - 1, {});
    }
  }

  /** No two listener workers that have not confirmed hold the same UID. */
  predicate Disjoint(s: State) {
    forall i, j :: i in s.workers && j in s.workers && i != j && Active(s.workers[i]) && Active(s.workers[j]) ==>
      s.workers[i].uid != s.workers[j].uid
  }

  /** In every run of one connection that starts without leftovers, each UID being processed by
      the listener is in flight, and no two listener workers hold the same UID. */
  lemma NoOverlap(s: State, schedule: seq<Label>)
    requires CleanConnection(s) && OneConnection(schedule)
    ensures var t := Run(s, schedule);
      Disjoint(t) && forall id :: id in t.workers && Active(t.workers[id]) ==> t.workers[id].uid in t.inFlight
  {
    SingleClaimFrom(s, schedule, |schedule|, {});
    var t := Run(s, schedule);
    assert forall id :: id in t.workers && Active(t.workers[id]) ==> Claims(t, id, {});
  }

  // ----- Redispatch -------------------------------------------------------------

  /** Somewhere between two states of a run in which `p` holds and then does not, one
      label ends it. */
  lemma {:induction false} LastMoment(s: State, schedule: seq<Label>, i: nat, j: nat, p: State -> bool) returns (c: nat)
    requires i <= j <= |schedule|
    requires p(StateAt(s, schedule, i)) && !p(StateAt(s, schedule, j))
    ensures i <= c < j && p(StateAt(s, schedule, c)) && !p(StateAt(s, schedule, c + 1))
    decreases j - i
  {
    if p(StateAt(s, schedule, j - 1)) {
      c := j - 1;
    } else {
      c := LastMoment(s, schedule, i, j - 1, p);
    }
  }

  /** Label `l`, taken in state `s`, dispatches UID `u` to the new worker `id`. */
  predicate Dispatches(s: State, l: Label, u: Uid, id: nat) {
    l.Dispatch? && Enabled(s, l) && s.control.uid == u && s.nextId == id
  }

  /** Label `l`, taken in state `s`, is worker `id` coming back from onEmail. */
  predicate WorkerReturns(s: State, l: Label, id: nat) {
    (l == Finish(id) || l == CancelScan(id)) && Enabled(s, l)
  }

  /** Label `l`, taken in state `s`, takes `u` out of the confirmation channel. */
  predicate ConsumesConfirm(s: State, l: Label, u: Uid) {
    l.PullConfirm? && Enabled(s, l) && s.confirmCh[0] == u
  }

  /** A UID leaves the in-flight set of a connection only by consuming its confirmation. */
  lemma LeavesOnlyByConfirm(s: State, l: Label, u: Uid)
    requires !l.Connect? && u in s.inFlight && u !in Step(s, l).inFlight
    ensures ConsumesConfirm(s, l, u)
  {
  }

  /** The loop starts to wait for a slot for `u` only when `u` is not in flight. */
  lemma WaitsOnlyAfterAdmission(s: State, l: Label, u: Uid)
    requires !(s.control.AwaitSlot? && s.control.uid == u)
    requires Step(s, l).control.AwaitSlot? && Step(s, l).control.uid == u
    ensures u !in s.inFlight
  {
  }

  predicate Inside(s: State, id: nat, u: Uid) {
    id in s.workers && s.workers[id].origin.FromListener? && s.workers[id].uid == u &&
    (s.workers[id].phase.Queued? || s.workers[id].phase.Scanning?)
  }

  /** A worker gets out of onEmail only by returning from it. */
  lemma LeavesOnEmailByReturning(s: State, l: Label, id: nat, u: Uid)
    requires id < s.nextId && Inside(s, id, u) && !Inside(Step(s, l), id, u)
    ensures WorkerReturns(s, l, id)
  {
  }

  lemma AfterDispatch(s: State, l: Label, u: Uid, id: nat)
    requires Dispatches(s, l, u, id) && SingleClaim(s)
    ensures var t := Step(s, l);
      u in t.inFlight && t.control.Dispatching? && Inside(t, id, u)
  {
  }

  lemma ConfirmedIsOutside(s: State, id: nat, u: Uid)
    requires SingleClaim(s) && s.confirmCh != [] && s.confirmCh[0] == u
    ensures !Inside(s, id, u)
  {
    assert u in s.confirmCh;
    assert Inside(s, id, u) ==> Claims(s, id, {});
  }

  /** Between two dispatches of `u` in one connection its confirmation is consumed. */
  lemma ConfirmBetween(s: State, schedule: seq<Label>, i: nat, j: nat, u: Uid) returns (c: nat)
    requires OneConnection(schedule) && i <= j < |schedule|
    requires var t := StateAt(s, schedule, i); u in t.inFlight && t.control.Dispatching?
    requires var t := StateAt(s, schedule, j); t.control.AwaitSlot? && t.control.uid == u
    ensures i <= c < j && ConsumesConfirm(StateAt(s, schedule, c), schedule[c], u)
  {
    var a := LastMoment(s, schedule, i, j, (t: State) => !(t.control.AwaitSlot? && t.control.uid == u));
    WaitsOnlyAfterAdmission(StateAt(s, schedule, a), schedule[a], u);
    c := LastMoment(s, schedule, i, a, (t: State) => u in t.inFlight);
    LeavesOnlyByConfirm(StateAt(s, schedule, c), schedule[c], u);
  }

  /** A worker that is inside onEmail at `i` and whose UID has a confirmation at `c` returned in between. */
  lemma ReturnBetween(s: State, schedule: seq<Label>, i: nat, c: nat, id: nat, u: Uid) returns (f: nat)
    requires SlotsAccounted(s) && i <= c < |schedule|
    requires Inside(StateAt(s, schedule, i), id, u)
    requires !Inside(StateAt(s, schedule, c), id, u)
    ensures i <= f < c && WorkerReturns(StateAt(s, schedule, f), schedule[f], id)
  {
    f := LastMoment(s, schedule, i, c, (t: State) => Inside(t, id, u));
    SlotsAccountedFrom(s, schedule, f);
    LeavesOnEmailByReturning(StateAt(s, schedule, f), schedule[f], id, u);
  }

  /** If one connection dispatches the same UID twice, then between the two dispatches the
      first worker's onEmail call returned, and after that its confirmation was consumed. */
  lemma RedispatchAfterConfirm(s: State, schedule: seq<Label>, i: nat, j: nat, u: Uid, first: nat, second: nat)
    returns (f: nat, c: nat)
    requires CleanConnection(s) && OneConnection(schedule)
    requires i < j < |schedule|
    requires Dispatches(StateAt(s, schedule, i), schedule[i], u, first)
    requires Dispatches(StateAt(s, schedule, j), schedule[j], u, second)
    ensures i < f < c < j
    ensures WorkerReturns(StateAt(s, schedule, f), schedule[f], first)
    ensures ConsumesConfirm(StateAt(s, schedule, c), schedule[c], u)
  {
    SingleClaimFrom(s, schedule, i, {});
    AfterDispatch(StateAt(s, schedule, i), schedule[i], u, first);
    c := ConfirmBetween(s, schedule, i + 1, j, u);
    SingleClaimOn(s, schedule, i, c);
    ConfirmedIsOutside(StateAt(s, schedule, c), first, u);
    f := ReturnBetween(s, schedule, i + 1, c, first, u);
  }

  predicate AdmittedAt(s: State, schedule: seq<Label>, m: nat, u: Uid) {
    m < |schedule| && Admits(StateAt(s, schedule, m), schedule[m], u)
  }

  predicate ConfirmedAt(s: State, schedule: seq<Label>, c: nat, u: Uid) {
    c < |schedule| && ConsumesConfirm(StateAt(s, schedule, c), schedule[c], u)
  }

  /** A UID enters the in-flight set only by admission. */
  lemma EntersOnlyByAdmission(s: State, l: Label, u: Uid)
    requires u !in s.inFlight && !Admits(s, l, u)
    ensures u !in Step(s, l).inFlight
  {
  }

  lemma {:induction false} StaysOut(s: State, schedule: seq<Label>, c: nat, k: nat, u: Uid)
    requires c <= k <= |schedule| && u !in StateAt(s, schedule, c).inFlight
    requires forall m: nat :: c <= m < k ==> !AdmittedAt(s, schedule, m, u)
    ensures u !in StateAt(s, schedule, k).inFlight
    decreases k - c
  {
    if c < k {
      StaysOut(s, schedule, c, k - 1, u);
      assert !AdmittedAt(s, schedule, k - 1, u);
      EntersOnlyByAdmission(StateAt(s, schedule, k - 1), schedule[k - 1], u);
    }
  }

  /** When the dedup lets a message through again: once `u` is in flight, and until it is
      admitted again, the in-flight guard is open for `u` exactly if its confirmation has been
      consumed. Whether the server lists `u` again is another matter: see ListenerLimits. */
  lemma GuardOpenExactly(s: State, schedule: seq<Label>, i: nat, k: nat, u: Uid)
    requires OneConnection(schedule) && i <= k <= |schedule| && u in StateAt(s, schedule, i).inFlight
    requires forall m: nat :: i <= m < k ==> !AdmittedAt(s, schedule, m, u)
    ensures u !in StateAt(s, schedule, k).inFlight <==> exists c: nat :: i <= c < k && ConfirmedAt(s, schedule, c, u)
  {
    if u !in StateAt(s, schedule, k).inFlight {
      var c := ClosedUntil(s, schedule, i, k, u);
    }
    if c: nat :| i <= c < k && ConfirmedAt(s, schedule, c, u) {
      OpenSince(s, schedule, c, k, u);
    }
  }

  lemma ClosedUntil(s: State, schedule: seq<Label>, i: nat, k: nat, u: Uid) returns (c: nat)
    requires OneConnection(schedule) && i <= k <= |schedule|
    requires u in StateAt(s, schedule, i).inFlight && u !in StateAt(s, schedule, k).inFlight
    ensures i <= c < k && ConfirmedAt(s, schedule, c, u)
  {
    c := LastMoment(s, schedule, i, k, (t: State) => u in t.inFlight);
    LeavesOnlyByConfirm(StateAt(s, schedule, c), schedule[c], u);
  }

  lemma OpenSince(s: State, schedule: seq<Label>, c: nat, k: nat, u: Uid)
    requires c < k <= |schedule| && ConfirmedAt(s, schedule, c, u)
    requires forall m: nat :: c < m < k ==> !AdmittedAt(s, schedule, m, u)
    ensures u !in StateAt(s, schedule, k).inFlight
  {
    ConfirmOpens(StateAt(s, schedule, c), schedule[c], u);
    StaysOut(s, schedule, c + 1, k, u);
  }

  lemma ConfirmOpens(s: State, l: Label, u: Uid)
    requires ConsumesConfirm(s, l, u)
    ensures u !in Step(s, l).inFlight
  {
  }

  // ----- Progress ---------------------------------------------------------------

  /** The labels by which work under way gets on; cancellation is not among them. */
  predicate GetsOn(l: Label) {
    l.Dispatch? || l.StartScan? || l.Finish? || l.SendMark? || l.SendConfirm? || l.Release? ||
    l.RecoverySkip? || l.RecoveryDispatch? || l.RecoveryWait?
  }

  /** A worker past the wait for a scan slot is never blocked: its channel sends cannot block. */
  lemma WorkerNeverBlocks(s: State, id: nat) returns (l: Label)
    requires SlotsAccounted(s) && id in s.workers && !s.workers[id].phase.Queued?
    ensures GetsOn(l) && Enabled(s, l)
  {
    assert id in Ids(s.workers, OfListener) || id in Ids(s.workers, OfRecovery);
    assert s.workers[id].phase.Scanning? ==> id in Ids(s.workers, HoldsScanSlot);
    match s.workers[id].phase
    case Scanning => l := Finish(id);
    case Returned => l := if s.workers[id].origin.FromListener? then SendMark(id) else Release(id);
    case Marked => l := SendConfirm(id);
    case Confirmed => l := Release(id);
  }

  lemma SomeWorkerGetsOn(s: State) returns (l: Label)
    requires SlotsAccounted(s) && s.maxScans > 0 && s.workers.Keys != {}
    ensures GetsOn(l) && Enabled(s, l)
  {
    if id :| id in s.workers && !s.workers[id].phase.Queued? {
      l := WorkerNeverBlocks(s, id);
    } else {
      assert Ids(s.workers, HoldsScanSlot) == {};
      var id :| id in s.workers;
      l := StartScan(id);
    }
  }

  /** In every reachable state with work under way (a live worker, the loop waiting for a
      slot, or a recovery scan dispatching) some goroutine can take a step. */
  lemma NoDeadlock(maxScans: nat, schedule: seq<Label>) returns (l: Label)
    requires maxScans > 0
    requires var s := Run(Initial(maxScans), schedule);
      s.workers.Keys != {} || s.control.AwaitSlot? || s.recovery.Sending?
    ensures GetsOn(l) && Enabled(Run(Initial(maxScans), schedule), l)
  {
    var s := Run(Initial(maxScans), schedule);
    InitialIsGood(maxScans);
    SlotsAccountedFrom(Initial(maxScans), schedule, |schedule|);
    MaxScansConstant(Initial(maxScans), schedule, |schedule|);
    if s.workers.Keys != {} {
      l := SomeWorkerGetsOn(s);
    } else {
      assert Ids(s.workers, OfListener) == {} && Ids(s.workers, OfRecovery) == {};
      if s.control.AwaitSlot? {
        l := Dispatch;
      } else {
        l := if s.recovery.pending == [] then RecoveryWait
             else if s.recovery.pending[0].empty then RecoverySkip else RecoveryDispatch;
      }
    }
  }

  // ----- Runs in sequence ------------------------------------------------------------

  lemma {:induction false} RunsCompose(s: State, first: seq<Label>, second: seq<Label>, k: nat)
    requires k <= |second|
    ensures StateAt(s, first + second, |first| + k) == StateAt(Run(s, first), second, k)
  {
    if k == 0 {
      PrefixRuns(s, first, second, |first|);
    } else {
      RunsCompose(s, first, second, k - 1);
    }
  }

  lemma {:induction false} PrefixRuns(s: State, first: seq<Label>, second: seq<Label>, k: nat)
    requires k <= |first|
    ensures StateAt(s, first + second, k) == StateAt(s, first, k)
  {
    if k > 0 { PrefixRuns(s, first, second, k - 1); }
  }
}
