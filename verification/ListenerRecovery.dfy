/**
 The recovery scan beside the listener: which messages it can hand out, exactly when one of them
 is being processed by a listener worker, and what its \Seen flags mean.
 */
module ListenerRecovery {
  import opened ListenerProtocol
  import opened ListenerSafety
  import opened ListenerCode
  import opened ListenerLimits

  // ----- The database lookup -------------------------------------------------------------------

  /** The scan drops every message that has a row under its source key; this is what the lookup
      does as long as the database answers. */
  predicate LooksUp(s: State, l: Label) {
    l.RecoveryStart? ==> forall m :: m in l.unknown ==> m.uid !in s.recorded
  }

  predicate LooksUpAt(s: State, schedule: seq<Label>, k: nat) {
    k < |schedule| && LooksUp(StateAt(s, schedule, k), schedule[k])
  }

  ghost predicate LookupRun(s: State, schedule: seq<Label>) {
    forall k: nat :: k < |schedule| ==> LooksUpAt(s, schedule, k)
  }

  /** The scan under way still has `u` to hand out. */
  predicate Awaits(s: State, u: Uid) {
    s.recovery.Sending? && HasUid(s.recovery.pending, u)
  }

  /** Label `l`, taken in state `s`, hands `u` to a recovery worker. */
  predicate HandsOut(s: State, l: Label, u: Uid) {
    l.RecoveryDispatch? && Enabled(s, l) && s.recovery.pending[0].uid == u
  }

  predicate HandsOutAt(s: State, schedule: seq<Label>, k: nat, u: Uid) {
    k < |schedule| && HandsOut(StateAt(s, schedule, k), schedule[k], u)
  }

  /** Label `l`, taken in state `s`, starts a scan that lists `u`. */
  predicate StartsWith(s: State, l: Label, u: Uid) {
    l.RecoveryStart? && Enabled(s, l) && HasUid(l.unknown, u)
  }

  lemma HandedOutIsAwaited(s: State, l: Label, u: Uid)
    requires HandsOut(s, l, u)
    ensures Awaits(s, u)
  {
    assert s.recovery.pending[0] in s.recovery.pending;
  }

  lemma AwaitsOnlyIfListed(s: State, l: Label, u: Uid)
    requires !Awaits(s, u) && Awaits(Step(s, l), u)
    ensures StartsWith(s, l, u)
  {
  }

  /** The moment from which `p` no longer holds up to `j`. */
  lemma {:induction false} EndedSince(s: State, schedule: seq<Label>, j: nat, p: State -> bool) returns (c: nat)
    requires j <= |schedule| && p(s) && !p(StateAt(s, schedule, j))
    ensures c < j && p(StateAt(s, schedule, c)) && forall k :: c < k <= j ==> !p(StateAt(s, schedule, k))
    decreases j
  {
    if p(StateAt(s, schedule, j - 1)) {
      c := j - 1;
    } else {
      c := EndedSince(s, schedule, j - 1, p);
    }
  }

  predicate AwaitsAt(s: State, schedule: seq<Label>, k: nat, u: Uid) {
    k <= |schedule| && Awaits(StateAt(s, schedule, k), u)
  }

  /** A message that has a row is never handed out: in every run, a message that the scan hands
      out was listed by the start of that same scan, and had no row then. */
  lemma NeverHandsOutRecorded(s: State, schedule: seq<Label>, j: nat, u: Uid) returns (i: nat)
    requires s.recovery.Resting? && LookupRun(s, schedule) && HandsOutAt(s, schedule, j, u)
    ensures i < j && StartsWith(StateAt(s, schedule, i), schedule[i], u)
    ensures u !in StateAt(s, schedule, i).recorded
    ensures forall k: nat :: i < k <= j ==> AwaitsAt(s, schedule, k, u)
  {
    HandedOutIsAwaited(StateAt(s, schedule, j), schedule[j], u);
    i := EndedSince(s, schedule, j, (t: State) => !Awaits(t, u));
    assert Awaits(StateAt(s, schedule, i + 1), u);
    AwaitsOnlyIfListed(StateAt(s, schedule, i), schedule[i], u);
    assert LooksUpAt(s, schedule, i);
  }

  // ----- Exactly when the scan overlaps with the listener ------------------------------------------

  /** A scan that begins now, and no other. */
  predicate OneScan(schedule: seq<Label>) {
    |schedule| > 0 && schedule[0].RecoveryStart? && forall k :: 1 <= k < |schedule| ==> !schedule[k].RecoveryStart?
  }

  /** Worker `w` of the listener has not confirmed `u` yet. */
  predicate Holds(s: State, w: nat, u: Uid) {
    w in s.workers && Active(s.workers[w]) && s.workers[w].uid == u
  }

  /** No recovery worker outlives its scan. */
  ghost predicate ScanOver(s: State) {
    !s.recovery.Sending? ==> Ids(s.workers, OfRecovery) == {}
  }

  lemma StepKeepsScanOver(s: State, l: Label)
    requires ScanOver(s)
    ensures ScanOver(Step(s, l))
  {
    if Enabled(s, l) && !Apply(s, l).recovery.Sending? {
      assert forall id :: id in s.workers && s.workers[id].origin.FromRecovery? ==> id in Ids(s.workers, OfRecovery);
    }
  }

  lemma {:induction false} ScanOverFrom(maxScans: nat, schedule: seq<Label>, k: nat)
    requires k <= |schedule|
    ensures ScanOver(StateAt(Initial(maxScans), schedule, k))
  {
    if k > 0 {
      ScanOverFrom(maxScans, schedule, k - 1);
      StepKeepsScanOver(StateAt(Initial(maxScans), schedule, k - 1), schedule[k - 1]);
    }
  }

  lemma NotAwaitedLater(s: State, l: Label, u: Uid)
    requires !Awaits(s, u) && !l.RecoveryStart?
    ensures !Awaits(Step(s, l), u)
  {
    if Awaits(Step(s, l), u) { AwaitsOnlyIfListed(s, l, u); }
  }

  lemma {:induction false} RecordedIsNotAwaited(s: State, schedule: seq<Label>, k: nat, u: Uid)
    requires s.recovery.Resting? && OneScan(schedule) && LookupRun(s, schedule) && u in s.recorded && k <= |schedule|
    ensures !Awaits(StateAt(s, schedule, k), u)
  {
    if k == 1 {
      assert LooksUpAt(s, schedule, 0);
      assert StateAt(s, schedule, 0) == s;
      if Awaits(StateAt(s, schedule, 1), u) { AwaitsOnlyIfListed(s, schedule[0], u); }
    } else if k > 1 {
      RecordedIsNotAwaited(s, schedule, k - 1, u);
      NotAwaitedLater(StateAt(s, schedule, k - 1), schedule[k - 1], u);
    }
  }

  /** A scan that begins while a listener worker holds `u` can hand out `u` to a second worker,
      with the first still holding it, if and only if `u` has no row when the scan looks. */
  lemma RecoveryOverlapsExactly(s: State, w: nat, u: Uid)
    requires SlotsAccounted(s) && ScanOver(s) && s.recovery.Resting? && Holds(s, w, u)
    ensures (exists schedule, j: nat ::
               OneScan(schedule) && LookupRun(s, schedule) && HandsOutAt(s, schedule, j, u) && Holds(StateAt(s, schedule, j), w, u)) <==>
            u !in s.recorded
  {
    if u !in s.recorded {
      UnrecordedIsHandedOut(s, w, u);
    } else {
      forall schedule, j: nat | OneScan(schedule) && LookupRun(s, schedule) ensures !HandsOutAt(s, schedule, j, u) {
        if HandsOutAt(s, schedule, j, u) {
          HandedOutIsAwaited(StateAt(s, schedule, j), schedule[j], u);
          RecordedIsNotAwaited(s, schedule, j, u);
        }
      }
    }
  }

  lemma UnrecordedIsHandedOut(s: State, w: nat, u: Uid)
    requires SlotsAccounted(s) && ScanOver(s) && s.recovery.Resting? && Holds(s, w, u) && u !in s.recorded
    ensures var r := Recovering(u);
      OneScan(r) && LookupRun(s, r) && HandsOutAt(s, r, 1, u) && Holds(StateAt(s, r, 1), w, u)
  {
    var r := Recovering(u);
    assert StateAt(s, r, 0) == s;
    assert StateAt(s, r, 1) == s.(recovery := Sending([Message(u, false)], []));
    forall k: nat | k < 2 ensures LooksUpAt(s, r, k) {
    }
  }

  function Recovering(u: Uid): seq<Label> { [RecoveryStart([Message(u, false)]), RecoveryDispatch] }

  function WithRecoveryWorker(s: State, u: Uid, phase: Phase): State {
    s.(recovery := Sending([], [u]), recoverySlots := s.recoverySlots + 1, nextId := s.nextId + 1,
       workers := s.workers[s.nextId := Worker(FromRecovery, u, phase)])
  }

  lemma RecoveringRuns(s: State, u: Uid)
    requires s.recovery.Resting? && s.recoverySlots < SLOTS
    ensures Run(s, Recovering(u)) == WithRecoveryWorker(s, u, Queued)
  {
    var m := Message(u, false);
    assert StateAt(s, Recovering(u), 1) == s.(recovery := Sending([m], []));
    assert [m][1..] == [] && [] + [u] == [u];
  }

  lemma JoinedByRecovery(s: State, u: Uid)
    requires s.control == AwaitSlot(u, []) && s.slots < SLOTS && s.recovery.Resting? && s.recoverySlots < SLOTS
    ensures var t := Run(s, Handing + Recovering(u));
      && t.workers == s.workers[s.nextId := Worker(FromListener, u, Queued)][s.nextId + 1 := Worker(FromRecovery, u, Queued)]
      && HonestRun(s, Handing + Recovering(u))
  {
    HandingRuns(s, u);
    RecoveringRuns(WithWorker(s, u), u);
    InTurn(s, Handing, Recovering(u));
    NoQuestionIsHonest(s, Handing + Recovering(u));
  }

  /** Such a state is reachable, with a server that is honest: the listener worker is inside
      onEmail and no row has been written yet. */
  lemma RecoveryAllowsOverlap(maxScans: nat, u: Uid) returns (schedule: seq<Label>)
    ensures HonestRun(Connected(maxScans), schedule) && LookupRun(Connected(maxScans), schedule)
    ensures Run(Connected(maxScans), schedule).workers == map[0 := Worker(FromListener, u, Queued), 1 := Worker(FromRecovery, u, Queued)]
  {
    var s := Connected(maxScans);
    FirstTimeRuns(s, u);
    JoinedByRecovery(Waiting(s, u), u);
    schedule := FirstTime(u) + (Handing + Recovering(u));
    InTurn(s, FirstTime(u), Handing + Recovering(u));
    RunsInTurn(s, FirstTime(u), Handing + Recovering(u));
    NothingRecorded(s, schedule);
  }

  /** As long as nothing is recorded every lookup is right. */
  lemma NothingRecorded(s: State, schedule: seq<Label>)
    requires s.recorded == {} && forall l :: l in schedule ==> !l.Record?
    ensures LookupRun(s, schedule)
  {
    forall k: nat | k < |schedule| ensures LooksUpAt(s, schedule, k) {
      StillNothingRecorded(s, schedule, k);
    }
  }

  lemma {:induction false} StillNothingRecorded(s: State, schedule: seq<Label>, k: nat)
    requires s.recorded == {} && (forall l :: l in schedule ==> !l.Record?) && k <= |schedule|
    ensures StateAt(s, schedule, k).recorded == {}
  {
    if k > 0 { StillNothingRecorded(s, schedule, k - 1); }
  }

  // ----- What a scan gets done -------------------------------------------------------------------

  /** The UIDs of the messages that have a body, in order. */
  function WithBody(messages: seq<Message>): seq<Uid> {
    if messages == [] then []
    else (if messages[0].empty then [] else [messages[0].uid]) + WithBody(messages[1..])
  }

  /** One message dealt with: skipped if it is empty, else handed out and processed. */
  function Turn(m: Message, id: nat): seq<Label> {
    if m.empty then [RecoverySkip] else [RecoveryDispatch, StartScan(id)] + [Finish(id), Release(id)]
  }

  function AfterTurn(s: State, m: Message, rest: seq<Message>): State
    requires s.recovery.Sending?
  {
    if m.empty then s.(recovery := Sending(rest, s.recovery.sent))
    else s.(recovery := Sending(rest, s.recovery.sent + [m.uid]), nextId := s.nextId + 1, returned := s.returned + {m.uid})
  }

  lemma HandedOutAndScanning(s: State, m: Message, rest: seq<Message>)
    requires s.recovery.Sending? && s.recovery.pending == [m] + rest && !m.empty
    requires s.recoverySlots < SLOTS && s.scans < s.maxScans && s.nextId !in s.workers
    ensures Run(s, [RecoveryDispatch, StartScan(s.nextId)]) ==
      s.(recovery := Sending(rest, s.recovery.sent + [m.uid]), recoverySlots := s.recoverySlots + 1, nextId := s.nextId + 1,
         scans := s.scans + 1, workers := s.workers[s.nextId := Worker(FromRecovery, m.uid, Scanning)])
  {
    var r := [RecoveryDispatch, StartScan(s.nextId)];
    assert ([m] + rest)[1..] == rest;
    assert StateAt(s, r, 1) ==
      s.(recovery := Sending(rest, s.recovery.sent + [m.uid]), recoverySlots := s.recoverySlots + 1, nextId := s.nextId + 1,
         workers := s.workers[s.nextId := Worker(FromRecovery, m.uid, Queued)]);
  }

  lemma ScannedAndReleased(s: State, id: nat, u: Uid)
    requires id in s.workers && s.workers[id] == Worker(FromRecovery, u, Scanning) && s.scans > 0 && s.recoverySlots > 0
    ensures Run(s, [Finish(id), Release(id)]) ==
      s.(workers := s.workers - {id}, scans := s.scans - 1, recoverySlots := s.recoverySlots - 1, returned := s.returned + {u})
  {
    var r := [Finish(id), Release(id)];
    var back := s.(workers := s.workers[id := Worker(FromRecovery, u, Returned)], scans := s.scans - 1, returned := s.returned + {u});
    assert StateAt(s, r, 1) == back;
    assert back.workers - {id} == s.workers - {id};
  }

  lemma TurnRuns(s: State, m: Message, rest: seq<Message>)
    requires s.recovery.Sending? && s.recovery.pending == [m] + rest
    requires s.recoverySlots < SLOTS && s.scans < s.maxScans && s.nextId !in s.workers
    ensures Run(s, Turn(m, s.nextId)) == AfterTurn(s, m, rest)
  {
    if m.empty {
      OneLabelRuns(s, RecoverySkip);
      assert ([m] + rest)[1..] == rest;
    } else {
      var id := s.nextId;
      HandedOutAndScanning(s, m, rest);
      var scanning := Run(s, [RecoveryDispatch, StartScan(id)]);
      ScannedAndReleased(scanning, id, m.uid);
      assert scanning.workers - {id} == s.workers;
      InTurn(s, [RecoveryDispatch, StartScan(id)], [Finish(id), Release(id)]);
    }
  }

  lemma ScanEnds(s: State)
    requires s.recovery.Sending? && s.recovery.pending == [] && Ids(s.workers, OfRecovery) == {}
    ensures Run(s, [RecoveryWait]) == s.(recovery := Marking(s.recovery.sent))
  {
    OneLabelRuns(s, RecoveryWait);
  }

  lemma SentInAll(sent: seq<Uid>, m: Message, rest: seq<Message>)
    ensures (if m.empty then sent else sent + [m.uid]) + WithBody(rest) == sent + WithBody([m] + rest)
  {
    assert ([m] + rest)[1..] == rest;
  }

  /** The scan can go on from here. */
  ghost predicate CanScan(s: State) {
    && s.recovery.Sending? && Ids(s.workers, OfRecovery) == {} && s.recoverySlots < SLOTS && s.scans < s.maxScans
    && forall id :: id in s.workers ==> id < s.nextId
  }

  lemma FirstTurn(s: State, m: Message, rest: seq<Message>) returns (t: State)
    requires CanScan(s) && s.recovery.pending == [m] + rest
    ensures t == Run(s, Turn(m, s.nextId)) && CanScan(t)
    ensures t.recovery == Sending(rest, if m.empty then s.recovery.sent else s.recovery.sent + [m.uid])
  {
    TurnRuns(s, m, rest);
    t := AfterTurn(s, m, rest);
  }

  /** A scan with a slot to work with deals with every message it has listed, and is then about to
      flag exactly those that have a body. */
  lemma {:induction false} ScanCompletes(s: State, pending: seq<Message>, sent: seq<Uid>) returns (r: seq<Label>)
    requires CanScan(s) && s.recovery == Sending(pending, sent)
    ensures Run(s, r).recovery == Marking(sent + WithBody(pending))
    decreases |pending|
  {
    if pending == [] {
      r := [RecoveryWait];
      ScanEnds(s);
      assert sent + [] == sent;
    } else {
      var m, rest := pending[0], pending[1..];
      assert pending == [m] + rest;
      var t := FirstTurn(s, m, rest);
      var tail := ScanCompletes(t, rest, t.recovery.sent);
      r := Turn(m, s.nextId) + tail;
      InTurn(s, Turn(m, s.nextId), tail);
      SentInAll(sent, m, rest);
    }
  }

  /** The flags that follow. */
  lemma ScanFlags(s: State)
    requires s.recovery.Marking?
    ensures Step(s, RecoveryStore(Elements(s.recovery.sent))) ==
      s.(recovery := Resting, marked := s.marked + Elements(s.recovery.sent))
  {
  }

  // ----- What a flag means ---------------------------------------------------------------------------

  /** A recovery call is cancelled while it waits for a scan slot, ends, and is waited for. */
  const Cancelling: seq<Label> := [CancelScan(0), Release(0), RecoveryWait]

  lemma CancellingRuns(s: State, u: Uid)
    requires s.recovery == Sending([], [u]) && s.workers == map[0 := Worker(FromRecovery, u, Queued)] && s.recoverySlots > 0
    ensures Run(s, Cancelling).recovery == Marking([u])
  {
    var back := s.(workers := map[0 := Worker(FromRecovery, u, Returned)], returned := s.returned + {u});
    assert s.workers[0 := Worker(FromRecovery, u, Returned)] == back.workers;
    assert StateAt(s, Cancelling, 1) == back;
    var gone := back.(workers := map[], recoverySlots := s.recoverySlots - 1);
    assert back.workers - {0} == gone.workers;
    assert StateAt(s, Cancelling, 2) == gone;
    assert Ids(gone.workers, OfRecovery) == {};
  }

  /** A \Seen flag does not mean that a message was scanned: on shutdown a recovery call is
      cancelled while it waits for a scan slot, and its message is flagged like any other. */
  lemma SeenWithoutScan(maxScans: nat, u: Uid) returns (schedule: seq<Label>)
    ensures u in Run(Initial(maxScans), schedule).marked && forall l :: l in schedule ==> !l.Finish?
  {
    var s := Initial(maxScans);
    RecoveringRuns(s, u);
    var sent := WithRecoveryWorker(s, u, Queued);
    CancellingRuns(sent, u);
    var waited := Run(sent, Cancelling);
    OneLabelRuns(waited, RecoveryStore({u}));
    InTurn(sent, Cancelling, [RecoveryStore({u})]);
    InTurn(s, Recovering(u), Cancelling + [RecoveryStore({u})]);
    schedule := Recovering(u) + (Cancelling + [RecoveryStore({u})]);
  }
}
