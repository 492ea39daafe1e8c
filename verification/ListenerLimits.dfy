/**
 How far the guarantees of the dispatch protocol go: when a message can be dispatched again
 in one connection, when two workers can hold the same message across a reconnect, and which
 stronger claims fail.
 */
module ListenerLimits {
  import opened ListenerProtocol
  import opened ListenerSafety
  import opened ListenerCode

  // ----- Servers that answer as they should -----------------------------------------------

  /** SEARCH UNSEEN lists nothing that has been flagged \Seen, and FETCH returns only what was
      asked for. */
  predicate Honest(s: State, l: Label) {
    match l
    case Search(found) => forall u :: u in found ==> u !in s.marked
    case Fetch(messages) => s.control.Fetching? ==> forall m :: m in messages ==> m.uid in s.control.wanted
    case _ => true
  }

  /** No signal is dropped and every STORE takes full effect. */
  predicate Smooth(s: State, l: Label) {
    match l
    case SendMark(_) => |s.seenCh| < CHANNEL_CAP
    case SendConfirm(_) => |s.confirmCh| < CHANNEL_CAP
    case Store(applied) => s.control.Storing? ==> applied == Elements(s.control.batch)
    case RecoveryStore(applied) => s.recovery.Marking? ==> applied == Elements(s.recovery.sent)
    case _ => true
  }

  predicate HonestAt(s: State, schedule: seq<Label>, k: nat) {
    k < |schedule| && Honest(StateAt(s, schedule, k), schedule[k])
  }

  predicate SmoothAt(s: State, schedule: seq<Label>, k: nat) {
    k < |schedule| && Smooth(StateAt(s, schedule, k), schedule[k])
  }

  ghost predicate HonestRun(s: State, schedule: seq<Label>) {
    forall k: nat :: k < |schedule| ==> HonestAt(s, schedule, k)
  }

  ghost predicate SmoothRun(s: State, schedule: seq<Label>) {
    forall k: nat :: k < |schedule| ==> SmoothAt(s, schedule, k)
  }

  // ----- A second dispatch needs an unmarked message ----------------------------------------

  predicate HasUid(messages: seq<Message>, u: Uid) {
    exists m :: m in messages && m.uid == u
  }

  /** The current round is on its way to dispatching `u`. */
  predicate Pending(s: State, u: Uid) {
    match s.control
    case Fetching(wanted) => u in wanted
    case Dispatching(rest) => HasUid(rest, u)
    case AwaitSlot(uid, rest) => uid == u || HasUid(rest, u)
    case _ => false
  }

  /** Label `l`, taken in state `s`, is a SEARCH that lists `u` while `u` is neither in flight
      nor flagged \Seen. */
  predicate ListsUnmarked(s: State, l: Label, u: Uid) {
    l.Search? && Enabled(s, l) && u in l.found && u !in s.inFlight && u !in s.marked
  }

  lemma BecomesPending(s: State, l: Label, u: Uid)
    requires Honest(s, l) && !Pending(s, u) && Pending(Step(s, l), u)
    ensures ListsUnmarked(s, l, u)
  {
    if l.Search? {
      FilterExact(l.found, s.inFlight, u);
    }
  }

  /** If one connection to an honest server dispatches the same UID twice, then in between, in
      this order, the first onEmail call returned, its confirmation was consumed, and a SEARCH
      listed the UID because it was still not flagged \Seen. */
  lemma RedispatchNeedsUnmarked(s: State, schedule: seq<Label>, i: nat, j: nat, u: Uid, first: nat, second: nat)
    returns (f: nat, c: nat, q: nat)
    requires CleanConnection(s) && OneConnection(schedule) && HonestRun(s, schedule)
    requires i < j < |schedule|
    requires Dispatches(StateAt(s, schedule, i), schedule[i], u, first)
    requires Dispatches(StateAt(s, schedule, j), schedule[j], u, second)
    ensures i < f < c < q < j
    ensures WorkerReturns(StateAt(s, schedule, f), schedule[f], first)
    ensures ConsumesConfirm(StateAt(s, schedule, c), schedule[c], u)
    ensures ListsUnmarked(StateAt(s, schedule, q), schedule[q], u)
  {
    f, c := RedispatchAfterConfirm(s, schedule, i, j, u, first, second);
    q := ListedBetween(s, schedule, c, j, u);
  }

  lemma ListedBetween(s: State, schedule: seq<Label>, c: nat, j: nat, u: Uid) returns (q: nat)
    requires HonestRun(s, schedule) && c < j < |schedule|
    requires StateAt(s, schedule, c).control.DrainConfirms? && Pending(StateAt(s, schedule, j), u)
    ensures c < q < j && ListsUnmarked(StateAt(s, schedule, q), schedule[q], u)
  {
    q := LastMoment(s, schedule, c, j, (t: State) => !Pending(t, u));
    assert HonestAt(s, schedule, q);
    BecomesPending(StateAt(s, schedule, q), schedule[q], u);
  }

  // ----- Exactly when a round dispatches a message ---------------------------------------------

  /** The rest of a round: no new round begins and no new connection is made. */
  predicate InRound(schedule: seq<Label>) {
    forall l :: l in schedule ==> !l.Connect? && !l.Begin?
  }

  predicate DispatchesAt(s: State, schedule: seq<Label>, k: nat, u: Uid) {
    k < |schedule| && Dispatches(StateAt(s, schedule, k), schedule[k], u, StateAt(s, schedule, k).nextId)
  }

  /** The labels by which a listed message gets to its worker. */
  function Listing(u: Uid): seq<Label> {
    [Search([u]), Fetch([Message(u, false)]), Admit]
  }

  function Waiting(s: State, u: Uid): State {
    s.(control := AwaitSlot(u, []), inFlight := s.inFlight + {u})
  }

  lemma SearchStep(s: State, u: Uid)
    requires s.control == Searching && u !in s.inFlight
    ensures Step(s, Search([u])) == s.(control := Fetching([u]))
  {
    assert NotInFlight([u], s.inFlight) == [u];
  }

  lemma AdmitStep(s: State, u: Uid)
    requires s.control == Dispatching([Message(u, false)]) && u !in s.inFlight
    ensures Step(s, Admit) == Waiting(s, u)
  {
    assert s.control.rest[1..] == [];
  }

  lemma ListingRuns(s: State, u: Uid)
    requires s.control == Searching && u !in s.inFlight
    ensures StateAt(s, Listing(u), 0) == s
    ensures StateAt(s, Listing(u), 1) == s.(control := Fetching([u]))
    ensures Run(s, Listing(u)) == Waiting(s, u)
  {
    var r := Listing(u);
    SearchStep(s, u);
    assert StateAt(s, r, 1) == Step(s, Search([u]));
    var listed := s.(control := Dispatching([Message(u, false)]));
    assert StateAt(s, r, 2) == listed;
    AdmitStep(listed, u);
    assert Waiting(listed, u) == Waiting(s, u);
    assert Run(s, r) == Step(listed, Admit);
  }

  lemma ListingIsHonest(s: State, u: Uid)
    requires s.control == Searching && u !in s.inFlight && u !in s.marked
    ensures HonestRun(s, Listing(u)) && SmoothRun(s, Listing(u))
  {
    ListingRuns(s, u);
    forall k: nat | k < 3 ensures HonestAt(s, Listing(u), k) && SmoothAt(s, Listing(u), k) {
      if k == 1 { assert Message(u, false).uid in [u]; }
    }
  }

  /** A message that is neither in flight nor flagged is dispatched by some honest continuation
      of a round that is about to search. */
  lemma UnmarkedIsDispatched(s: State, u: Uid)
    requires s.control == Searching && u !in s.inFlight && u !in s.marked && s.slots < SLOTS
    ensures var schedule := Listing(u) + [Dispatch];
      InRound(schedule) && HonestRun(s, schedule) && DispatchesAt(s, schedule, 3, u)
  {
    ListingRuns(s, u);
    ListingIsHonest(s, u);
    QuietIsFine(Waiting(s, u), [Dispatch]);
    RunsInTurn(s, Listing(u), [Dispatch]);
    PrefixRuns(s, Listing(u), [Dispatch], 3);
  }

  /** Nothing in the rest of this round can dispatch `u`. */
  predicate Blocked(s: State, u: Uid) {
    && (u in s.inFlight || u in s.marked)
    && !Pending(s, u)
    && !s.control.DrainMarks? && !s.control.Storing? && !s.control.DrainConfirms?
  }

  lemma BlockedStep(s: State, l: Label, u: Uid)
    requires Blocked(s, u) && Honest(s, l) && !l.Connect? && !l.Begin?
    ensures Blocked(Step(s, l), u)
  {
    if Pending(Step(s, l), u) {
      BecomesPending(s, l, u);
    }
  }

  lemma {:induction false} BlockedStays(s: State, schedule: seq<Label>, k: nat, u: Uid)
    requires Blocked(s, u) && InRound(schedule) && HonestRun(s, schedule) && k <= |schedule|
    ensures Blocked(StateAt(s, schedule, k), u)
  {
    if k > 0 {
      BlockedStays(s, schedule, k - 1, u);
      assert HonestAt(s, schedule, k - 1) && schedule[k - 1] in schedule;
      BlockedStep(StateAt(s, schedule, k - 1), schedule[k - 1], u);
    }
  }

  /** In a round that is about to search, with a slot to be had, an honest server can bring
      about a dispatch of `u` exactly if `u` is neither in flight nor flagged \Seen: the dedup
      holds as long as one of the two guards does. */
  lemma RoundDispatchesExactly(s: State, u: Uid)
    requires s.control == Searching && s.slots < SLOTS
    ensures (exists schedule, k: nat :: InRound(schedule) && HonestRun(s, schedule) && DispatchesAt(s, schedule, k, u)) <==>
            u !in s.inFlight && u !in s.marked
  {
    if u !in s.inFlight && u !in s.marked {
      UnmarkedIsDispatched(s, u);
    } else {
      forall schedule, k: nat | InRound(schedule) && HonestRun(s, schedule) && k < |schedule|
        ensures !DispatchesAt(s, schedule, k, u)
      {
        BlockedStays(s, schedule, k, u);
      }
    }
  }

  // ----- Putting runs together -------------------------------------------------------------------

  lemma InTurn(s: State, a: seq<Label>, b: seq<Label>)
    ensures Run(s, a + b) == Run(Run(s, a), b)
  {
    RunsCompose(s, a, b, |b|);
  }

  /** Honest and smooth runs in turn are one honest and smooth run. */
  lemma RunsInTurn(s: State, a: seq<Label>, b: seq<Label>)
    requires HonestRun(s, a) && HonestRun(Run(s, a), b)
    ensures HonestRun(s, a + b)
    ensures SmoothRun(s, a) && SmoothRun(Run(s, a), b) ==> SmoothRun(s, a + b)
  {
    forall k: nat | k < |a + b|
      ensures HonestAt(s, a + b, k)
      ensures SmoothRun(s, a) && SmoothRun(Run(s, a), b) ==> SmoothAt(s, a + b, k)
    {
      if k < |a| {
        PrefixRuns(s, a, b, k);
        assert HonestAt(s, a, k) && (SmoothRun(s, a) ==> SmoothAt(s, a, k));
      } else {
        var m: nat := k - |a|;
        RunsCompose(s, a, b, m);
        assert HonestAt(Run(s, a), b, m) && (SmoothRun(Run(s, a), b) ==> SmoothAt(Run(s, a), b, m));
      }
    }
  }

  /** Labels whose effect no server and no full channel can spoil. */
  predicate Quiet(l: Label) {
    !l.Search? && !l.Fetch? && !l.SendMark? && !l.SendConfirm? && !l.Store? && !l.RecoveryStore?
  }

  lemma QuietIsFine(s: State, schedule: seq<Label>)
    requires forall l :: l in schedule ==> Quiet(l)
    ensures HonestRun(s, schedule) && SmoothRun(s, schedule)
  {
    forall k: nat | k < |schedule| ensures HonestAt(s, schedule, k) && SmoothAt(s, schedule, k) {
      assert schedule[k] in schedule;
    }
  }

  lemma NoQuestionIsHonest(s: State, schedule: seq<Label>)
    requires forall l :: l in schedule ==> !l.Search? && !l.Fetch?
    ensures HonestRun(s, schedule)
  {
    forall k: nat | k < |schedule| ensures HonestAt(s, schedule, k) {
      assert schedule[k] in schedule;
    }
  }

  // ----- The same message twice in one connection ---------------------------------------------

  function WithWorker(s: State, u: Uid): State {
    s.(control := LoopTop, slots := s.slots + 1, nextId := s.nextId + 1,
       workers := s.workers[s.nextId := Worker(FromListener, u, Queued)])
  }

  const Handing: seq<Label> := [Dispatch, EndBatch]

  lemma HandingRuns(s: State, u: Uid)
    requires s.control == AwaitSlot(u, []) && s.slots < SLOTS
    ensures Dispatches(s, Handing[0], u, s.nextId)
    ensures Run(s, Handing) == WithWorker(s, u)
  {
    assert StateAt(s, Handing, 0) == s;
    assert StateAt(s, Handing, 1) == WithWorker(s, u).(control := Dispatching([]));
  }

  /** The way to a search when both channels are empty. */
  const Draining: seq<Label> := [Begin, EndMarks, Store({}), EndConfirms]

  lemma DrainingRuns(s: State)
    requires s.control == LoopTop && s.seenCh == [] && s.confirmCh == []
    ensures Run(s, Draining) == s.(control := Searching)
    ensures HonestRun(s, Draining) && SmoothRun(s, Draining)
  {
    assert StateAt(s, Draining, 1) == s.(control := DrainMarks([]));
    assert StateAt(s, Draining, 2) == s.(control := Storing([]));
    assert StateAt(s, Draining, 3) == s.(control := DrainConfirms);
    NoQuestionIsHonest(s, Draining);
    forall k: nat | k < 4 ensures SmoothAt(s, Draining, k) {
      if k == 2 { assert Elements([]) == {}; }
    }
  }

  /** Worker `id` scans, finishes and sends both of its signals. */
  function Signals(id: nat): seq<Label> { [StartScan(id), Finish(id), SendMark(id), SendConfirm(id)] }

  function InPhaseOf(s: State, id: nat, u: Uid, phase: Phase): State {
    s.(workers := s.workers[id := Worker(FromListener, u, phase)])
  }

  lemma FinishStep(s: State, id: nat, u: Uid)
    requires id in s.workers && s.workers[id] == Worker(FromListener, u, Queued) && s.scans < s.maxScans
    ensures Step(Step(s, StartScan(id)), Finish(id)) == InPhaseOf(s, id, u, Returned).(returned := s.returned + {u})
  {
    var scanning := InPhaseOf(s, id, u, Scanning).(scans := s.scans + 1);
    assert Step(s, StartScan(id)) == scanning;
    assert InPhaseOf(scanning, id, u, Returned).workers == InPhaseOf(s, id, u, Returned).workers;
  }

  lemma SendSteps(s: State, id: nat, u: Uid)
    requires id in s.workers && s.workers[id] == Worker(FromListener, u, Returned) && s.seenCh == [] && s.confirmCh == []
    ensures Step(s, SendMark(id)) == InPhaseOf(s, id, u, Marked).(seenCh := [u])
    ensures Step(Step(s, SendMark(id)), SendConfirm(id)) == InPhaseOf(s, id, u, Confirmed).(seenCh := [u], confirmCh := [u])
  {
    var marked := InPhaseOf(s, id, u, Marked).(seenCh := [u]);
    assert InPhaseOf(marked, id, u, Confirmed).workers == InPhaseOf(s, id, u, Confirmed).workers;
  }

  function Signalled(s: State, id: nat, u: Uid): State {
    InPhaseOf(s, id, u, Confirmed).(returned := s.returned + {u}, seenCh := [u], confirmCh := [u])
  }

  lemma SignalsRun(s: State, id: nat, u: Uid)
    requires s.seenCh == [] && s.confirmCh == [] && s.scans < s.maxScans
    requires id in s.workers && s.workers[id] == Worker(FromListener, u, Queued)
    ensures Run(s, Signals(id)) == Signalled(s, id, u)
    ensures HonestRun(s, Signals(id)) && SmoothRun(s, Signals(id))
  {
    var r := Signals(id);
    var back := InPhaseOf(s, id, u, Returned).(returned := s.returned + {u});
    assert StateAt(s, r, 1) == Step(s, StartScan(id));
    FinishStep(s, id, u);
    assert StateAt(s, r, 2) == back;
    SendSteps(back, id, u);
    assert StateAt(s, r, 3) == Step(back, SendMark(id));
    assert InPhaseOf(back, id, u, Confirmed).workers == InPhaseOf(s, id, u, Confirmed).workers;
    NoQuestionIsHonest(s, r);
    forall k: nat | k < 4 ensures SmoothAt(s, r, k) {
    }
  }

  /** drainSeen has found nothing and left its loop. */
  const Missing: seq<Label> := [Begin, EndMarks]

  lemma MissingRuns(s: State)
    requires s.control == LoopTop && s.seenCh == []
    ensures Run(s, Missing) == s.(control := Storing([]))
    ensures HonestRun(s, Missing) && SmoothRun(s, Missing)
  {
    assert StateAt(s, Missing, 1) == s.(control := DrainMarks([]));
    QuietIsFine(s, Missing);
  }

  /** The confirmation is consumed while the mark is still in seenCh. */
  const Confirming: seq<Label> := [Store({}), PullConfirm, EndConfirms]

  lemma ConfirmingRuns(s: State, u: Uid)
    requires s.control == Storing([]) && s.confirmCh == [u]
    ensures StateAt(s, Confirming, 0) == s && StateAt(s, Confirming, 1) == s.(control := DrainConfirms)
    ensures Run(s, Confirming) == s.(control := Searching, inFlight := s.inFlight - {u}, confirmCh := [])
  {
    assert StateAt(s, Confirming, 0) == s;
    assert StateAt(s, Confirming, 1) == s.(control := DrainConfirms);
    assert StateAt(s, Confirming, 2) == s.(control := DrainConfirms, inFlight := s.inFlight - {u}, confirmCh := []);
  }

  lemma ConfirmingIsSmooth(s: State)
    requires s.control == Storing([])
    ensures HonestRun(s, Confirming) && SmoothRun(s, Confirming)
  {
    NoQuestionIsHonest(s, Confirming);
    assert StateAt(s, Confirming, 0) == s && Elements([]) == {};
    forall k: nat | k < 3 ensures SmoothAt(s, Confirming, k) {
    }
  }

  /** A first round for `u`, up to the wait for a slot. */
  function FirstTime(u: Uid): seq<Label> { Draining + Listing(u) }

  /** The second one: worker 0 sends its signals between drainSeen and the confirmation loop. */
  function SecondTime(u: Uid): seq<Label> { Missing + (Signals(0) + (Confirming + Listing(u))) }

  lemma FirstTimeRuns(s: State, u: Uid)
    requires s.control == LoopTop && s.seenCh == [] && s.confirmCh == [] && u !in s.inFlight && u !in s.marked
    ensures Run(s, FirstTime(u)) == Waiting(s, u)
    ensures HonestRun(s, FirstTime(u)) && SmoothRun(s, FirstTime(u))
  {
    DrainingRuns(s);
    var searching := s.(control := Searching);
    ListingRuns(searching, u);
    ListingIsHonest(searching, u);
    InTurn(s, Draining, Listing(u));
    RunsInTurn(s, Draining, Listing(u));
    assert Waiting(searching, u) == Waiting(s, u);
  }

  /** After the signals: confirmation consumed, and listed again. */
  lemma ListedAgain(s: State, u: Uid)
    requires s.control == Storing([]) && s.seenCh == [u] && s.confirmCh == [u] && u !in s.marked
    ensures Run(s, Confirming + Listing(u)).control == AwaitSlot(u, []) && Run(s, Confirming + Listing(u)).slots == s.slots
    ensures Run(s, Confirming + Listing(u)).nextId == s.nextId
    ensures HonestRun(s, Confirming + Listing(u)) && SmoothRun(s, Confirming + Listing(u))
    ensures var t := StateAt(s, Confirming + Listing(u), 1);
      ConsumesConfirm(t, PullConfirm, u) && u in t.seenCh
  {
    ConfirmingRuns(s, u);
    ConfirmingIsSmooth(s);
    var searching := s.(control := Searching, inFlight := s.inFlight - {u}, confirmCh := []);
    ListingRuns(searching, u);
    ListingIsHonest(searching, u);
    InTurn(s, Confirming, Listing(u));
    RunsInTurn(s, Confirming, Listing(u));
    PrefixRuns(s, Confirming, Listing(u), 1);
  }

  lemma SecondTimeRuns(s: State, u: Uid)
    requires s.control == LoopTop && s.seenCh == [] && s.confirmCh == [] && u !in s.marked && s.scans < s.maxScans
    requires 0 in s.workers && s.workers[0] == Worker(FromListener, u, Queued)
    ensures var t := Run(s, SecondTime(u)); t.control == AwaitSlot(u, []) && t.slots == s.slots && t.nextId == s.nextId
    ensures HonestRun(s, SecondTime(u)) && SmoothRun(s, SecondTime(u))
    ensures var t := StateAt(s, SecondTime(u), 7);
      ConsumesConfirm(t, SecondTime(u)[7], u) && u in t.seenCh
  {
    MissingRuns(s);
    var missed := s.(control := Storing([]));
    SignalsRun(missed, 0, u);
    var tail := Confirming + Listing(u);
    ListedAgain(Signalled(missed, 0, u), u);
    InTurn(missed, Signals(0), tail);
    RunsInTurn(missed, Signals(0), tail);
    InTurn(s, Missing, Signals(0) + tail);
    RunsInTurn(s, Missing, Signals(0) + tail);
    RunsCompose(missed, Signals(0), tail, 1);
    RunsCompose(s, Missing, Signals(0) + tail, 5);
  }

  function Connected(maxScans: nat): State { Initial(maxScans).(control := LoopTop) }

  lemma ConnectedIsClean(maxScans: nat)
    ensures CleanConnection(Connected(maxScans))
  {
    InitialIsGood(maxScans);
  }

  /** Both rounds, with the hand-over to a worker after each. */
  function Twice(u: Uid): seq<Label> { FirstTime(u) + (Handing + (SecondTime(u) + [Dispatch])) }

  lemma FromSecondRound(s: State, u: Uid)
    requires s.control == LoopTop && s.seenCh == [] && s.confirmCh == [] && u !in s.marked && s.scans < s.maxScans
    requires 0 in s.workers && s.workers[0] == Worker(FromListener, u, Queued) && s.slots < SLOTS
    ensures var r := SecondTime(u) + [Dispatch];
      && HonestRun(s, r) && SmoothRun(s, r)
      && ConsumesConfirm(StateAt(s, r, 7), r[7], u) && u in StateAt(s, r, 7).seenCh
      && Dispatches(StateAt(s, r, 12), r[12], u, s.nextId)
  {
    SecondTimeRuns(s, u);
    QuietIsFine(Run(s, SecondTime(u)), [Dispatch]);
    RunsInTurn(s, SecondTime(u), [Dispatch]);
    PrefixRuns(s, SecondTime(u), [Dispatch], 7);
    PrefixRuns(s, SecondTime(u), [Dispatch], 12);
  }

  /** The schedule dispatches `u` at i and at j, and at c in between its confirmation is
      consumed while its mark is still in seenCh. */
  predicate TwiceAt(s: State, r: seq<Label>, i: nat, c: nat, j: nat, u: Uid) {
    && i < c < j < |r|
    && Dispatches(StateAt(s, r, i), r[i], u, 0)
    && ConsumesConfirm(StateAt(s, r, c), r[c], u) && u in StateAt(s, r, c).seenCh
    && Dispatches(StateAt(s, r, j), r[j], u, 1)
  }

  lemma TwiceShifts(s: State, a: seq<Label>, b: seq<Label>, i: nat, c: nat, j: nat, u: Uid)
    requires TwiceAt(Run(s, a), b, i, c, j, u)
    ensures TwiceAt(s, a + b, |a| + i, |a| + c, |a| + j, u)
  {
    RunsCompose(s, a, b, i);
    RunsCompose(s, a, b, c);
    RunsCompose(s, a, b, j);
  }

  lemma FromHanding(s: State, u: Uid)
    requires s.control == AwaitSlot(u, []) && s.seenCh == [] && s.confirmCh == [] && u !in s.marked && s.scans < s.maxScans
    requires s.slots + 1 < SLOTS && s.nextId == 0
    ensures var r := Handing + (SecondTime(u) + [Dispatch]);
      HonestRun(s, r) && SmoothRun(s, r) && TwiceAt(s, r, 0, 9, 14, u)
  {
    var tail := SecondTime(u) + [Dispatch];
    HandingRuns(s, u);
    FromSecondRound(WithWorker(s, u), u);
    QuietIsFine(s, Handing);
    RunsInTurn(s, Handing, tail);
    RunsCompose(s, Handing, tail, 7);
    RunsCompose(s, Handing, tail, 12);
    assert StateAt(s, Handing + tail, 0) == s;
  }

  lemma TwiceRuns(s: State, u: Uid)
    requires s.control == LoopTop && s.seenCh == [] && s.confirmCh == [] && u !in s.inFlight && u !in s.marked
    requires s.scans < s.maxScans && s.slots + 1 < SLOTS && s.nextId == 0
    ensures HonestRun(s, Twice(u)) && SmoothRun(s, Twice(u)) && TwiceAt(s, Twice(u), 7, 16, 21, u)
  {
    var tail := Handing + (SecondTime(u) + [Dispatch]);
    FirstTimeRuns(s, u);
    FromHanding(Waiting(s, u), u);
    RunsInTurn(s, FirstTime(u), tail);
    TwiceShifts(s, FirstTime(u), tail, 0, 9, 14, u);
  }

  lemma TwiceIsOneConnection(u: Uid)
    ensures OneConnection(Twice(u))
  {
  }

  /** Within one connection to an honest server, with no signal dropped and every STORE in full
      effect, the same message can be dispatched twice: its confirmation is consumed while its
      \Seen mark still waits in seenCh. */
  lemma AtMostOnceFails(maxScans: nat, u: Uid) returns (schedule: seq<Label>, i: nat, c: nat, j: nat)
    requires maxScans > 0
    ensures CleanConnection(Connected(maxScans)) && OneConnection(schedule)
    ensures HonestRun(Connected(maxScans), schedule) && SmoothRun(Connected(maxScans), schedule)
    ensures TwiceAt(Connected(maxScans), schedule, i, c, j, u)
  {
    schedule, i, c, j := Twice(u), 7, 16, 21;
    ConnectedIsClean(maxScans);
    TwiceIsOneConnection(u);
    TwiceRuns(Connected(maxScans), u);
  }

  // ----- Overlap across a reconnect ------------------------------------------------------------

  lemma RunCons(s: State, l: Label, r: seq<Label>)
    ensures Run(s, [l] + r) == Run(Step(s, l), r)
  {
    OneLabelRuns(s, l);
    InTurn(s, [l], r);
  }

  /** The labels by which a worker gets on to its end. */
  predicate WorkerLabel(l: Label) {
    l.StartScan? || l.Finish? || l.SendMark? || l.SendConfirm? || l.Release?
  }

  predicate WorkerLabels(r: seq<Label>) {
    forall l :: l in r ==> WorkerLabel(l)
  }

  /** The connection goroutine stands where it stood, and worker `w` is still unconfirmed. */
  predicate Untouched(s: State, t: State, w: nat) {
    && t.control == s.control && t.inFlight == s.inFlight && t.marked == s.marked && t.maxScans == s.maxScans
    && w in s.workers && w in t.workers && Active(s.workers[w]) && Active(t.workers[w])
    && t.workers[w].uid == s.workers[w].uid
  }

  lemma WorkerLabelKeeps(s: State, l: Label, w: nat)
    requires Enabled(s, l) && WorkerLabel(l) && l != SendConfirm(w) && w in s.workers && Active(s.workers[w])
    ensures Untouched(s, Apply(s, l), w)
    ensures Apply(s, l).slots == s.slots - One(l.Release? && s.workers[l.id].origin.FromListener?)
    ensures !l.Release? ==> Apply(s, l).workers.Keys == s.workers.Keys
  {
  }

  function ToDo(p: Phase): nat {
    match p case Queued => 4 case Scanning => 3 case Returned => 2 case Marked => 1 case Confirmed => 0
  }

  /** The next label of worker `x`, or of one that holds the scan slot `x` needs. */
  lemma NextOf(s: State, x: nat) returns (l: Label)
    requires SlotsAccounted(s) && s.maxScans > 0 && x in s.workers && s.workers[x].origin.FromListener?
    ensures WorkerLabel(l) && Enabled(s, l)
    ensures s.workers[x].phase.Queued? && s.scans == s.maxScans ==> l.Finish? && l.id != x
    ensures !(s.workers[x].phase.Queued? && s.scans == s.maxScans) ==> l.id == x
  {
    assert x in Ids(s.workers, OfListener);
    match s.workers[x].phase
    case Queued =>
      if s.scans < s.maxScans {
        l := StartScan(x);
      } else {
        var y :| y in Ids(s.workers, HoldsScanSlot);
        l := Finish(y);
      }
    case Scanning =>
      assert x in Ids(s.workers, HoldsScanSlot);
      l := Finish(x);
    case Returned => l := SendMark(x);
    case Marked => l := SendConfirm(x);
    case Confirmed => l := Release(x);
  }

  lemma PhaseAfter(s: State, l: Label, x: nat)
    requires Enabled(s, l) && WorkerLabel(l) && x in s.workers && s.workers[x].origin.FromListener?
    requires if s.workers[x].phase.Queued? && s.scans == s.maxScans then l.Finish? && l.id != x else l.id == x && !l.Release?
    ensures var t := Apply(s, l);
      && x in t.workers && t.workers[x].origin.FromListener?
      && (l.id == x ==> ToDo(t.workers[x].phase) < ToDo(s.workers[x].phase))
      && (l.id != x ==> t.workers[x] == s.workers[x] && t.scans < t.maxScans)
  {
  }

  /** Any other listener worker can run to its end and give its slot back, without a
      cancellation, while the connection goroutine and worker `w` stay as they are. */
  lemma {:induction false} RunsToItsEnd(s: State, x: nat, w: nat) returns (r: seq<Label>)
    requires SlotsAccounted(s) && s.maxScans > 0
    requires x in s.workers && x != w && s.workers[x].origin.FromListener? && w in s.workers && Active(s.workers[w])
    ensures WorkerLabels(r) && SlotsAccounted(Run(s, r))
    ensures Untouched(s, Run(s, r), w) && Run(s, r).slots == s.slots - 1
    decreases ToDo(s.workers[x].phase), One(s.scans == s.maxScans)
  {
    var l := NextOf(s, x);
    WorkerLabelKeeps(s, l, w);
    StepKeepsSlotsAccounted(s, l);
    if l.Release? {
      r := [l];
      OneLabelRuns(s, l);
    } else {
      PhaseAfter(s, l, x);
      var rest := RunsToItsEnd(Step(s, l), x, w);
      r := [l] + rest;
      RunCons(s, l, rest);
    }
  }

  /** So a slot can always be had for another message. */
  lemma FreeSlot(s: State, w: nat) returns (r: seq<Label>)
    requires SlotsAccounted(s) && s.maxScans > 0 && w in s.workers && Active(s.workers[w])
    ensures WorkerLabels(r) && Untouched(s, Run(s, r), w) && Run(s, r).slots < SLOTS
    ensures SlotsAccounted(Run(s, r))
  {
    if s.slots < SLOTS {
      r := [];
    } else {
      var others := Ids(s.workers, OfListener) - {w};
      assert w in Ids(s.workers, OfListener) && |others| == SLOTS - 1;
      var x :| x in others;
      r := RunsToItsEnd(s, x, w);
    }
  }

  /** From the top of the loop to the search, whatever is in the channels; the STORE fails. */
  function DrainAll(s: State): seq<Label> {
    [Begin] + ((Repeat(PullMark, |s.seenCh|) + [EndMarks, Store({})]) + (Repeat(PullConfirm, |s.confirmCh|) + [EndConfirms]))
  }

  lemma DrainAllRuns(s: State)
    requires s.control == LoopTop
    ensures Run(s, DrainAll(s)) ==
      s.(control := Searching, seenCh := [], confirmCh := [], inFlight := s.inFlight - Elements(s.confirmCh))
  {
    var marks, confirms := Repeat(PullMark, |s.seenCh|) + [EndMarks, Store({})], Repeat(PullConfirm, |s.confirmCh|) + [EndConfirms];
    var begun := s.(control := DrainMarks([]));
    DrainSeenRuns(begun, {});
    var stored := s.(control := DrainConfirms, seenCh := []);
    assert stored == begun.(control := DrainConfirms, seenCh := [], marked := begun.marked + {});
    DrainConfirmedRuns(stored);
    InTurn(begun, marks, confirms);
    RunCons(s, Begin, marks + confirms);
  }

  function Again(s: State, u: Uid): seq<Label> { DrainAll(s) + (Listing(u) + [Dispatch]) }

  lemma DispatchedAgain(s: State, u: Uid)
    requires s.control == LoopTop && s.inFlight == {} && s.slots < SLOTS
    ensures var t := Run(s, Again(s, u)); t.workers == s.workers[s.nextId := Worker(FromListener, u, Queued)]
    ensures u !in s.marked ==> HonestRun(s, Again(s, u))
  {
    DrainAllRuns(s);
    var searching := s.(control := Searching, seenCh := [], confirmCh := []);
    assert {} - Elements(s.confirmCh) == {};
    ListingRuns(searching, u);
    OneLabelRuns(Waiting(searching, u), Dispatch);
    InTurn(searching, Listing(u), [Dispatch]);
    InTurn(s, DrainAll(s), Listing(u) + [Dispatch]);
    if u !in s.marked {
      UnmarkedIsDispatched(searching, u);
      NoQuestionIsHonest(s, DrainAll(s));
      RunsInTurn(s, DrainAll(s), Listing(u) + [Dispatch]);
    }
  }

  /** A worker left over from an earlier connection can be joined by a second one for the same
      message, because runOnce forgets the in-flight set; if the message is not flagged \Seen
      the server need only be honest. */
  lemma LeftoverOverlaps(s: State, w: nat) returns (schedule: seq<Label>)
    requires JustConnected(s) && s.maxScans > 0 && w in s.workers && Active(s.workers[w])
    ensures OneConnection(schedule) && !Disjoint(Run(s, schedule))
    ensures s.workers[w].uid !in s.marked ==> HonestRun(s, schedule)
  {
    var u := s.workers[w].uid;
    var r := FreeSlot(s, w);
    var t := Run(s, r);
    DispatchedAgain(t, u);
    schedule := r + Again(t, u);
    InTurn(s, r, Again(t, u));
    var after := Run(t, Again(t, u));
    assert after.workers[w] == t.workers[w] && after.workers[t.nextId] == Worker(FromListener, u, Queued);
    if u !in s.marked {
      NoQuestionIsHonest(s, r);
      RunsInTurn(s, r, Again(t, u));
    }
  }

  /** Right after a connection is established, every run of that connection keeps its listener
      workers apart exactly if no unconfirmed worker is left over from an earlier one. */
  lemma OverlapExactly(s: State)
    requires JustConnected(s) && s.maxScans > 0
    ensures (forall schedule :: OneConnection(schedule) ==> Disjoint(Run(s, schedule))) <==> NoLeftover(s)
  {
    if NoLeftover(s) {
      forall schedule | OneConnection(schedule) ensures Disjoint(Run(s, schedule)) {
        NoOverlap(s, schedule);
      }
    } else {
      var w :| w in s.workers && Active(s.workers[w]);
      var schedule := LeftoverOverlaps(s, w);
    }
  }

  // ----- The same with an honest server ------------------------------------------------------------

  /** These messages are flagged \Seen, and the current round is not on its way to any of them. */
  predicate OutOfReach(s: State, uids: set<Uid>) {
    uids <= s.marked && forall u :: u in uids ==> !Pending(s, u)
  }

  lemma StepKeepsOutOfReach(s: State, l: Label, uids: set<Uid>)
    requires OutOfReach(s, uids) && Honest(s, l)
    ensures OutOfReach(Step(s, l), uids)
  {
    assert s.marked <= Step(s, l).marked;
    forall u | u in uids ensures !Pending(Step(s, l), u) {
      if Pending(Step(s, l), u) { BecomesPending(s, l, u); }
    }
  }

  lemma {:induction false} StaysOutOfReach(s: State, schedule: seq<Label>, k: nat, uids: set<Uid>)
    requires OutOfReach(s, uids) && HonestRun(s, schedule) && k <= |schedule|
    ensures OutOfReach(StateAt(s, schedule, k), uids)
  {
    if k > 0 {
      StaysOutOfReach(s, schedule, k - 1, uids);
      assert HonestAt(s, schedule, k - 1);
      StepKeepsOutOfReach(StateAt(s, schedule, k - 1), schedule[k - 1], uids);
    }
  }

  lemma AdmittedIsPending(s: State, l: Label, u: Uid)
    requires Admits(s, l, u)
    ensures Pending(s, u)
  {
    assert s.control.rest[0] in s.control.rest;
  }

  lemma OutOfReachIsNotAdmitted(s: State, schedule: seq<Label>, uids: set<Uid>)
    requires OutOfReach(s, uids) && HonestRun(s, schedule)
    ensures NeverAdmits(s, schedule, uids)
  {
    forall u, k: nat | u in uids && k < |schedule| ensures !AdmittedAt(s, schedule, k, u) {
      StaysOutOfReach(s, schedule, k, uids);
      if AdmittedAt(s, schedule, k, u) { AdmittedIsPending(StateAt(s, schedule, k), schedule[k], u); }
    }
  }

  predicate IsWithin(s: State, id: nat, uids: set<Uid>) {
    id in s.workers && Active(s.workers[id]) && s.workers[id].uid in uids
  }

  /** The unconfirmed listener workers for these messages are apart. */
  predicate DisjointWithin(s: State, uids: set<Uid>) {
    forall i, j :: i in s.workers && j in s.workers && IsWithin(s, i, uids) && IsWithin(s, j, uids) && i != j ==>
      s.workers[i].uid != s.workers[j].uid
  }

  /** No worker for them is added. */
  lemma NoneAdded(s: State, l: Label, uids: set<Uid>, id: nat)
    requires OutOfReach(s, uids) && IsWithin(Step(s, l), id, uids)
    ensures IsWithin(s, id, uids) && s.workers[id].uid == Step(s, l).workers[id].uid
  {
  }

  lemma StepKeepsDisjointWithin(s: State, l: Label, uids: set<Uid>)
    requires DisjointWithin(s, uids) && OutOfReach(s, uids)
    ensures DisjointWithin(Step(s, l), uids)
  {
    var t := Step(s, l);
    forall i, j | i in t.workers && j in t.workers && IsWithin(t, i, uids) && IsWithin(t, j, uids) && i != j
      ensures t.workers[i].uid != t.workers[j].uid
    {
      NoneAdded(s, l, uids, i);
      NoneAdded(s, l, uids, j);
    }
  }

  predicate Apart(s: State, uids: set<Uid>) {
    DisjointWithin(s, uids) && OutOfReach(s, uids)
  }

  lemma StepKeepsApart(s: State, l: Label, uids: set<Uid>, t: State)
    requires Apart(s, uids) && Honest(s, l) && t == Step(s, l)
    ensures Apart(t, uids)
  {
    StepKeepsDisjointWithin(s, l, uids);
    StepKeepsOutOfReach(s, l, uids);
  }

  lemma {:induction false} StaysApart(s: State, schedule: seq<Label>, k: nat, uids: set<Uid>)
    requires Apart(s, uids) && HonestRun(s, schedule) && k <= |schedule|
    ensures Apart(StateAt(s, schedule, k), uids)
  {
    if k > 0 {
      var t := StateAt(s, schedule, k - 1);
      StaysApart(s, schedule, k - 1, uids);
      assert HonestAt(s, schedule, k - 1);
      StepKeepsApart(t, schedule[k - 1], uids, StateAt(s, schedule, k));
    }
  }

  /** Every unconfirmed leftover worker has a message that is flagged \Seen already. */
  predicate LeftoversMarked(s: State) {
    forall id :: id in s.workers && Active(s.workers[id]) ==> s.workers[id].uid in s.marked
  }

  lemma HonestRunStaysDisjoint(s: State, schedule: seq<Label>)
    requires JustConnected(s) && Disjoint(s) && LeftoversMarked(s) && OneConnection(schedule) && HonestRun(s, schedule)
    ensures Disjoint(Run(s, schedule))
  {
    OutOfReachIsNotAdmitted(s, schedule, s.marked);
    SingleClaimFrom(s, schedule, |schedule|, s.marked);
    StaysApart(s, schedule, |schedule|, s.marked);
    TogetherDisjoint(Run(s, schedule), s.marked);
  }

  lemma TogetherDisjoint(s: State, uids: set<Uid>)
    requires DisjointWithin(s, uids) && (Undrained(s, uids) || SingleClaimBeyond(s, uids))
    ensures Disjoint(s)
  {
    forall i, j | i in s.workers && j in s.workers && i != j && Active(s.workers[i]) && Active(s.workers[j])
      ensures s.workers[i].uid != s.workers[j].uid
    {
      assert if s.workers[i].uid in uids then IsWithin(s, i, uids) else Claims(s, i, uids);
      assert if s.workers[j].uid in uids then IsWithin(s, j, uids) else Claims(s, j, uids);
    }
  }

  /** With an honest server every run of a new connection keeps its listener workers apart exactly
      if they are apart to begin with and every leftover one has a message flagged \Seen. */
  lemma HonestOverlapExactly(s: State)
    requires JustConnected(s) && s.maxScans > 0
    ensures (forall schedule :: OneConnection(schedule) && HonestRun(s, schedule) ==> Disjoint(Run(s, schedule))) <==>
            Disjoint(s) && LeftoversMarked(s)
  {
    if Disjoint(s) && LeftoversMarked(s) {
      forall schedule | OneConnection(schedule) && HonestRun(s, schedule) ensures Disjoint(Run(s, schedule)) {
        HonestRunStaysDisjoint(s, schedule);
      }
    } else if !Disjoint(s) {
      QuietIsFine(s, []);
      assert OneConnection([]) && Run(s, []) == s;
    } else {
      var w :| w in s.workers && Active(s.workers[w]) && s.workers[w].uid !in s.marked;
      var schedule := LeftoverOverlaps(s, w);
    }
  }

  /** Nothing new is listed, the connection is lost and made again. */
  const Reconnecting: seq<Label> := [Search([]), Disconnect, Connect(true)]

  lemma ReconnectingRuns(s: State)
    requires s.control == Searching
    ensures Run(s, Reconnecting) == s.(control := LoopTop, inFlight := {})
    ensures HonestRun(s, Reconnecting)
  {
    assert NotInFlight([], s.inFlight) == [];
    assert StateAt(s, Reconnecting, 1) == s.(control := Idle);
    assert StateAt(s, Reconnecting, 2) == s.(control := Offline);
    forall k: nat | k < 3 ensures HonestAt(s, Reconnecting, k) {
    }
  }

  lemma DrainAndReconnect(s: State)
    requires s.control == LoopTop && s.seenCh == [] && s.confirmCh == []
    ensures Run(s, Draining + Reconnecting) == s.(inFlight := {})
    ensures HonestRun(s, Draining + Reconnecting)
  {
    DrainingRuns(s);
    ReconnectingRuns(s.(control := Searching));
    InTurn(s, Draining, Reconnecting);
    RunsInTurn(s, Draining, Reconnecting);
  }

  lemma ReconnectLeavesWorker(s: State, u: Uid) returns (r: seq<Label>)
    requires s.control == AwaitSlot(u, []) && s.seenCh == [] && s.confirmCh == [] && s.slots < SLOTS
    ensures Run(s, r) == WithWorker(s, u).(inFlight := {}) && HonestRun(s, r)
  {
    HandingRuns(s, u);
    QuietIsFine(s, Handing);
    DrainAndReconnect(WithWorker(s, u));
    r := Handing + (Draining + Reconnecting);
    InTurn(s, Handing, Draining + Reconnecting);
    RunsInTurn(s, Handing, Draining + Reconnecting);
  }

  /** Such a leftover is reachable, so across a reconnect two workers can be processing the same
      message at once, with a server that is honest throughout. */
  lemma ReconnectAllowsOverlap(maxScans: nat, u: Uid) returns (schedule: seq<Label>)
    requires maxScans > 0
    ensures HonestRun(Connected(maxScans), schedule) && !Disjoint(Run(Connected(maxScans), schedule))
  {
    var s := Connected(maxScans);
    FirstTimeRuns(s, u);
    var r := ReconnectLeavesWorker(Waiting(s, u), u);
    InTurn(s, FirstTime(u), r);
    RunsInTurn(s, FirstTime(u), r);
    var before := FirstTime(u) + r;
    ConnectedIsClean(maxScans);
    SlotsAccountedFrom(s, before, |before|);
    var tail := LeftoverOverlaps(Run(s, before), 0);
    schedule := before + tail;
    InTurn(s, before, tail);
    RunsInTurn(s, before, tail);
  }
}
