/**
 The dispatch protocol of one mailbox: the listener loop (`runOnce`, `fetchUnseen`,
 `drainSeen`), its worker goroutines, and the recovery scan that shares the mailbox
 and the pipeline's scan slots with it.

 Every blocking point and every channel operation of the source is one label, so a
 sequence of labels is an interleaving of the goroutines. What the server answers
 (search results, fetched messages, which part of a STORE took effect) is carried by
 the label and is arbitrary. A label that is not enabled leaves the state unchanged,
 hence every sequence of labels is a schedule.
 */
module ListenerProtocol {

  type Uid = nat

  /** Capacity of `dispatchSem`, for the listener and for the recovery scan. */
  const SLOTS: nat := 50
  /** Capacity of `seenCh` and of `seenConfirmCh`. */
  const CHANNEL_CAP: nat := 256

  datatype Origin = FromListener | FromRecovery

  /** Queued: inside onEmail, waiting for a scan slot. Scanning: inside onEmail, holding one.
      Returned: onEmail is back. Marked: past the seenCh send. Confirmed: past the
      seenConfirmCh send, about to give the dispatch slot back. */
  datatype Phase = Queued | Scanning | Returned | Marked | Confirmed

  datatype Worker = Worker(origin: Origin, uid: Uid, phase: Phase)

  datatype Message = Message(uid: Uid, empty: bool)

  /** Where the goroutine that owns the IMAP connection stands. */
  datatype Control =
    | Offline
    | Idle
    | LoopTop
    | DrainMarks(batch: seq<Uid>)
    | Storing(batch: seq<Uid>)
    | DrainConfirms
    | Searching
    | Fetching(wanted: seq<Uid>)
    | Dispatching(rest: seq<Message>)
    | AwaitSlot(uid: Uid, rest: seq<Message>)

  /** Where the recovery goroutine stands; `sent` is its dispatchedUIDs. */
  datatype Recovery =
    | Resting
    | Sending(pending: seq<Message>, sent: seq<Uid>)
    | Marking(sent: seq<Uid>)

  datatype State = State(
    control: Control,
    inFlight: set<Uid>,
    seenCh: seq<Uid>,
    confirmCh: seq<Uid>,
    slots: nat,
    recovery: Recovery,
    recoverySlots: nat,
    scans: nat,
    maxScans: nat,
    workers: map<nat, Worker>,
    nextId: nat,
    recorded: set<Uid>,  // UIDs that have a database row under their source key
    marked: set<Uid>,    // UIDs this program has flagged \Seen
    returned: set<Uid>)  // UIDs for which some onEmail call has returned

  datatype Label =
    // connection goroutine
    | Connect(ok: bool) | Disconnect | Notify | Stop | Begin
    | PullMark | EndMarks | Store(applied: set<Uid>)
    | PullConfirm | EndConfirms
    | Search(found: seq<Uid>) | Fetch(messages: seq<Message>) | Abort
    | Skip | Admit | Dispatch | CancelWait | EndBatch
    // worker goroutines
    | StartScan(id: nat) | Finish(id: nat) | CancelScan(id: nat)
    | SendMark(id: nat) | SendConfirm(id: nat) | Release(id: nat)
    // recovery goroutine
    | RecoveryStart(unknown: seq<Message>) | RecoverySkip | RecoveryDispatch
    | RecoveryWait | RecoveryStore(applied: set<Uid>)
    // the database: a row is committed under a source key, or leaves it (as when it follows its
    // message into quarantine)
    | Record(uid: Uid) | Unrecord(uid: Uid)

  function Initial(maxScans: nat): State {
    State(Offline, {}, [], [], 0, Resting, 0, 0, maxScans, map[], 0, {}, {}, {})
  }

  function Elements(s: seq<Uid>): set<Uid> {
    set u | u in s
  }

  /** The pre-filter of fetchUnseen: keep the UIDs that are not in flight, in order. */
  function NotInFlight(found: seq<Uid>, inFlight: set<Uid>): seq<Uid> {
    if found == [] then []
    else if found[0] in inFlight then NotInFlight(found[1..], inFlight)
    else [found[0]] + NotInFlight(found[1..], inFlight)
  }

  function Ids(workers: map<nat, Worker>, p: Worker -> bool): set<nat> {
    set id | id in workers && p(workers[id])
  }

  const OfListener: Worker -> bool := (w: Worker) => w.origin.FromListener?
  const OfRecovery: Worker -> bool := (w: Worker) => w.origin.FromRecovery?
  const HoldsScanSlot: Worker -> bool := (w: Worker) => w.phase.Scanning?

  /** A listener worker whose confirmation has not been sent yet. */
  predicate Active(w: Worker) {
    w.origin.FromListener? && !w.phase.Confirmed?
  }

  predicate InPhase(s: State, id: nat, phase: Phase) {
    id in s.workers && s.workers[id].phase == phase
  }

  predicate Enabled(s: State, l: Label) {
    match l
    case Connect(_) => s.control.Offline?
    case Disconnect => s.control.Idle?
    case Notify => s.control.Idle?
    case Stop => s.control.LoopTop?
    case Begin => s.control.LoopTop?
    case PullMark => s.control.DrainMarks? && s.seenCh != []
    case EndMarks => s.control.DrainMarks? && s.seenCh == []
    case Store(applied) => s.control.Storing? && applied <= Elements(s.control.batch)
    case PullConfirm => s.control.DrainConfirms? && s.confirmCh != []
    case EndConfirms => s.control.DrainConfirms? && s.confirmCh == []
    case Search(_) => s.control.Searching?
    case Fetch(_) => s.control.Fetching?
    case Abort => s.control.Searching? || s.control.Fetching?
    case Skip => s.control.Dispatching? && s.control.rest != [] &&
      (s.control.rest[0].empty || s.control.rest[0].uid in s.inFlight)
    case Admit => s.control.Dispatching? && s.control.rest != [] &&
      !s.control.rest[0].empty && s.control.rest[0].uid !in s.inFlight
    case Dispatch => s.control.AwaitSlot? && s.slots < SLOTS
    case CancelWait => s.control.AwaitSlot?
    case EndBatch => s.control.Dispatching? && s.control.rest == []
    case StartScan(id) => InPhase(s, id, Queued) && s.scans < s.maxScans
    case Finish(id) => InPhase(s, id, Scanning) && s.scans > 0
    case CancelScan(id) => InPhase(s, id, Queued)
    case SendMark(id) => InPhase(s, id, Returned) && s.workers[id].origin.FromListener?
    case SendConfirm(id) => InPhase(s, id, Marked) && s.workers[id].origin.FromListener?
    case Release(id) =>
      id in s.workers &&
      (match s.workers[id].origin
       case FromListener => s.workers[id].phase.Confirmed? && s.slots > 0
       case FromRecovery => s.workers[id].phase.Returned? && s.recoverySlots > 0)
    case RecoveryStart(_) => s.recovery.Resting?
    case RecoverySkip => s.recovery.Sending? && s.recovery.pending != [] && s.recovery.pending[0].empty
    case RecoveryDispatch => s.recovery.Sending? && s.recovery.pending != [] &&
      !s.recovery.pending[0].empty && s.recoverySlots < SLOTS
    case RecoveryWait => s.recovery.Sending? && s.recovery.pending == [] && Ids(s.workers, OfRecovery) == {}
    case RecoveryStore(applied) => s.recovery.Marking? && applied <= Elements(s.recovery.sent)
    case Record(_) => true
    case Unrecord(_) => true
  }

  function WithPhase(s: State, id: nat, phase: Phase): State
    requires id in s.workers
  {
    s.(workers := s.workers[id := s.workers[id].(phase := phase)])
  }

  /** onEmail comes back in worker `id`. */
  function Back(s: State, id: nat): State
    requires id in s.workers
  {
    WithPhase(s, id, Returned).(returned := s.returned + {s.workers[id].uid})
  }

  /** A non-blocking send on a buffered channel: full means dropped. */
  function Offer(channel: seq<Uid>, u: Uid): seq<Uid> {
    if |channel| < CHANNEL_CAP then channel + [u] else channel
  }

  function Apply(s: State, l: Label): State
    requires Enabled(s, l)
  {
    match l
    case Connect(ok) => s.(inFlight := {}, control := if ok then LoopTop else Offline)
    case Disconnect => s.(control := Offline)
    case Notify => s.(control := LoopTop)
    case Stop => s.(control := Idle)
    case Begin => s.(control := DrainMarks([]))
    case PullMark => s.(control := DrainMarks(s.control.batch + [s.seenCh[0]]), seenCh := s.seenCh[1..])
    case EndMarks => s.(control := Storing(s.control.batch))
    case Store(applied) => s.(control := DrainConfirms, marked := s.marked + applied)
    case PullConfirm => s.(inFlight := s.inFlight - {s.confirmCh[0]}, confirmCh := s.confirmCh[1..])
    case EndConfirms => s.(control := Searching)
    case Search(found) =>
      var unclaimed := NotInFlight(found, s.inFlight);
      s.(control := if unclaimed == [] then Idle else Fetching(unclaimed))
    case Fetch(messages) => s.(control := Dispatching(messages))
    case Abort => s.(control := Idle)
    case Skip => s.(control := Dispatching(s.control.rest[1..]))
    case Admit =>
      var u := s.control.rest[0].uid;
      s.(control := AwaitSlot(u, s.control.rest[1..]), inFlight := s.inFlight + {u})
    case Dispatch =>
      s.(control := Dispatching(s.control.rest), slots := s.slots + 1, nextId := s.nextId + 1,
         workers := s.workers[s.nextId := Worker(FromListener, s.control.uid, Queued)])
    case CancelWait => s.(control := Idle)
    case EndBatch => s.(control := LoopTop)
    case StartScan(id) => WithPhase(s, id, Scanning).(scans := s.scans + 1)
    case Finish(id) => Back(s, id).(scans := s.scans - 1)
    case CancelScan(id) => Back(s, id)
    case SendMark(id) => WithPhase(s, id, Marked).(seenCh := Offer(s.seenCh, s.workers[id].uid))
    case SendConfirm(id) => WithPhase(s, id, Confirmed).(confirmCh := Offer(s.confirmCh, s.workers[id].uid))
    case Release(id) =>
      var t := s.(workers := s.workers - {id});
      if s.workers[id].origin.FromListener? then t.(slots := s.slots - 1) else t.(recoverySlots := s.recoverySlots - 1)
    case RecoveryStart(unknown) => s.(recovery := Sending(unknown, []))
    case RecoverySkip => s.(recovery := s.recovery.(pending := s.recovery.pending[1..]))
    case RecoveryDispatch =>
      var u := s.recovery.pending[0].uid;
      s.(recovery := Sending(s.recovery.pending[1..], s.recovery.sent + [u]),
         recoverySlots := s.recoverySlots + 1, nextId := s.nextId + 1,
         workers := s.workers[s.nextId := Worker(FromRecovery, u, Queued)])
    case RecoveryWait => s.(recovery := Marking(s.recovery.sent))
    case RecoveryStore(applied) => s.(recovery := Resting, marked := s.marked + applied)
    case Record(u) => s.(recorded := s.recorded + {u})
    case Unrecord(u) => s.(recorded := s.recorded - {u})
  }

  function Step(s: State, l: Label): State {
    if Enabled(s, l) then Apply(s, l) else s
  }

  function StateAt(s: State, schedule: seq<Label>, k: nat): State
    requires k <= |schedule|
  {
    if k == 0 then s else Step(StateAt(s, schedule, k - 1), schedule[k - 1])
  }

  function Run(s: State, schedule: seq<Label>): State {
    StateAt(s, schedule, |schedule|)
  }

  // ----- Slot accounting -------------------------------------------------------

  /** Every semaphore counts exactly the goroutines that hold one of its slots. */
  ghost predicate SlotsAccounted(s: State) {
    && s.slots == |Ids(s.workers, OfListener)| <= SLOTS
    && s.recoverySlots == |Ids(s.workers, OfRecovery)| <= SLOTS
    && s.scans == |Ids(s.workers, HoldsScanSlot)| <= s.maxScans
    && |s.seenCh| <= CHANNEL_CAP
    && |s.confirmCh| <= CHANNEL_CAP
    && (forall id :: id in s.workers ==> id < s.nextId)
    && (forall id :: id in s.workers && s.workers[id].origin.FromRecovery? ==>
          s.workers[id].phase in {Queued, Scanning, Returned})
  }

  function One(b: bool): nat { if b then 1 else 0 }

  lemma IdsAfterUpdate(workers: map<nat, Worker>, id: nat, w: Worker, p: Worker -> bool)
    ensures |Ids(workers[id := w], p)| == |Ids(workers, p)| + One(p(w)) - One(id in workers && p(workers[id]))
  {
    var before, after := Ids(workers, p), Ids(workers[id := w], p);
    if p(w) {
      assert after == before + {id};
      if id in before { assert after == before; }
    } else {
      assert after == before - {id};
      if id !in before { assert after == before; }
    }
  }

  lemma IdsAfterRemoval(workers: map<nat, Worker>, id: nat, p: Worker -> bool)
    ensures |Ids(workers - {id}, p)| == |Ids(workers, p)| - One(id in workers && p(workers[id]))
  {
    var before, after := Ids(workers, p), Ids(workers - {id}, p);
    assert after == before - {id};
    if id !in before { assert after == before; }
  }

  /** A label that moves no worker moves no semaphore either. */
  predicate TouchesWorkers(l: Label) {
    l.Dispatch? || l.RecoveryDispatch? || l.StartScan? || l.Finish? || l.CancelScan? ||
    l.SendMark? || l.SendConfirm? || l.Release?
  }

  lemma OtherLabelsFrame(s: State, l: Label)
    requires Enabled(s, l) && !TouchesWorkers(l)
    ensures var t := Apply(s, l);
      && t.workers == s.workers && t.nextId == s.nextId
      && t.slots == s.slots && t.recoverySlots == s.recoverySlots
      && t.scans == s.scans && t.maxScans == s.maxScans
      && |t.seenCh| <= |s.seenCh| && |t.confirmCh| <= |s.confirmCh|
  {
  }

  lemma SpawnKeepsSlots(s: State, l: Label)
    requires SlotsAccounted(s) && Enabled(s, l) && (l.Dispatch? || l.RecoveryDispatch?)
    ensures SlotsAccounted(Apply(s, l))
  {
    var w := Apply(s, l).workers[s.nextId];
    IdsAfterUpdate(s.workers, s.nextId, w, OfListener);
    IdsAfterUpdate(s.workers, s.nextId, w, OfRecovery);
    IdsAfterUpdate(s.workers, s.nextId, w, HoldsScanSlot);
  }

  lemma PhaseChangeKeepsSlots(s: State, l: Label, id: nat)
    requires SlotsAccounted(s) && Enabled(s, l)
    requires l in {StartScan(id), Finish(id), CancelScan(id), SendMark(id), SendConfirm(id)}
    ensures SlotsAccounted(Apply(s, l))
  {
    var w := Apply(s, l).workers[id];
    IdsAfterUpdate(s.workers, id, w, OfListener);
    IdsAfterUpdate(s.workers, id, w, OfRecovery);
    IdsAfterUpdate(s.workers, id, w, HoldsScanSlot);
  }

  lemma ReleaseKeepsSlots(s: State, id: nat)
    requires SlotsAccounted(s) && Enabled(s, Release(id))
    ensures SlotsAccounted(Apply(s, Release(id)))
  {
    IdsAfterRemoval(s.workers, id, OfListener);
    IdsAfterRemoval(s.workers, id, OfRecovery);
    IdsAfterRemoval(s.workers, id, HoldsScanSlot);
  }

  lemma StepKeepsSlotsAccounted(s: State, l: Label)
    requires SlotsAccounted(s)
    ensures SlotsAccounted(Step(s, l))
  {
    if Enabled(s, l) {
      if !TouchesWorkers(l) {
        OtherLabelsFrame(s, l);
      } else if l.Dispatch? || l.RecoveryDispatch? {
        SpawnKeepsSlots(s, l);
      } else if l.Release? {
        ReleaseKeepsSlots(s, l.id);
      } else {
        PhaseChangeKeepsSlots(s, l, l.id);
      }
    }
  }

  lemma {:induction false} SlotsAccountedFrom(s: State, schedule: seq<Label>, k: nat)
    requires SlotsAccounted(s) && k <= |schedule|
    ensures SlotsAccounted(StateAt(s, schedule, k))
  {
    if k > 0 {
      SlotsAccountedFrom(s, schedule, k - 1);
      StepKeepsSlotsAccounted(StateAt(s, schedule, k - 1), schedule[k - 1]);
    }
  }

  /** In every interleaving, over any number of reconnects and recovery scans, at most
      50 listener workers, at most 50 recovery workers and at most `maxScans` scans are
      under way, and every slot in use belongs to exactly one live goroutine. */
  lemma SlotBounds(maxScans: nat, schedule: seq<Label>)
    ensures var s := Run(Initial(maxScans), schedule);
      && s.maxScans == maxScans
      && |Ids(s.workers, OfListener)| == s.slots <= 50
      && |Ids(s.workers, OfRecovery)| == s.recoverySlots <= 50
      && |Ids(s.workers, HoldsScanSlot)| == s.scans <= maxScans
  {
    assert Ids(Initial(maxScans).workers, OfListener) == {};
    assert Ids(Initial(maxScans).workers, OfRecovery) == {};
    assert Ids(Initial(maxScans).workers, HoldsScanSlot) == {};
    SlotsAccountedFrom(Initial(maxScans), schedule, |schedule|);
    MaxScansConstant(Initial(maxScans), schedule, |schedule|);
  }

  lemma {:induction false} MaxScansConstant(s: State, schedule: seq<Label>, k: nat)
    requires k <= |schedule|
    ensures StateAt(s, schedule, k).maxScans == s.maxScans
  {
    if k > 0 { MaxScansConstant(s, schedule, k - 1); }
  }
}
