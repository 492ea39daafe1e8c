/**
 What the listener gets done: a message that is announced is dispatched, a message that is
 dispatched is flagged and leaves no trace, and what interruptions, full semaphores and full
 channels do.
 */
module ListenerProgress {
  import opened ListenerProtocol
  import opened ListenerSafety
  import opened ListenerCode
  import opened ListenerLimits

  // ----- New mail is dispatched ---------------------------------------------------------------------

  /** From IDLE to a worker for `u`, whatever is in the channels. */
  function Noticing(s: State, u: Uid): seq<Label> {
    [Notify] + (DrainAll(s) + (Listing(u) + [Dispatch]))
  }

  lemma WokenUp(s: State)
    requires s.control == Idle
    ensures Step(s, Notify) == s.(control := LoopTop)
  {
  }

  lemma DispatchedFromTop(s: State, u: Uid)
    requires s.control == LoopTop && u !in s.inFlight && u !in s.marked && s.slots < SLOTS
    ensures var r := DrainAll(s) + (Listing(u) + [Dispatch]);
      HonestRun(s, r) && DispatchesAt(s, r, |r| - 1, u)
  {
    var searching := s.(control := Searching, seenCh := [], confirmCh := [], inFlight := s.inFlight - Elements(s.confirmCh));
    DrainAllRuns(s);
    UnmarkedIsDispatched(searching, u);
    NoQuestionIsHonest(s, DrainAll(s));
    RunsInTurn(s, DrainAll(s), Listing(u) + [Dispatch]);
    RunsCompose(s, DrainAll(s), Listing(u) + [Dispatch], 3);
  }

  /** A listener that idles notices new mail: if the server announces a message that is neither in
      flight nor flagged, and there is a slot, then without any reconnect it is dispatched by a
      schedule that begins with the announcement, with an honest server. */
  lemma NotifiedIsDispatched(s: State, u: Uid) returns (schedule: seq<Label>)
    requires s.control == Idle && u !in s.inFlight && u !in s.marked && s.slots < SLOTS
    ensures |schedule| > 0 && schedule[0] == Notify && forall l :: l in schedule ==> !l.Disconnect? && !l.Connect?
    ensures HonestRun(s, schedule) && DispatchesAt(s, schedule, |schedule| - 1, u)
  {
    var top := s.(control := LoopTop);
    WokenUp(s);
    DispatchedFromTop(top, u);
    var rest := DrainAll(top) + (Listing(u) + [Dispatch]);
    schedule := [Notify] + rest;
    OneLabelRuns(s, Notify);
    NoQuestionIsHonest(s, [Notify]);
    RunsInTurn(s, [Notify], rest);
    RunsCompose(s, [Notify], rest, |rest| - 1);
  }

  // ----- A message from announcement to flag --------------------------------------------------------

  /** The round after the worker's signals: the mark is stored, the confirmation consumed, and
      nothing new is listed. */
  function Settling(u: Uid): seq<Label> {
    [Begin, PullMark, EndMarks, Store({u})] + [PullConfirm, EndConfirms, Search([])]
  }

  lemma MarkStored(s: State, u: Uid)
    requires s.control == LoopTop && s.seenCh == [u]
    ensures var r := [Begin, PullMark, EndMarks, Store({u})];
      && Run(s, r) == s.(control := DrainConfirms, seenCh := [], marked := s.marked + {u})
      && HonestRun(s, r) && SmoothRun(s, r)
  {
    var r := [Begin, PullMark, EndMarks, Store({u})];
    assert StateAt(s, r, 1) == s.(control := DrainMarks([]));
    assert [] + [u] == [u] && [u][1..] == [];
    assert StateAt(s, r, 2) == s.(control := DrainMarks([u]), seenCh := []);
    assert StateAt(s, r, 3) == s.(control := Storing([u]), seenCh := []);
    assert Elements([u]) == {u};
    NoQuestionIsHonest(s, r);
    forall k: nat | k < 4 ensures SmoothAt(s, r, k) {
    }
  }

  lemma ConfirmConsumed(s: State, u: Uid)
    requires s.control == DrainConfirms && s.confirmCh == [u]
    ensures var r := [PullConfirm, EndConfirms, Search([])];
      && Run(s, r) == s.(control := Idle, confirmCh := [], inFlight := s.inFlight - {u})
      && HonestRun(s, r) && SmoothRun(s, r)
  {
    var r := [PullConfirm, EndConfirms, Search([])];
    var consumed := s.(confirmCh := [], inFlight := s.inFlight - {u});
    assert StateAt(s, r, 0) == s;
    assert StateAt(s, r, 1) == consumed;
    assert StateAt(s, r, 2) == consumed.(control := Searching);
    assert NotInFlight([], consumed.inFlight) == [];
    forall k: nat | k < 3 ensures HonestAt(s, r, k) && SmoothAt(s, r, k) {
    }
  }

  lemma SettlingRuns(s: State, u: Uid)
    requires s.control == LoopTop && s.seenCh == [u] && s.confirmCh == [u]
    ensures Run(s, Settling(u)) ==
      s.(control := Idle, seenCh := [], confirmCh := [], marked := s.marked + {u}, inFlight := s.inFlight - {u})
    ensures HonestRun(s, Settling(u)) && SmoothRun(s, Settling(u))
  {
    var stored := s.(control := DrainConfirms, seenCh := [], marked := s.marked + {u});
    MarkStored(s, u);
    ConfirmConsumed(stored, u);
    InTurn(s, [Begin, PullMark, EndMarks, Store({u})], [PullConfirm, EndConfirms, Search([])]);
    RunsInTurn(s, [Begin, PullMark, EndMarks, Store({u})], [PullConfirm, EndConfirms, Search([])]);
  }

  /** The worker's whole life after its dispatch. */
  function Working(id: nat): seq<Label> { Signals(id) + [Release(id)] }

  lemma WorkingRuns(s: State, id: nat, u: Uid)
    requires s.seenCh == [] && s.confirmCh == [] && s.scans < s.maxScans && s.slots > 0
    requires id in s.workers && s.workers[id] == Worker(FromListener, u, Queued)
    ensures Run(s, Working(id)) ==
      s.(workers := s.workers - {id}, slots := s.slots - 1, returned := s.returned + {u}, seenCh := [u], confirmCh := [u])
    ensures HonestRun(s, Working(id)) && SmoothRun(s, Working(id))
  {
    SignalsRun(s, id, u);
    var signalled := Signalled(s, id, u);
    OneLabelRuns(signalled, Release(id));
    assert signalled.workers - {id} == s.workers - {id};
    InTurn(s, Signals(id), [Release(id)]);
    QuietIsFine(signalled, [Release(id)]);
    RunsInTurn(s, Signals(id), [Release(id)]);
  }

  /** The parts of a cycle in order: wake up and drain, list, hand over, work, settle. */
  function Cycle(id: nat, u: Uid): seq<Label> {
    [Notify] + (FirstTime(u) + (Handing + (Working(id) + Settling(u))))
  }

  lemma WorkedAndSettled(s: State, id: nat, u: Uid)
    requires s.control == LoopTop && s.seenCh == [] && s.confirmCh == [] && s.scans < s.maxScans && s.slots > 0
    requires id in s.workers && s.workers[id] == Worker(FromListener, u, Queued)
    ensures var r := Working(id) + Settling(u);
      && Run(s, r) == s.(control := Idle, workers := s.workers - {id}, slots := s.slots - 1, returned := s.returned + {u},
                         marked := s.marked + {u}, inFlight := s.inFlight - {u})
      && HonestRun(s, r) && SmoothRun(s, r)
  {
    WorkingRuns(s, id, u);
    var worked := s.(workers := s.workers - {id}, slots := s.slots - 1, returned := s.returned + {u}, seenCh := [u], confirmCh := [u]);
    SettlingRuns(worked, u);
    InTurn(s, Working(id), Settling(u));
    RunsInTurn(s, Working(id), Settling(u));
  }

  lemma HandedAndSettled(s: State, u: Uid)
    requires s.control == AwaitSlot(u, []) && s.seenCh == [] && s.confirmCh == [] && s.scans < s.maxScans && s.slots < SLOTS
    requires s.nextId !in s.workers
    ensures var r := Handing + (Working(s.nextId) + Settling(u));
      && Run(s, r) == s.(control := Idle, nextId := s.nextId + 1, returned := s.returned + {u}, marked := s.marked + {u},
                         inFlight := s.inFlight - {u})
      && HonestRun(s, r) && SmoothRun(s, r)
  {
    var rest := Working(s.nextId) + Settling(u);
    HandingRuns(s, u);
    QuietIsFine(s, Handing);
    WorkedAndSettled(WithWorker(s, u), s.nextId, u);
    InTurn(s, Handing, rest);
    RunsInTurn(s, Handing, rest);
    assert WithWorker(s, u).workers - {s.nextId} == s.workers;
  }

  /** A message goes all the way: announced, listed, dispatched, scanned and flagged \Seen, after
      which the listener idles again with every slot, channel and claim as before. The server is
      honest, no signal is dropped and the STORE takes full effect. */
  lemma MessageCompletes(s: State, u: Uid)
    requires s.control == Idle && s.seenCh == [] && s.confirmCh == [] && u !in s.inFlight && u !in s.marked
    requires s.slots < SLOTS && s.scans < s.maxScans && s.nextId !in s.workers
    ensures var r := Cycle(s.nextId, u);
      && Run(s, r) == s.(nextId := s.nextId + 1, returned := s.returned + {u}, marked := s.marked + {u})
      && HonestRun(s, r) && SmoothRun(s, r)
  {
    var top := s.(control := LoopTop);
    var waiting := Waiting(top, u);
    var rest := Handing + (Working(s.nextId) + Settling(u));
    WokenUp(s);
    FirstTimeRuns(top, u);
    HandedAndSettled(waiting, u);
    InTurn(top, FirstTime(u), rest);
    RunsInTurn(top, FirstTime(u), rest);
    RunCons(s, Notify, FirstTime(u) + rest);
    OneLabelRuns(s, Notify);
    QuietIsFine(s, [Notify]);
    RunsInTurn(s, [Notify], FirstTime(u) + rest);
    assert s.inFlight + {u} - {u} == s.inFlight;
  }

  // ----- Interruptions -------------------------------------------------------------------------------

  /** A lost connection, a failed attempt to connect and a good one: back at the top of the loop,
      with nothing in flight and everything else as it was. */
  lemma Reconnects(s: State)
    requires s.control == Idle
    ensures Run(s, [Disconnect, Connect(false), Connect(true)]) == s.(control := LoopTop, inFlight := {})
  {
    var r := [Disconnect, Connect(false), Connect(true)];
    assert StateAt(s, r, 1) == s.(control := Offline);
    assert StateAt(s, r, 2) == s.(control := Offline, inFlight := {});
  }

  /** A cancelled context, a failed SEARCH or FETCH and a cancelled wait end the round and change
      nothing else; a message admitted before the wait stays in flight without a worker. */
  lemma Interrupted(s: State)
    ensures s.control == LoopTop ==> Step(s, Stop) == s.(control := Idle)
    ensures s.control == Searching || s.control.Fetching? ==> Step(s, Abort) == s.(control := Idle)
    ensures s.control.AwaitSlot? ==> Step(s, CancelWait) == s.(control := Idle)
  {
  }

  // ----- Capacities ------------------------------------------------------------------------------------

  /** The loop waits for a slot exactly while fifty listener workers are alive, a queued worker for
      a scan slot exactly while the configured number of scans is under way, and the recovery scan
      exactly while fifty of its own workers are alive. */
  lemma WaitsExactly(s: State, id: nat)
    requires SlotsAccounted(s)
    ensures s.control.AwaitSlot? ==> (Enabled(s, Dispatch) <==> |Ids(s.workers, OfListener)| < 50)
    ensures InPhase(s, id, Queued) ==> (Enabled(s, StartScan(id)) <==> |Ids(s.workers, HoldsScanSlot)| < s.maxScans)
    ensures s.recovery.Sending? && s.recovery.pending != [] && !s.recovery.pending[0].empty ==>
              (Enabled(s, RecoveryDispatch) <==> |Ids(s.workers, OfRecovery)| < 50)
  {
  }

  /** A signal is dropped exactly if 256 are pending, and is queued at the end otherwise. */
  lemma DroppedExactly(s: State, id: nat)
    requires id in s.workers && s.workers[id].origin.FromListener?
    ensures s.workers[id].phase.Returned? ==>
      Step(s, SendMark(id)).seenCh == if |s.seenCh| >= 256 then s.seenCh else s.seenCh + [s.workers[id].uid]
    ensures s.workers[id].phase.Marked? ==>
      Step(s, SendConfirm(id)).confirmCh == if |s.confirmCh| >= 256 then s.confirmCh else s.confirmCh + [s.workers[id].uid]
  {
  }

  /** A UID has a row exactly if one was committed for it and has not left its key since. */
  lemma RecordedExactly(s: State, l: Label, u: Uid)
    ensures u in Step(s, l).recorded <==> l == Record(u) || (u in s.recorded && l != Unrecord(u))
  {
  }
}
