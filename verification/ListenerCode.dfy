/**
 The sections of the listener that the source writes as loops and in-place updates. Each
 method says what it does to the fields, and that this effect is a run of the protocol,
 so that everything ListenerSafety proves of schedules applies to it.
 */
module ListenerCode {
  import opened ListenerProtocol
  import opened ListenerSafety

  function Repeat(l: Label, n: nat): seq<Label> { seq(n, _ => l) }

  lemma OneLabelRuns(s: State, l: Label)
    ensures Run(s, [l]) == Step(s, l)
  {
    assert StateAt(s, [l], 0) == s;
  }

  lemma {:induction false} PullsRun(s: State, batch: seq<Uid>, n: nat)
    requires s.control == DrainMarks(batch) && n <= |s.seenCh|
    ensures Run(s, Repeat(PullMark, n)) == s.(control := DrainMarks(batch + s.seenCh[..n]), seenCh := s.seenCh[n..])
  {
    if n == 0 {
      assert batch + s.seenCh[..0] == batch && s.seenCh[0..] == s.seenCh;
    } else {
      PullsRun(s, batch, n - 1);
      assert Repeat(PullMark, n) == Repeat(PullMark, n - 1) + [PullMark];
      RunsCompose(s, Repeat(PullMark, n - 1), [PullMark], 1);
      var t := Run(s, Repeat(PullMark, n - 1));
      OneLabelRuns(t, PullMark);
      assert batch + s.seenCh[..n - 1] + [s.seenCh[n - 1..][0]] == batch + s.seenCh[..n];
      assert s.seenCh[n - 1..][1..] == s.seenCh[n..];
    }
  }

  /** drainSeen is a run: pull everything, break, store. */
  lemma DrainSeenRuns(s: State, applied: set<Uid>)
    requires s.control == DrainMarks([]) && applied <= Elements(s.seenCh)
    ensures Run(s, Repeat(PullMark, |s.seenCh|) + [EndMarks, Store(applied)]) ==
      s.(control := DrainConfirms, seenCh := [], marked := s.marked + applied)
  {
    var n := |s.seenCh|;
    PullsRun(s, [], n);
    assert [] + s.seenCh[..n] == s.seenCh && s.seenCh[n..] == [];
    var t := s.(control := DrainMarks(s.seenCh), seenCh := []);
    assert StateAt(t, [EndMarks, Store(applied)], 1) == t.(control := Storing(s.seenCh));
    RunsCompose(s, Repeat(PullMark, n), [EndMarks, Store(applied)], 2);
  }

  lemma ElementsSnoc(uids: seq<Uid>, n: nat)
    requires n < |uids|
    ensures Elements(uids[..n + 1]) == Elements(uids[..n]) + {uids[n]}
  {
    assert uids[..n + 1] == uids[..n] + [uids[n]];
  }

  lemma ConfirmStep(s: State)
    requires s.control == DrainConfirms && s.confirmCh != []
    ensures Run(s, [PullConfirm]) == s.(inFlight := s.inFlight - {s.confirmCh[0]}, confirmCh := s.confirmCh[1..])
  {
    OneLabelRuns(s, PullConfirm);
  }

  lemma {:induction false} ConfirmsRun(s: State, n: nat)
    requires s.control == DrainConfirms && n <= |s.confirmCh|
    ensures Run(s, Repeat(PullConfirm, n)) ==
      s.(inFlight := s.inFlight - Elements(s.confirmCh[..n]), confirmCh := s.confirmCh[n..])
  {
    if n == 0 {
      assert s.confirmCh[0..] == s.confirmCh && Elements(s.confirmCh[..0]) == {};
    } else {
      ConfirmsRun(s, n - 1);
      var t := Run(s, Repeat(PullConfirm, n - 1));
      ConfirmStep(t);
      ElementsSnoc(s.confirmCh, n - 1);
      assert s.confirmCh[n - 1..][1..] == s.confirmCh[n..];
      assert Repeat(PullConfirm, n) == Repeat(PullConfirm, n - 1) + [PullConfirm];
      RunsCompose(s, Repeat(PullConfirm, n - 1), [PullConfirm], 1);
    }
  }

  /** The confirmation loop is a run. */
  lemma DrainConfirmedRuns(s: State)
    requires s.control == DrainConfirms
    ensures Run(s, Repeat(PullConfirm, |s.confirmCh|) + [EndConfirms]) ==
      s.(control := Searching, inFlight := s.inFlight - Elements(s.confirmCh), confirmCh := [])
  {
    var n := |s.confirmCh|;
    ConfirmsRun(s, n);
    assert s.confirmCh[..n] == s.confirmCh && s.confirmCh[n..] == [];
    RunsCompose(s, Repeat(PullConfirm, n), [EndConfirms], 1);
  }

  /** The filter keeps exactly the listed UIDs that are not in flight. */
  lemma {:induction false} FilterExact(found: seq<Uid>, inFlight: set<Uid>, u: Uid)
    ensures u in NotInFlight(found, inFlight) <==> u in found && u !in inFlight
  {
    if found != [] {
      FilterExact(found[1..], inFlight, u);
      assert u in found <==> u == found[0] || u in found[1..];
    }
  }

  lemma {:induction false} FilterSnoc(found: seq<Uid>, u: Uid, inFlight: set<Uid>)
    ensures NotInFlight(found + [u], inFlight) == NotInFlight(found, inFlight) + if u in inFlight then [] else [u]
  {
    if found != [] {
      FilterSnoc(found[1..], u, inFlight);
      assert (found + [u])[1..] == found[1..] + [u];
    }
  }

  /** A message that passes both guards is admitted and gets a worker. */
  lemma DispatchOneRuns(s: State, m: Message, rest: seq<Message>)
    requires s.control == Dispatching([m] + rest) && !m.empty && m.uid !in s.inFlight && s.slots < SLOTS
    ensures Run(s, [Admit, Dispatch]) ==
      s.(control := Dispatching(rest), inFlight := s.inFlight + {m.uid}, slots := s.slots + 1,
         nextId := s.nextId + 1, workers := s.workers[s.nextId := Worker(FromListener, m.uid, Queued)])
  {
    assert ([m] + rest)[1..] == rest;
    assert StateAt(s, [Admit, Dispatch], 1) == s.(control := AwaitSlot(m.uid, rest), inFlight := s.inFlight + {m.uid});
  }

  lemma AdmitRuns(s: State, m: Message, rest: seq<Message>)
    requires s.control == Dispatching([m] + rest) && !m.empty && m.uid !in s.inFlight
    ensures Run(s, [Admit]) == s.(control := AwaitSlot(m.uid, rest), inFlight := s.inFlight + {m.uid})
    ensures Run(s, [Admit, CancelWait]) == s.(control := Idle, inFlight := s.inFlight + {m.uid})
  {
    assert ([m] + rest)[1..] == rest;
    OneLabelRuns(s, Admit);
    assert StateAt(s, [Admit, CancelWait], 1) == Step(s, Admit);
  }

  /** How one turn of the dispatch loop ends. */
  datatype Outcome = Skipped | Dispatched | GaveUp | Waits

  class Listener {
    var inFlight: set<Uid>
    var seenCh: seq<Uid>
    var seenConfirmCh: seq<Uid>
    var slots: nat          // slots taken from dispatchSem
    var workers: map<nat, Worker>
    var nextId: nat
    var marked: set<Uid>    // \Seen flags on the server

    constructor ()
      ensures inFlight == {} && seenCh == [] && seenConfirmCh == [] && slots == 0 && workers == map[] && nextId == 0
    {
      inFlight, seenCh, seenConfirmCh, slots := {}, [], [], 0;
      workers, nextId, marked := map[], 0, {};
    }

    /** The protocol state these fields are part of. */
    ghost function In(s: State, at: Control): State
      reads this
    {
      s.(control := at, inFlight := inFlight, seenCh := seenCh, confirmCh := seenConfirmCh, slots := slots,
         workers := workers, nextId := nextId, marked := marked)
    }

    /** drainSeen: take every pending UID and flag them in one STORE, of which any part may
        take effect. */
    method DrainSeen(ghost s: State) returns (ghost applied: set<Uid>)
      modifies this`seenCh, this`marked
      ensures seenCh == [] && applied <= Elements(old(seenCh)) && marked == old(marked) + applied
      ensures In(s, DrainConfirms) ==
        Run(old(In(s, DrainMarks([]))), Repeat(PullMark, |old(seenCh)|) + [EndMarks, Store(applied)])
    {
      ghost var before := In(s, DrainMarks([]));
      var uids := [];
      while seenCh != []
        invariant uids + seenCh == old(seenCh) && marked == old(marked)
        decreases |seenCh|
      {
        uids, seenCh := uids + [seenCh[0]], seenCh[1..];
      }
      assert uids == old(seenCh);
      var stored: set<Uid> := *;
      if uids == [] { stored := {}; }
      var took := stored * Elements(uids);
      marked := marked + took;
      applied := took;
      DrainSeenRuns(before, applied);
    }

    /** The confirmation loop: every confirmed UID leaves the in-flight set. */
    method DrainConfirmed(ghost s: State)
      modifies this`inFlight, this`seenConfirmCh
      ensures seenConfirmCh == [] && inFlight == old(inFlight) - Elements(old(seenConfirmCh))
      ensures In(s, Searching) ==
        Run(old(In(s, DrainConfirms)), Repeat(PullConfirm, |old(seenConfirmCh)|) + [EndConfirms])
    {
      ghost var before := In(s, DrainConfirms);
      ghost var taken := [];
      while seenConfirmCh != []
        invariant taken + seenConfirmCh == old(seenConfirmCh)
        invariant inFlight == old(inFlight) - Elements(taken)
        decreases |seenConfirmCh|
      {
        taken := taken + [seenConfirmCh[0]];
        inFlight, seenConfirmCh := inFlight - {seenConfirmCh[0]}, seenConfirmCh[1..];
      }
      assert taken == old(seenConfirmCh);
      DrainConfirmedRuns(before);
    }

    /** The pre-filter over the SEARCH result. */
    method PreFilter(allUids: seq<Uid>) returns (newUids: seq<Uid>)
      ensures newUids == NotInFlight(allUids, inFlight)
    {
      newUids := [];
      for i := 0 to |allUids|
        invariant newUids == NotInFlight(allUids[..i], inFlight)
      {
        FilterSnoc(allUids[..i], allUids[i], inFlight);
        assert allUids[..i + 1] == allUids[..i] + [allUids[i]];
        if allUids[i] !in inFlight {
          newUids := newUids + [allUids[i]];
        }
      }
      assert allUids[..|allUids|] == allUids;
    }

    /** One turn of the dispatch loop. With every slot taken the loop waits, or gives up if the
        context is cancelled; with a slot to be had a cancelled context may still win. */
    method DispatchOne(m: Message, cancelled: bool, ghost rest: seq<Message>, ghost s: State) returns (outcome: Outcome)
      modifies this`inFlight, this`slots, this`workers, this`nextId
      ensures outcome.Skipped? <==> m.empty || m.uid in old(inFlight)
      ensures outcome.Skipped? || outcome.Dispatched? ==>
        In(s, Dispatching(rest)) == Run(old(In(s, Dispatching([m] + rest))), if outcome.Skipped? then [Skip] else [Admit, Dispatch])
      ensures outcome.GaveUp? ==>
        cancelled && In(s, Idle) == Run(old(In(s, Dispatching([m] + rest))), [Admit, CancelWait])
      ensures outcome.Waits? ==>
        !cancelled && slots >= SLOTS && In(s, AwaitSlot(m.uid, rest)) == Run(old(In(s, Dispatching([m] + rest))), [Admit])
      ensures !m.empty ==> m.uid in inFlight
      ensures !outcome.Dispatched? ==> workers == old(workers)
    {
      ghost var before := In(s, Dispatching([m] + rest));
      assert ([m] + rest)[1..] == rest;
      if m.empty || m.uid in inFlight {
        OneLabelRuns(before, Skip);
        return Skipped;
      }
      AdmitRuns(before, m, rest);
      inFlight := inFlight + {m.uid};
      var cancelWins: bool := *;
      if slots < SLOTS && !(cancelled && cancelWins) {
        DispatchOneRuns(before, m, rest);
        slots := slots + 1;
        workers := workers[nextId := Worker(FromListener, m.uid, Queued)];
        nextId := nextId + 1;
        return Dispatched;
      }
      return if cancelled then GaveUp else Waits;
    }
  }
}
