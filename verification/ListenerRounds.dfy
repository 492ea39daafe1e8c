/**
 The rounds of fetchUnseen: what one round adds to the in-flight set, exactly when the search
 after it ends the loop, and a run in which the loop never ends.
 */
module ListenerRounds {
  import opened ListenerProtocol
  import opened ListenerSafety
  import opened ListenerCode
  import opened ListenerLimits

  // ----- What a round adds ---------------------------------------------------------------------

  function Uids(messages: seq<Message>): (uids: seq<Uid>)
    ensures |uids| == |messages| && forall i :: 0 <= i < |messages| ==> uids[i] == messages[i].uid
  {
    seq(|messages|, i requires 0 <= i < |messages| => messages[i].uid)
  }

  function NonEmpty(messages: seq<Message>): set<Uid> {
    set m | m in messages && !m.empty :: m.uid
  }

  lemma NonEmptySnoc(messages: seq<Message>, k: nat)
    requires k < |messages|
    ensures NonEmpty(messages[..k + 1]) == NonEmpty(messages[..k]) + if messages[k].empty then {} else {messages[k].uid}
  {
    assert messages[..k + 1] == messages[..k] + [messages[k]];
  }

  /** The round over `messages` has dealt with the first k of them. */
  predicate StandsAt(s: State, before: set<Uid>, messages: seq<Message>, k: nat) {
    && k <= |messages|
    && s.inFlight == before + NonEmpty(messages[..k])
    && match s.control
       case Dispatching(rest) => rest == messages[k..]
       case AwaitSlot(_, rest) => rest == messages[k..]
       case LoopTop => k == |messages|
       case DrainMarks(_) => k == |messages|
       case Storing(_) => k == |messages|
       case DrainConfirms => k == |messages|
       case Searching => k == |messages|
       case _ => false
  }

  /** Nothing breaks the round off and no confirmation is consumed. */
  predicate Undisturbed(l: Label) {
    !l.PullConfirm? && !l.Connect? && !l.Stop? && !l.CancelWait? && !l.Abort? && !l.Search?
  }

  /** The labels that deal with a message. */
  predicate Deals(s: State, l: Label) {
    (l.Skip? || l.Admit?) && Enabled(s, l)
  }

  lemma DealsWithOne(s: State, l: Label, before: set<Uid>, messages: seq<Message>, k: nat)
    requires StandsAt(s, before, messages, k) && Deals(s, l)
    ensures k < |messages| && StandsAt(Step(s, l), before, messages, k + 1)
  {
    NonEmptySnoc(messages, k);
    assert messages[k..][1..] == messages[k + 1..];
  }

  lemma OthersStand(s: State, l: Label, before: set<Uid>, messages: seq<Message>, k: nat)
    requires StandsAt(s, before, messages, k) && !Deals(s, l) && Undisturbed(l)
    ensures StandsAt(Step(s, l), before, messages, k)
  {
  }

  lemma {:induction false} RoundStands(s: State, schedule: seq<Label>, n: nat, messages: seq<Message>) returns (k: nat)
    requires s.control == Dispatching(messages) && n <= |schedule| && forall l :: l in schedule ==> Undisturbed(l)
    ensures StandsAt(StateAt(s, schedule, n), s.inFlight, messages, k)
  {
    if n == 0 {
      k := 0;
      assert NonEmpty(messages[..0]) == {} && messages[0..] == messages;
    } else {
      k := RoundStands(s, schedule, n - 1, messages);
      assert schedule[n - 1] in schedule;
      var t := StateAt(s, schedule, n - 1);
      if Deals(t, schedule[n - 1]) {
        DealsWithOne(t, schedule[n - 1], s.inFlight, messages, k);
        k := k + 1;
      } else {
        OthersStand(t, schedule[n - 1], s.inFlight, messages, k);
      }
    }
  }

  /** Whatever the workers do meanwhile and however long the waits for slots are: a round over
      `messages` that gets to the next search has added exactly the non-empty ones to the
      in-flight set. */
  lemma RoundAdds(s: State, schedule: seq<Label>, messages: seq<Message>)
    requires s.control == Dispatching(messages) && forall l :: l in schedule ==> Undisturbed(l)
    requires Run(s, schedule).control.Searching?
    ensures Run(s, schedule).inFlight == s.inFlight + NonEmpty(messages)
  {
    var k := RoundStands(s, schedule, |schedule|, messages);
    assert messages[..|messages|] == messages;
  }

  lemma EndsRound(s: State)
    requires s.control == Dispatching([]) && s.seenCh == [] && s.confirmCh == []
    ensures Run(s, [EndBatch] + Draining) == s.(control := Searching)
  {
    DrainingRuns(s.(control := LoopTop));
    RunCons(s, EndBatch, Draining);
  }

  /** One message dealt with, given a free slot. */
  lemma OneTurn(s: State, messages: seq<Message>) returns (r: seq<Label>)
    requires s.control == Dispatching(messages) && messages != [] && s.slots < SLOTS
    ensures forall l :: l in r ==> Undisturbed(l)
    ensures var t := Run(s, r);
      && t.control == Dispatching(messages[1..]) && t.seenCh == s.seenCh && t.confirmCh == s.confirmCh
      && t.slots <= s.slots + 1
  {
    var m := messages[0];
    assert messages == [m] + messages[1..];
    if m.empty || m.uid in s.inFlight {
      r := [Skip];
      OneLabelRuns(s, Skip);
    } else {
      r := [Admit, Dispatch];
      DispatchOneRuns(s, m, messages[1..]);
    }
  }

  /** With a slot for every message a round does get to the next search. */
  lemma {:induction false} RoundCompletes(s: State, messages: seq<Message>) returns (r: seq<Label>)
    requires s.control == Dispatching(messages) && s.seenCh == [] && s.confirmCh == [] && s.slots + |messages| <= SLOTS
    ensures (forall l :: l in r ==> Undisturbed(l)) && Run(s, r).control == Searching
    decreases |messages|
  {
    if messages == [] {
      r := [EndBatch] + Draining;
      EndsRound(s);
    } else {
      var first := OneTurn(s, messages);
      var rest := RoundCompletes(Run(s, first), messages[1..]);
      r := first + rest;
      InTurn(s, first, rest);
    }
  }

  // ----- When the loop ends -------------------------------------------------------------------------

  /** A UID stands for one message. */
  predicate OneEach(listing: seq<Message>) {
    forall m, n :: m in listing && n in listing && m.uid == n.uid ==> m == n
  }

  /** The server lists `listing` and returns what was asked for: the part not in flight. */
  ghost predicate Answers(inFlight: set<Uid>, listing: seq<Message>, fetched: seq<Message>) {
    forall m :: m in fetched <==> m in listing && m.uid !in inFlight
  }

  lemma SearchEndsExactly(s: State, listing: seq<Message>)
    requires s.control == Searching
    ensures Step(s, Search(Uids(listing))).control == Idle <==> forall m :: m in listing ==> m.uid in s.inFlight
  {
    var uids := Uids(listing);
    var unclaimed := NotInFlight(uids, s.inFlight);
    forall u ensures u in unclaimed <==> u in uids && u !in s.inFlight { FilterExact(uids, s.inFlight, u); }
    if unclaimed == [] {
      forall m | m in listing ensures m.uid in s.inFlight {
        var i :| 0 <= i < |listing| && listing[i] == m;
        assert uids[i] in uids && uids[i] !in unclaimed;
      }
    } else {
      assert unclaimed[0] in unclaimed;
      var i :| 0 <= i < |uids| && uids[i] == unclaimed[0];
      assert listing[i] in listing;
    }
  }

  /** A round and the search after it, with the same messages listed both times: the loop ends
      there if and only if no listed message outside the in-flight set is empty. */
  lemma LoopEndsExactly(s: State, listing: seq<Message>, fetched: seq<Message>, schedule: seq<Label>)
    requires s.control == Dispatching(fetched) && OneEach(listing) && Answers(s.inFlight, listing, fetched)
    requires (forall l :: l in schedule ==> Undisturbed(l)) && Run(s, schedule).control == Searching
    ensures Step(Run(s, schedule), Search(Uids(listing))).control == Idle <==>
            forall m :: m in listing ==> m.uid in s.inFlight || !m.empty
  {
    var t := Run(s, schedule);
    RoundAdds(s, schedule, fetched);
    SearchEndsExactly(t, listing);
    forall m | m in listing ensures m.uid in t.inFlight <==> m.uid in s.inFlight || !m.empty {
      if m.uid !in s.inFlight {
        assert m in fetched;
        if m.uid in t.inFlight {
          var n :| n in fetched && !n.empty && n.uid == m.uid;
          assert n == m;
        }
      }
    }
  }

  /** The round begins with a search of the same listing, unless nothing in it is new. */
  lemma RoundBegins(s: State, listing: seq<Message>, fetched: seq<Message>)
    requires s.control == Searching && exists m :: m in listing && m.uid !in s.inFlight
    ensures Run(s, [Search(Uids(listing)), Fetch(fetched)]) == s.(control := Dispatching(fetched))
  {
    SearchEndsExactly(s, listing);
    var r := [Search(Uids(listing)), Fetch(fetched)];
    assert StateAt(s, r, 0) == s;
    assert StateAt(s, r, 1) == s.(control := Fetching(NotInFlight(Uids(listing), s.inFlight)));
  }

  // ----- A loop that never ends ----------------------------------------------------------------------

  /** A round in which the only message listed is empty, and the way back to the search. */
  function Lap(u: Uid): seq<Label> {
    [Search([u]), Fetch([Message(u, true)])] + ([Skip, EndBatch] + Draining)
  }

  lemma SkipRuns(s: State, u: Uid)
    requires s.control == Dispatching([Message(u, true)])
    ensures Run(s, [Skip, EndBatch]) == s.(control := LoopTop)
  {
    var r := [Skip, EndBatch];
    assert [Message(u, true)][1..] == [];
    assert StateAt(s, r, 0) == s;
    assert StateAt(s, r, 1) == s.(control := Dispatching([]));
  }

  lemma ListsEmpty(s: State, u: Uid)
    requires s.control == Searching && u !in s.inFlight && u !in s.marked
    ensures var r := [Search([u]), Fetch([Message(u, true)])];
      Run(s, r) == s.(control := Dispatching([Message(u, true)])) && HonestRun(s, r) && SmoothRun(s, r)
  {
    var r := [Search([u]), Fetch([Message(u, true)])];
    SearchStep(s, u);
    assert StateAt(s, r, 0) == s;
    assert StateAt(s, r, 1) == s.(control := Fetching([u]));
    forall k: nat | k < 2 ensures HonestAt(s, r, k) && SmoothAt(s, r, k) {
      if k == 1 { assert Message(u, true).uid in [u]; }
    }
  }

  lemma LapRuns(s: State, u: Uid)
    requires s.control == Searching && s.seenCh == [] && s.confirmCh == [] && u !in s.inFlight && u !in s.marked
    ensures Run(s, Lap(u)) == s && HonestRun(s, Lap(u)) && SmoothRun(s, Lap(u))
  {
    var listed, top := s.(control := Dispatching([Message(u, true)])), s.(control := LoopTop);
    var back := [Skip, EndBatch] + Draining;
    ListsEmpty(s, u);
    SkipRuns(listed, u);
    QuietIsFine(listed, [Skip, EndBatch]);
    DrainingRuns(top);
    InTurn(listed, [Skip, EndBatch], Draining);
    RunsInTurn(listed, [Skip, EndBatch], Draining);
    InTurn(s, [Search([u]), Fetch([Message(u, true)])], back);
    RunsInTurn(s, [Search([u]), Fetch([Message(u, true)])], back);
    assert top.(control := Searching) == s;
  }

  function Laps(u: Uid, n: nat): seq<Label> {
    if n == 0 then [] else Lap(u) + Laps(u, n - 1)
  }

  /** An unflagged message without a body keeps fetchUnseen going for any number of rounds, each
      of which ends where it began, with an honest server and nothing going wrong. */
  lemma {:induction false} EmptyMessageNeverEnds(s: State, u: Uid, n: nat)
    requires s.control == Searching && s.seenCh == [] && s.confirmCh == [] && u !in s.inFlight && u !in s.marked
    ensures Run(s, Laps(u, n)) == s && HonestRun(s, Laps(u, n)) && SmoothRun(s, Laps(u, n)) && |Laps(u, n)| >= n
  {
    if n > 0 {
      LapRuns(s, u);
      EmptyMessageNeverEnds(s, u, n - 1);
      InTurn(s, Lap(u), Laps(u, n - 1));
      RunsInTurn(s, Lap(u), Laps(u, n - 1));
    }
  }
}
