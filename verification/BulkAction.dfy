/**
 A bulk action over many scan rows: rows are grouped, one goroutine per group talks IMAP
 under a five-slot semaphore, and every row reports one outcome on a channel that has room
 for all of them.
 */
module BulkAction {

  datatype Eml = NoEml | Unreadable | Readable

  datatype Scan = Scan(id: nat, account: string, mailbox: string, uid: nat, eml: Eml)

  datatype Action = Release | Delete | LearnSpam | UnknownAction

  /** Release groups by account, delete by account and mailbox. */
  datatype Key = ByAccount(account: string) | ByMailbox(account: string, mailbox: string)

  type Groups = map<Key, seq<Scan>>

  datatype Outcome = Outcome(id: nat, ok: bool)

  const IMAP_SLOTS: nat := 5
  const MAX_IDS: nat := 200

  /** What the handler reads: the rows, the registered accounts, which status updates of a
      learn-spam request succeed (by position), and for which groups IMAP succeeds. */
  datatype World = World(table: map<nat, Scan>, registry: set<string>, writes: nat -> bool, succeeds: Key -> bool)

  ghost predicate Keyed(w: World) {
    forall id :: id in w.table ==> w.table[id].id == id
  }

  // ----- What each requested id should come to ---------------------------------------------

  /** The group that a row of a release or delete request belongs to. */
  function KeyFor(action: Action, s: Scan): Key {
    if action.Release? then ByAccount(s.account) else ByMailbox(s.account, s.mailbox)
  }

  predicate Fits(k: Key, s: Scan) {
    match k
    case ByAccount(account) => s.account == account
    case ByMailbox(account, mailbox) => s.account == account && s.mailbox == mailbox
  }

  /** The outcome of position i of the request, seen on its own. */
  function Expected(action: Action, w: World, i: nat, id: nat): Outcome {
    Outcome(id,
            && id in w.table
            && (if action.LearnSpam? then w.table[id].eml.Readable? && w.writes(i)
                else w.table[id].account in w.registry && w.succeeds(KeyFor(action, w.table[id]))))
  }

  /** An id succeeds exactly if its row exists and: for learn-spam, its message is stored and
      readable and the update is written; for release, its account is registered and the IMAP
      command of that account succeeds; for delete, the same for its account and mailbox. */
  lemma ExpectedExactly(w: World, i: nat, id: nat)
    ensures forall action :: Expected(action, w, i, id).id == id
    ensures Expected(LearnSpam, w, i, id).ok <==> id in w.table && w.table[id].eml == Readable && w.writes(i)
    ensures Expected(Release, w, i, id).ok <==>
      id in w.table && w.table[id].account in w.registry && w.succeeds(ByAccount(w.table[id].account))
    ensures Expected(Delete, w, i, id).ok <==>
      && id in w.table && w.table[id].account in w.registry
      && w.succeeds(ByMailbox(w.table[id].account, w.table[id].mailbox))
  {
  }

  function AllExpected(action: Action, w: World, ids: seq<nat>): (all: seq<Outcome>)
    ensures |all| == |ids|
    ensures forall i :: 0 <= i < |ids| ==> all[i] == Expected(action, w, i, ids[i])
  {
    if ids == [] then []
    else AllExpected(action, w, ids[..|ids| - 1]) + [Expected(action, w, |ids| - 1, ids[|ids| - 1])]
  }

  // ----- Counting ------------------------------------------------------------------------------

  /** How many outcomes meet `p`. */
  function Count(outcomes: seq<Outcome>, p: Outcome -> bool): nat {
    if outcomes == [] then 0
    else (if p(outcomes[0]) then 1 else 0) + Count(outcomes[1..], p)
  }

  lemma {:induction false} CountSnoc(outcomes: seq<Outcome>, o: Outcome, p: Outcome -> bool)
    ensures Count(outcomes + [o], p) == Count(outcomes, p) + if p(o) then 1 else 0
  {
    if outcomes == [] {
      assert (outcomes + [o])[1..] == [];
    } else {
      CountSnoc(outcomes[1..], o, p);
      assert (outcomes + [o])[1..] == outcomes[1..] + [o];
    }
  }

  lemma {:induction false} CountSplit(outcomes: seq<Outcome>, p: Outcome -> bool, q: Outcome -> bool)
    requires forall o :: p(o) != q(o)
    ensures Count(outcomes, p) + Count(outcomes, q) == |outcomes|
  {
    if outcomes != [] { CountSplit(outcomes[1..], p, q); }
  }

  lemma {:induction false} CountAll(outcomes: seq<Outcome>)
    ensures Count(outcomes, Any) == |outcomes|
  {
    if outcomes != [] { CountAll(outcomes[1..]); }
  }

  predicate Any(o: Outcome) { true }

  /** How many of a group's rows will report an outcome that meets `p`. */
  function Due(scans: seq<Scan>, ok: bool, p: Outcome -> bool): nat {
    if scans == [] then 0
    else (if p(Outcome(scans[0].id, ok)) then 1 else 0) + Due(scans[1..], ok, p)
  }

  lemma {:induction false} DueSnoc(scans: seq<Scan>, s: Scan, ok: bool, p: Outcome -> bool)
    ensures Due(scans + [s], ok, p) == Due(scans, ok, p) + if p(Outcome(s.id, ok)) then 1 else 0
  {
    if scans == [] {
      assert (scans + [s])[1..] == [];
    } else {
      DueSnoc(scans[1..], s, ok, p);
      assert (scans + [s])[1..] == scans[1..] + [s];
    }
  }

  /** The same over all groups. */
  ghost function AllDue(groups: Groups, succeeds: Key -> bool, p: Outcome -> bool): nat
    decreases groups.Keys
  {
    if groups.Keys == {} then 0
    else
      var k :| k in groups;
      Due(groups[k], succeeds(k), p) + AllDue(groups - {k}, succeeds, p)
  }

  /** Taking one group out takes exactly its rows out. */
  lemma {:induction false} AllDueWithout(groups: Groups, k: Key, succeeds: Key -> bool, p: Outcome -> bool)
    requires k in groups
    ensures AllDue(groups, succeeds, p) == Due(groups[k], succeeds(k), p) + AllDue(groups - {k}, succeeds, p)
    decreases groups.Keys
  {
    var j :| j in groups && AllDue(groups, succeeds, p) == Due(groups[j], succeeds(j), p) + AllDue(groups - {j}, succeeds, p);
    if j != k {
      AllDueWithout(groups - {j}, k, succeeds, p);
      AllDueWithout(groups - {k}, j, succeeds, p);
      assert groups - {j} - {k} == groups - {k} - {j};
    }
  }

  /** Replacing, or adding, one group's rows. */
  lemma AllDueUpdate(groups: Groups, k: Key, scans: seq<Scan>, succeeds: Key -> bool, p: Outcome -> bool)
    ensures AllDue(groups[k := scans], succeeds, p) + (if k in groups then Due(groups[k], succeeds(k), p) else 0) ==
            AllDue(groups, succeeds, p) + Due(scans, succeeds(k), p)
  {
    AllDueWithout(groups[k := scans], k, succeeds, p);
    if k in groups {
      AllDueWithout(groups, k, succeeds, p);
      assert groups[k := scans] - {k} == groups - {k};
    } else {
      assert groups[k := scans] - {k} == groups;
    }
  }

  // ----- The request loop -------------------------------------------------------------------

  datatype Collected = BadRequest | Accepted(groups: Groups, failed: seq<Outcome>, sent: seq<Outcome>)

  /** Every group is non-empty and holds only rows of its own account, or account and mailbox. */
  predicate Grouped(groups: Groups) {
    forall k :: k in groups ==> groups[k] != [] && forall s :: s in groups[k] ==> Fits(k, s)
  }

  /** Between them the three results account for every expected outcome. */
  ghost predicate Accounts(expected: seq<Outcome>, c: Collected, succeeds: Key -> bool)
    requires c.Accepted?
  {
    forall p: Outcome -> bool ::
      Count(c.failed, p) + Count(c.sent, p) + AllDue(c.groups, succeeds, p) == Count(expected, p)
  }

  /** What the loop has collected for the ids so far. */
  ghost predicate Collects(action: Action, ids: seq<nat>, w: World, c: Collected) {
    && c.Accepted? && Grouped(c.groups) && |c.sent| <= |ids|
    && (forall k :: k in c.groups ==> k.account in w.registry && (k.ByMailbox? <==> action.Delete?))
    && Accounts(AllExpected(action, w, ids), c, w.succeeds)
    && (if action.LearnSpam? then c.groups == map[] else c.sent == [])
  }

  /** The loop over the requested ids: load each row, put it into its group, or train and
      report at once. Every id, duplicates included, ends up in exactly one of the results. */
  method Collect(action: Action, ids: seq<nat>, w: World) returns (c: Collected)
    requires Keyed(w)
    ensures c.BadRequest? <==>
            |ids| == 0 || |ids| > 200 || (action.UnknownAction? && exists id :: id in ids && id in w.table)
    ensures c.Accepted? ==> Collects(action, ids, w, c)
  {
    if |ids| == 0 || |ids| > MAX_IDS { return BadRequest; }
    c := Accepted(map[], [], []);
    NothingCollected(action, w);
    assert ids[..0] == [];
    for i := 0 to |ids|
      invariant Collects(action, ids[..i], w, c)
      invariant action.UnknownAction? ==> forall j :: 0 <= j < i ==> ids[j] !in w.table
    {
      if action.UnknownAction? && ids[i] in w.table { return BadRequest; }
      c := CollectOne(action, ids[..i], ids[i], w, c);
      assert ids[..i] + [ids[i]] == ids[..i + 1];
    }
    assert ids[..|ids|] == ids;
  }

  /** One turn of the loop, for the id at the position after `before`. */
  method CollectOne(action: Action, before: seq<nat>, id: nat, w: World, c: Collected) returns (after: Collected)
    requires Keyed(w) && Collects(action, before, w, c) && (action.UnknownAction? ==> id !in w.table)
    ensures Collects(action, before + [id], w, after)
  {
    ghost var expected := AllExpected(action, w, before);
    ExpectedSnoc(action, w, before, id);
    if id !in w.table {
      after := FailOne(expected, c, id, w.succeeds);
    } else if action.LearnSpam? {
      if !w.table[id].eml.Readable? || !w.writes(|before|) {
        after := FailOne(expected, c, id, w.succeeds);
      } else {
        assert |c.sent| < |before| + 1; // the channel has room, so the request loop does not block
        after := SendOne(expected, c, id, w.succeeds);
      }
    } else if w.table[id].account !in w.registry {
      after := FailOne(expected, c, id, w.succeeds);
    } else {
      after := AddToGroup(expected, c, KeyFor(action, w.table[id]), w.table[id], w.succeeds);
    }
  }

  lemma NothingCollected(action: Action, w: World)
    ensures Collects(action, [], w, Accepted(map[], [], []))
  {
  }

  lemma ExpectedSnoc(action: Action, w: World, ids: seq<nat>, id: nat)
    ensures AllExpected(action, w, ids + [id]) == AllExpected(action, w, ids) + [Expected(action, w, |ids|, id)]
  {
    assert (ids + [id])[..|ids|] == ids;
  }

  method FailOne(ghost expected: seq<Outcome>, c: Collected, id: nat, ghost succeeds: Key -> bool) returns (after: Collected)
    requires c.Accepted? && Accounts(expected, c, succeeds)
    ensures after == c.(failed := c.failed + [Outcome(id, false)])
    ensures Accounts(expected + [Outcome(id, false)], after, succeeds)
  {
    after := c.(failed := c.failed + [Outcome(id, false)]);
    forall p: Outcome -> bool
      ensures Count(after.failed, p) + Count(c.sent, p) + AllDue(c.groups, succeeds, p) ==
              Count(expected + [Outcome(id, false)], p)
    {
      CountSnoc(c.failed, Outcome(id, false), p);
      CountSnoc(expected, Outcome(id, false), p);
    }
  }

  method SendOne(ghost expected: seq<Outcome>, c: Collected, id: nat, ghost succeeds: Key -> bool) returns (after: Collected)
    requires c.Accepted? && Accounts(expected, c, succeeds)
    ensures after == c.(sent := c.sent + [Outcome(id, true)])
    ensures Accounts(expected + [Outcome(id, true)], after, succeeds)
  {
    after := c.(sent := c.sent + [Outcome(id, true)]);
    forall p: Outcome -> bool
      ensures Count(c.failed, p) + Count(after.sent, p) + AllDue(c.groups, succeeds, p) ==
              Count(expected + [Outcome(id, true)], p)
    {
      CountSnoc(c.sent, Outcome(id, true), p);
      CountSnoc(expected, Outcome(id, true), p);
    }
  }

  method AddToGroup(ghost expected: seq<Outcome>, c: Collected, key: Key, scan: Scan, ghost succeeds: Key -> bool)
    returns (after: Collected)
    requires c.Accepted? && Accounts(expected, c, succeeds) && Grouped(c.groups) && Fits(key, scan)
    ensures after.Accepted? && after.failed == c.failed && after.sent == c.sent
    ensures Grouped(after.groups) && after.groups.Keys == c.groups.Keys + {key}
    ensures Accounts(expected + [Outcome(scan.id, succeeds(key))], after, succeeds)
  {
    var rows := (if key in c.groups then c.groups[key] else []) + [scan];
    after := c.(groups := c.groups[key := rows]);
    ghost var o := Outcome(scan.id, succeeds(key));
    forall p: Outcome -> bool
      ensures Count(c.failed, p) + Count(c.sent, p) + AllDue(after.groups, succeeds, p) == Count(expected + [o], p)
    {
      CountSnoc(expected, o, p);
      AllDueUpdate(c.groups, key, rows, succeeds, p);
      DueSnoc(if key in c.groups then c.groups[key] else [], scan, succeeds(key), p);
    }
  }

  // ----- The goroutines ---------------------------------------------------------------------

  /** `pending` groups have no goroutine yet; `running` groups have one, with the rows it still
      has to report; `reported` is what main has counted. */
  datatype State = State(pending: Groups, running: Groups, sem: nat, channel: seq<Outcome>, closed: bool,
                         reported: seq<Outcome>)

  /** Spawn: main takes a slot and starts a group. Report: a goroutine sends one outcome.
      Exit: it gives its slot back. Close: wg.Wait is over. Tally: main receives one outcome. */
  datatype Label = Spawn(key: Key) | Report(key: Key) | Exit(key: Key) | Close | Tally

  function Start(c: Collected): State
    requires c.Accepted?
  {
    State(c.groups, map[], 0, c.sent, false, c.failed)
  }

  predicate Enabled(capacity: nat, s: State, l: Label) {
    match l
    case Spawn(k) => k in s.pending && k !in s.running && s.sem < IMAP_SLOTS
    case Report(k) => k in s.running && s.running[k] != [] && |s.channel| < capacity
    case Exit(k) => k in s.running && s.running[k] == [] && s.sem > 0
    case Close => !s.closed && s.pending.Keys == {} && s.running.Keys == {}
    case Tally => s.closed && s.channel != []
  }

  /** One step; a label that is not enabled does nothing. */
  function Step(capacity: nat, succeeds: Key -> bool, s: State, l: Label): State {
    if !Enabled(capacity, s, l) then s else
    match l
    case Spawn(k) => s.(pending := s.pending - {k}, running := s.running[k := s.pending[k]], sem := s.sem + 1)
    case Report(k) =>
      s.(running := s.running[k := s.running[k][1..]], channel := s.channel + [Outcome(s.running[k][0].id, succeeds(k))])
    case Exit(k) => s.(running := s.running - {k}, sem := s.sem - 1)
    case Close => s.(closed := true)
    case Tally => s.(channel := s.channel[1..], reported := s.reported + [s.channel[0]])
  }

  function Run(capacity: nat, succeeds: Key -> bool, s: State, schedule: seq<Label>): State {
    if schedule == [] then s
    else Step(capacity, succeeds, Run(capacity, succeeds, s, schedule[..|schedule| - 1]), schedule[|schedule| - 1])
  }

  /** What is counted, on the channel, and still to come. */
  ghost function Balance(s: State, succeeds: Key -> bool, p: Outcome -> bool): nat {
    Count(s.reported, p) + Count(s.channel, p) + AllDue(s.running, succeeds, p) + AllDue(s.pending, succeeds, p)
  }

  /** The semaphore counts the goroutines; nothing is left once the channel is closed. */
  ghost predicate Slots(s: State) {
    SlotsFor(s.pending.Keys, s.running.Keys, s.sem, s.closed)
  }

  ghost predicate SlotsFor(pending: set<Key>, running: set<Key>, sem: nat, closed: bool) {
    sem == |running| <= IMAP_SLOTS && pending !! running && (closed ==> pending == {} && running == {})
  }

  lemma StepKeepsBalance(capacity: nat, succeeds: Key -> bool, s: State, l: Label, p: Outcome -> bool)
    ensures Balance(Step(capacity, succeeds, s, l), succeeds, p) == Balance(s, succeeds, p)
  {
    if Enabled(capacity, s, l) {
      match l
      case Spawn(k) =>
        AllDueWithout(s.pending, k, succeeds, p);
        AllDueUpdate(s.running, k, s.pending[k], succeeds, p);
      case Report(k) =>
        AllDueUpdate(s.running, k, s.running[k][1..], succeeds, p);
        CountSnoc(s.channel, Outcome(s.running[k][0].id, succeeds(k)), p);
      case Exit(k) =>
        AllDueWithout(s.running, k, succeeds, p);
      case Close =>
      case Tally =>
        CountSnoc(s.reported, s.channel[0], p);
    }
  }

  lemma KeysAfter(groups: Groups, k: Key, scans: seq<Scan>)
    ensures groups[k := scans].Keys == groups.Keys + {k}
    ensures |groups[k := scans].Keys| == |groups.Keys| + if k in groups then 0 else 1
    ensures (groups - {k}).Keys == groups.Keys - {k}
    ensures |(groups - {k}).Keys| == |groups.Keys| - if k in groups then 1 else 0
  {
    assert groups[k := scans].Keys == groups.Keys + {k};
    if k in groups { assert groups.Keys + {k} == groups.Keys; }
    assert (groups - {k}).Keys == groups.Keys - {k};
    if k !in groups { assert groups.Keys - {k} == groups.Keys; }
  }

  lemma SpawnKeepsSlots(s: State, k: Key)
    requires Slots(s) && k in s.pending && s.sem < IMAP_SLOTS
    ensures Slots(s.(pending := s.pending - {k}, running := s.running[k := s.pending[k]], sem := s.sem + 1))
  {
    var pending, running := s.pending.Keys, s.running.Keys;
    assert s.running[k := s.pending[k]].Keys == running + {k};
    assert (s.pending - {k}).Keys == pending - {k};
    assert SlotsFor(pending - {k}, running + {k}, s.sem + 1, s.closed);
  }

  lemma ExitKeepsSlots(s: State, k: Key)
    requires Slots(s) && k in s.running && s.sem > 0
    ensures Slots(s.(running := s.running - {k}, sem := s.sem - 1))
  {
    var running := s.running.Keys;
    assert (s.running - {k}).Keys == running - {k};
    assert SlotsFor(s.pending.Keys, running - {k}, s.sem - 1, s.closed);
  }

  lemma ReportKeepsSlots(s: State, k: Key, scans: seq<Scan>, channel: seq<Outcome>)
    requires Slots(s) && k in s.running
    ensures Slots(s.(running := s.running[k := scans], channel := channel))
  {
    assert s.running[k := scans].Keys == s.running.Keys;
  }

  lemma StepKeepsSlots(capacity: nat, succeeds: Key -> bool, s: State, l: Label)
    requires Slots(s)
    ensures Slots(Step(capacity, succeeds, s, l))
  {
    if Enabled(capacity, s, l) {
      match l
      case Spawn(k) => SpawnKeepsSlots(s, k);
      case Report(k) => ReportKeepsSlots(s, k, s.running[k][1..], s.channel + [Outcome(s.running[k][0].id, succeeds(k))]);
      case Exit(k) => ExitKeepsSlots(s, k);
      case Close =>
      case Tally =>
    }
  }

  lemma {:induction false} RunKeeps(capacity: nat, succeeds: Key -> bool, s: State, schedule: seq<Label>, p: Outcome -> bool)
    requires Slots(s)
    ensures Slots(Run(capacity, succeeds, s, schedule))
    ensures Balance(Run(capacity, succeeds, s, schedule), succeeds, p) == Balance(s, succeeds, p)
  {
    if schedule != [] {
      var n := |schedule| - 1;
      RunKeeps(capacity, succeeds, s, schedule[..n], p);
      StepKeepsSlots(capacity, succeeds, Run(capacity, succeeds, s, schedule[..n]), schedule[n]);
      StepKeepsBalance(capacity, succeeds, Run(capacity, succeeds, s, schedule[..n]), schedule[n], p);
    }
  }

  /** The states that a request for `ids` can reach. */
  ghost predicate Reached(action: Action, ids: seq<nat>, w: World, c: Collected, schedule: seq<Label>, s: State) {
    && c.Accepted? && Accounts(AllExpected(action, w, ids), c, w.succeeds)
    && s == Run(|ids|, w.succeeds, Start(c), schedule)
  }

  lemma ReachedBalance(action: Action, ids: seq<nat>, w: World, c: Collected, schedule: seq<Label>, s: State, p: Outcome -> bool)
    requires Reached(action, ids, w, c, schedule, s)
    ensures Slots(s) && Balance(s, w.succeeds, p) == Count(AllExpected(action, w, ids), p)
  {
    RunKeeps(|ids|, w.succeeds, Start(c), schedule, p);
  }

  // ----- Progress ------------------------------------------------------------------------------

  /** A goroutine that has an outcome to report never blocks on the channel. */
  lemma ReportNeverBlocks(action: Action, ids: seq<nat>, w: World, c: Collected, schedule: seq<Label>, s: State, k: Key)
    requires Reached(action, ids, w, c, schedule, s) && k in s.running && s.running[k] != []
    ensures Enabled(|ids|, s, Report(k))
  {
    ReachedBalance(action, ids, w, c, schedule, s, Any);
    AllDueWithout(s.running, k, w.succeeds, Any);
    CountAll(s.channel);
    CountAll(AllExpected(action, w, ids));
  }

  /** A group waits for a slot exactly while five others run. */
  lemma SpawnWaitsExactly(capacity: nat, s: State, k: Key)
    requires Slots(s) && k in s.pending
    ensures Enabled(capacity, s, Spawn(k)) <==> |s.running.Keys| < 5
  {
    assert k in s.pending.Keys;
  }

  predicate Finished(s: State) { s.closed && s.channel == [] }

  /** In every reachable state that is not finished some step is possible; with StepsShrinkWork
      every run that goes on while it can comes to its end. */
  lemma NeverStuck(action: Action, ids: seq<nat>, w: World, c: Collected, schedule: seq<Label>, s: State) returns (l: Label)
    requires Reached(action, ids, w, c, schedule, s) && !Finished(s)
    ensures Enabled(|ids|, s, l)
  {
    ReachedBalance(action, ids, w, c, schedule, s, Any);
    if k :| k in s.running {
      if s.running[k] != [] {
        l := Report(k);
        ReportNeverBlocks(action, ids, w, c, schedule, s, k);
      } else {
        l := Exit(k);
        assert k in s.running.Keys;
      }
    } else if k :| k in s.pending {
      assert s.running.Keys == {};
      l := Spawn(k);
    } else if !s.closed {
      l := Close;
    } else {
      l := Tally;
    }
  }

  /** How much is left to do. */
  ghost function Work(s: State, succeeds: Key -> bool): nat {
    2 * AllDue(s.pending, succeeds, Any) + 2 * AllDue(s.running, succeeds, Any) + |s.channel| +
    2 * |s.pending.Keys| + |s.running.Keys| + (if s.closed then 0 else 1)
  }

  lemma SpawnShrinksWork(succeeds: Key -> bool, s: State, k: Key)
    requires k in s.pending && k !in s.running
    ensures Work(s.(pending := s.pending - {k}, running := s.running[k := s.pending[k]], sem := s.sem + 1), succeeds) < Work(s, succeeds)
  {
    AllDueWithout(s.pending, k, succeeds, Any);
    AllDueUpdate(s.running, k, s.pending[k], succeeds, Any);
    KeysAfter(s.running, k, s.pending[k]);
    KeysAfter(s.pending, k, []);
  }

  lemma ReportShrinksWork(succeeds: Key -> bool, s: State, k: Key)
    requires k in s.running && s.running[k] != []
    ensures var o := Outcome(s.running[k][0].id, succeeds(k));
      Work(s.(running := s.running[k := s.running[k][1..]], channel := s.channel + [o]), succeeds) < Work(s, succeeds)
  {
    AllDueUpdate(s.running, k, s.running[k][1..], succeeds, Any);
    KeysAfter(s.running, k, s.running[k][1..]);
  }

  lemma ExitShrinksWork(succeeds: Key -> bool, s: State, k: Key)
    requires k in s.running && s.running[k] == [] && s.sem > 0
    ensures Work(s.(running := s.running - {k}, sem := s.sem - 1), succeeds) < Work(s, succeeds)
  {
    AllDueWithout(s.running, k, succeeds, Any);
    KeysAfter(s.running, k, []);
  }

  /** Every step taken leaves less to do. */
  lemma StepsShrinkWork(capacity: nat, succeeds: Key -> bool, s: State, l: Label)
    requires Slots(s) && Enabled(capacity, s, l)
    ensures Work(Step(capacity, succeeds, s, l), succeeds) < Work(s, succeeds)
  {
    match l
    case Spawn(k) => SpawnShrinksWork(succeeds, s, k);
    case Report(k) => ReportShrinksWork(succeeds, s, k);
    case Exit(k) => ExitShrinksWork(succeeds, s, k);
    case Close =>
    case Tally =>
  }

  // ----- Conservation ----------------------------------------------------------------------------

  /** When the response is written, every requested id has been counted exactly once and with
      its own outcome, whatever the schedule: for any property of outcomes, as many are
      reported as expected. */
  lemma ReportsAsExpected(action: Action, ids: seq<nat>, w: World, c: Collected, schedule: seq<Label>, s: State, p: Outcome -> bool)
    requires Reached(action, ids, w, c, schedule, s) && Finished(s)
    ensures Count(s.reported, p) == Count(AllExpected(action, w, ids), p)
  {
    ReachedBalance(action, ids, w, c, schedule, s, p);
  }

  predicate Succeeded(o: Outcome) { o.ok }
  predicate Failed(o: Outcome) { !o.ok }

  /** The two numbers in the response add up to the number of requested ids. */
  lemma EveryIdCountedOnce(action: Action, ids: seq<nat>, w: World, c: Collected, schedule: seq<Label>, s: State)
    requires Reached(action, ids, w, c, schedule, s) && Finished(s)
    ensures Count(s.reported, Succeeded) + Count(s.reported, Failed) == |ids|
    ensures Count(s.reported, Succeeded) == Count(AllExpected(action, w, ids), Succeeded)
  {
    ReportsAsExpected(action, ids, w, c, schedule, s, Succeeded);
    ReportsAsExpected(action, ids, w, c, schedule, s, Failed);
    CountSplit(AllExpected(action, w, ids), Succeeded, Failed);
  }

  // ----- UIDs stay in their group -------------------------------------------------------------

  /** In every run, whatever a goroutine handles for a group belongs to that group's account
      and, for deletes, mailbox. */
  lemma {:induction false} GroupsStayApart(capacity: nat, succeeds: Key -> bool, c: Collected, schedule: seq<Label>)
    requires c.Accepted? && Grouped(c.groups)
    ensures var t := Run(capacity, succeeds, Start(c), schedule);
      Grouped(t.pending) && forall k, x :: k in t.running && x in t.running[k] ==> Fits(k, x)
  {
    if schedule != [] {
      var n := |schedule| - 1;
      GroupsStayApart(capacity, succeeds, c, schedule[..n]);
      var t, l := Run(capacity, succeeds, Start(c), schedule[..n]), schedule[n];
      if Enabled(capacity, t, l) && l.Report? {
        assert forall x :: x in t.running[l.key][1..] ==> x in t.running[l.key];
      }
    }
  }
}
