/**
 The scanner fan-out of `process`: one goroutine per scanner, a result channel with room
 for one result each, a wait group, and scanners that may panic. A schedule is any
 sequence of labels; a label that is not enabled does nothing.
 */
module FanOut {
  import opened Verdict
  import opened VerdictLaws
  import opened VerdictEvidence

  /** What one call of Scan does. */
  datatype Outcome = Returns(result: ScanResult) | Panics

  datatype Job = Job(scanner: Scanner, outcome: Outcome)

  /** The one result a goroutine sends: its own, or the recovered panic. */
  function Sent(j: Job): ScanResult {
    match j.outcome
    case Returns(r) => r
    case Panics => ScanResult(j.scanner, Error, 0.0, "panic recovered")
  }

  datatype Goroutine = NotStarted | Running | Delivered | Done

  datatype State = State(goroutines: seq<Goroutine>, channel: seq<ScanResult>, closed: bool, results: seq<ScanResult>)

  /** Start: main spawns scanner `i`. Deliver: it sends (from its body, or from the deferred
      recover). Finish: its wg.Done. Close: main's wg.Wait is over. Receive: main collects. */
  datatype Label = Start(i: nat) | Deliver(i: nat) | Finish(i: nat) | Close | Receive

  function Initial(jobs: seq<Job>): State {
    State(seq(|jobs|, _ => NotStarted), [], false, [])
  }

  predicate In(s: State, i: nat, g: Goroutine) {
    i < |s.goroutines| && s.goroutines[i] == g
  }

  predicate Enabled(jobs: seq<Job>, s: State, l: Label) {
    match l
    case Start(i) => In(s, i, NotStarted)
    case Deliver(i) => In(s, i, Running) && i < |jobs| && |s.channel| < |jobs|
    case Finish(i) => In(s, i, Delivered)
    case Close => !s.closed && forall g :: g in s.goroutines ==> g.Done?
    case Receive => s.closed && s.channel != []
  }

  function Step(jobs: seq<Job>, s: State, l: Label): State {
    if !Enabled(jobs, s, l) then s else
    match l
    case Start(i) => s.(goroutines := s.goroutines[i := Running])
    case Deliver(i) => s.(goroutines := s.goroutines[i := Delivered], channel := s.channel + [Sent(jobs[i])])
    case Finish(i) => s.(goroutines := s.goroutines[i := Done])
    case Close => s.(closed := true)
    case Receive => s.(channel := s.channel[1..], results := s.results + [s.channel[0]])
  }

  function Run(jobs: seq<Job>, schedule: seq<Label>): State {
    if schedule == [] then Initial(jobs)
    else Step(jobs, Run(jobs, schedule[..|schedule| - 1]), schedule[|schedule| - 1])
  }

  // ----- Exactly one result per scanner ----------------------------------------------

  /** `order` lists the scanners in the order in which they delivered. */
  predicate Delivers(jobs: seq<Job>, s: State, order: seq<nat>) {
    && |s.goroutines| == |jobs|
    && |order| == |s.results| + |s.channel|
    && (forall k :: 0 <= k < |order| ==> order[k] < |jobs| && (s.results + s.channel)[k] == Sent(jobs[order[k]]))
    && (forall k, m :: 0 <= k < m < |order| ==> order[k] != order[m])
    && (forall i :: 0 <= i < |jobs| ==> (i in order <==> s.goroutines[i].Delivered? || s.goroutines[i].Done?))
    && (s.closed ==> forall i :: 0 <= i < |jobs| ==> s.goroutines[i].Done?)
    && (!s.closed ==> s.results == [])
  }

  lemma StepDelivers(jobs: seq<Job>, s: State, order: seq<nat>, l: Label) returns (order': seq<nat>)
    requires Delivers(jobs, s, order)
    ensures Delivers(jobs, Step(jobs, s, l), order')
  {
    order' := order;
    if Enabled(jobs, s, l) {
      if l.Deliver? {
        order' := order + [l.i];
        assert forall i :: i in order' <==> i in order || i == l.i;
      } else if l.Receive? {
        assert s.results + s.channel == (s.results + [s.channel[0]]) + s.channel[1..];
      } else if l.Close? {
        forall i | 0 <= i < |jobs| ensures s.goroutines[i].Done? {
          assert s.goroutines[i] in s.goroutines;
        }
      }
    }
  }

  lemma {:induction false} RunDelivers(jobs: seq<Job>, schedule: seq<Label>) returns (order: seq<nat>)
    ensures Delivers(jobs, Run(jobs, schedule), order)
  {
    if schedule == [] {
      order := [];
    } else {
      order := RunDelivers(jobs, schedule[..|schedule| - 1]);
      order := StepDelivers(jobs, Run(jobs, schedule[..|schedule| - 1]), order, schedule[|schedule| - 1]);
    }
  }

  function Below(n: nat): set<nat> {
    if n == 0 then {} else Below(n - 1) + {n - 1}
  }

  lemma {:induction false} BelowExact(n: nat, k: nat)
    ensures k in Below(n) <==> k < n
  {
    if n > 0 { BelowExact(n - 1, k); }
  }

  function Members(s: seq<nat>): set<nat> {
    set k | k in s
  }

  lemma {:induction false} SizeOfBelow(n: nat)
    ensures |Below(n)| == n
  {
    if n > 0 {
      SizeOfBelow(n - 1);
      BelowExact(n - 1, n - 1);
    }
  }

  lemma {:induction false} SizeOfMembers(s: seq<nat>)
    requires forall k, m :: 0 <= k < m < |s| ==> s[k] != s[m]
    ensures |Members(s)| == |s|
  {
    if s != [] {
      var n := |s| - 1;
      SizeOfMembers(s[..n]);
      assert s == s[..n] + [s[n]];
      assert Members(s) == Members(s[..n]) + {s[n]};
      assert s[n] !in Members(s[..n]);
    }
  }

  lemma {:induction false} SubsetSize(a: set<nat>, b: set<nat>)
    requires a <= b
    ensures |a| <= |b|
  {
    if x :| x in a { SubsetSize(a - {x}, b - {x}); }
  }

  /** A list of distinct indices below n has at most n of them, and fewer if one is missing. */
  lemma DistinctIndices(order: seq<nat>, n: nat)
    requires forall k :: 0 <= k < |order| ==> order[k] < n
    requires forall k, m :: 0 <= k < m < |order| ==> order[k] != order[m]
    ensures |order| <= n
    ensures forall i: nat :: i < n && i !in order ==> |order| < n
    ensures (forall i: nat :: i < n ==> i in order) ==> |order| == n
  {
    SizeOfBelow(n);
    SizeOfMembers(order);
    forall k: nat ensures k in Below(n) <==> k < n { BelowExact(n, k); }
    assert Members(order) <= Below(n);
    SubsetSize(Members(order), Below(n));
    forall i: nat | i < n && i !in order ensures |order| < n {
      SubsetSize(Members(order), Below(n) - {i});
    }
    if forall i: nat :: i < n ==> i in order {
      assert Members(order) == Below(n);
    }
  }

  /** No goroutine is ever blocked on its send: in every reachable state a scanner that has
      not delivered finds room in the channel. */
  lemma SendNeverBlocks(jobs: seq<Job>, schedule: seq<Label>, i: nat)
    requires In(Run(jobs, schedule), i, Running)
    ensures Enabled(jobs, Run(jobs, schedule), Deliver(i))
  {
    var order := RunDelivers(jobs, schedule);
    DistinctIndices(order, |jobs|);
  }

  predicate Complete(s: State) { s.closed && s.channel == [] }

  /** `r` is what should be collected for a job: its result, or an error in its name. */
  predicate Collected(j: Job, r: ScanResult) {
    if j.outcome.Panics? then r == ScanResult(j.scanner, Error, 0.0, "panic recovered") else j.outcome == Returns(r)
  }

  /** In every complete run exactly one result per scanner is collected: the results are a
      rearrangement of what the scanners return, with an error in place of each panic. */
  lemma OneResultPerScanner(jobs: seq<Job>, schedule: seq<Label>) returns (order: seq<nat>)
    requires Complete(Run(jobs, schedule))
    ensures var results := Run(jobs, schedule).results;
      && |results| == |order| == |jobs|
      && (forall k :: 0 <= k < |order| ==> order[k] < |jobs| && Collected(jobs[order[k]], results[k]))
      && (forall k, m :: 0 <= k < m < |order| ==> order[k] != order[m])
      && (forall i: nat :: i < |jobs| ==> i in order)
  {
    order := RunDelivers(jobs, schedule);
    DistinctIndices(order, |jobs|);
    var s := Run(jobs, schedule);
    assert s.results + s.channel == s.results;
  }

  /** A run that is not complete can go on, and only finitely often. */
  lemma NeverStuck(jobs: seq<Job>, schedule: seq<Label>) returns (l: Label)
    requires !Complete(Run(jobs, schedule))
    ensures Enabled(jobs, Run(jobs, schedule), l)
    ensures Work(Step(jobs, Run(jobs, schedule), l)) < Work(Run(jobs, schedule))
  {
    var s := Run(jobs, schedule);
    var order := RunDelivers(jobs, schedule);
    if i :| 0 <= i < |s.goroutines| && !s.goroutines[i].Done? {
      match s.goroutines[i]
      case NotStarted => l := Start(i); ToGoAfter(s.goroutines, i, Running);
      case Running => l := Deliver(i); SendNeverBlocks(jobs, schedule, i); ToGoAfter(s.goroutines, i, Delivered);
      case Delivered => l := Finish(i); ToGoAfter(s.goroutines, i, Done);
    } else if !s.closed {
      l := Close;
    } else {
      l := Receive;
    }
  }

  function Weight(g: Goroutine): nat {
    match g case NotStarted => 6 case Running => 4 case Delivered => 1 case Done => 0
  }

  function ToGo(gs: seq<Goroutine>): nat {
    if gs == [] then 0 else Weight(gs[0]) + ToGo(gs[1..])
  }

  lemma {:induction false} ToGoAfter(gs: seq<Goroutine>, i: nat, g: Goroutine)
    requires i < |gs|
    ensures ToGo(gs[i := g]) == ToGo(gs) - Weight(gs[i]) + Weight(g)
  {
    if i == 0 {
      assert gs[0 := g][1..] == gs[1..];
    } else {
      ToGoAfter(gs[1..], i - 1, g);
      assert gs[i := g][1..] == gs[1..][i - 1 := g];
    }
  }

  /** How much a run still has to do. */
  function Work(s: State): nat {
    ToGo(s.goroutines) + |s.channel| + (if s.closed then 0 else 1)
  }

  /** Every scanner reports under its own name and the names differ. */
  predicate NamedApart(jobs: seq<Job>) {
    && (forall i :: 0 <= i < |jobs| && jobs[i].outcome.Returns? ==> jobs[i].outcome.result.scanner == jobs[i].scanner)
    && (forall i, j :: 0 <= i < j < |jobs| ==> jobs[i].scanner != jobs[j].scanner)
  }

  lemma CompleteRunIsPermutation(jobs: seq<Job>, schedule: seq<Label>)
    requires NamedApart(jobs) && Complete(Run(jobs, schedule))
    ensures DistinctScanners(Run(jobs, schedule).results)
    ensures forall r :: r in Run(jobs, schedule).results <==> exists i: nat :: i < |jobs| && Collected(jobs[i], r)
  {
    var order := OneResultPerScanner(jobs, schedule);
    var results := Run(jobs, schedule).results;
    forall i: nat | i < |jobs| ensures Sent(jobs[i]) in results {
      assert i in order;
      var k :| 0 <= k < |order| && order[k] == i;
      assert results[k] == Sent(jobs[i]);
    }
    forall k, m | 0 <= k < m < |results| ensures results[k].scanner != results[m].scanner {
      var a, b := order[k], order[m];
      assert jobs[a].scanner != jobs[b].scanner;
    }
  }

  /** Whatever the interleaving and whichever scanners panic, the decision, the class and the
      confidence are the same. */
  lemma ScheduleIndependent(t: Thresholds, e: Email, jobs: seq<Job>, one: seq<Label>, other: seq<Label>)
    requires NamedApart(jobs) && Complete(Run(jobs, one)) && Complete(Run(jobs, other))
    ensures var v1, v2 := DecideSpec(t, e, Run(jobs, one).results), DecideSpec(t, e, Run(jobs, other).results);
      && v1.decision == v2.decision && v1.class_ == v2.class_ && v1.confidence == v2.confidence
      && (v1.reason != v2.reason ==> OrderDependent(v1.reason) && OrderDependent(v2.reason))
  {
    CompleteRunIsPermutation(jobs, one);
    CompleteRunIsPermutation(jobs, other);
    OrderIndependent(t, e, Run(jobs, one).results, Run(jobs, other).results);
  }

  /** A panic of ClamAV, YARA or rspamd never lets a message pass, whatever the interleaving and
      whatever the other scanners do. */
  lemma PanicNeverPasses(t: Thresholds, e: Email, jobs: seq<Job>, schedule: seq<Label>, i: nat)
    requires Complete(Run(jobs, schedule)) && i < |jobs| && jobs[i].outcome.Panics?
    requires jobs[i].scanner == ClamAV || jobs[i].scanner == Yara || jobs[i].scanner == Rspamd
    ensures DecideSpec(t, e, Run(jobs, schedule).results).decision != Pass
  {
    var order := OneResultPerScanner(jobs, schedule);
    var results := Run(jobs, schedule).results;
    assert i in order;
    var k :| 0 <= k < |order| && order[k] == i;
    assert results[k] in results;
    DownNeverPasses(t, e, results, results[k]);
  }
}
