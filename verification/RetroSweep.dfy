/**
 The retrospective sweep: clean inbox rows of the last hours are paged through by id, 200 at
 a time, looked up again in the threat feeds, and clawed back into quarantine on a hit, which
 changes the very table being paged through.
 */
module RetroSweep {
  import Keys
  import opened Options

  datatype Verdict = Clean | Spam | Phish | Malware | Suspicious

  datatype Status = Inbox | Quarantined | OtherStatus

  /** The scanned_urls column: NULL or 'null', text that is not a list, or a list. */
  datatype Urls = Absent | Unparsable | Listed(urls: seq<string>)

  datatype Row = Row(id: nat, account: string, mailbox: string, uid: nat, accountUid: string,
                     verdict: Verdict, status: Status, createdAt: int, urls: Urls)

  datatype Move = MoveFailed | Moved(newUid: nat)

  /** Everything outside the table that a sweep depends on: the feeds at the time each row is
      looked at, the account registry, the IMAP server and the database. */
  datatype World = World(shared: string -> bool, exact: (nat, string) -> Option<string>, broad: (nat, string) -> Option<string>,
                         quarantine: string -> Option<string>, move: nat -> Move, write: nat -> bool)

  const BATCH: nat := 200

  // ----- Specification --------------------------------------------------------------------------

  predicate Matches(r: Row, cutoff: int) {
    r.verdict.Clean? && r.status.Inbox? && r.createdAt > cutoff && !r.urls.Absent?
  }

  /** On shared hosting platforms only an exact hit counts. */
  function Found(w: World, id: nat, url: string): Option<string> {
    if w.shared(url) then w.exact(id, url) else w.broad(id, url)
  }

  predicate Hit(w: World, r: Row) {
    r.urls.Listed? && exists u :: u in r.urls.urls && Found(w, r.id, u).Some?
  }

  predicate MalwareHit(w: World, r: Row) {
    r.urls.Listed? && exists u :: u in r.urls.urls && Found(w, r.id, u) == Some("malware")
  }

  /** A row is clawed back when it has a hit and nothing on the way fails. */
  predicate ClawedBack(w: World, r: Row) {
    Hit(w, r) && w.quarantine(r.account).Some? && w.move(r.id).Moved? && w.write(r.id)
  }

  /** What evaluating a row makes of it. */
  function After(w: World, r: Row): Row {
    if !ClawedBack(w, r) then r
    else
      var folder, uid := w.quarantine(r.account).value, w.move(r.id).newUid;
      var q := r.(status := Quarantined, verdict := if MalwareHit(w, r) then Malware else Phish, mailbox := folder);
      if uid > 0 then q.(uid := uid, accountUid := Keys.MakeAccountUID(r.account, folder, uid)) else q
  }

  /** A table in primary key order. */
  predicate Ordered(table: seq<Row>) {
    forall i, j :: 0 <= i < j < |table| ==> table[i].id < table[j].id
  }

  /** The ids of the matching rows up to and including `bound`. */
  function MatchingUpTo(table: seq<Row>, cutoff: int, bound: int): seq<nat> {
    if table == [] then []
    else
      (if Matches(table[0], cutoff) && table[0].id <= bound then [table[0].id] else []) + MatchingUpTo(table[1..], cutoff, bound)
  }

  /** The table once the matching rows up to `bound` have been evaluated, each once. */
  function SweptUpTo(w: World, table: seq<Row>, cutoff: int, bound: int): (after: seq<Row>)
    ensures |after| == |table|
    ensures forall i :: 0 <= i < |table| ==> after[i] == AfterUpTo(w, table[i], cutoff, bound)
  {
    seq(|table|, i requires 0 <= i < |table| => AfterUpTo(w, table[i], cutoff, bound))
  }

  function AfterUpTo(w: World, r: Row, cutoff: int, bound: int): Row {
    if Matches(r, cutoff) && r.id <= bound then After(w, r) else r
  }

  /** Every id in the table is at most this. */
  function Top(table: seq<Row>): (top: nat)
    requires Ordered(table)
    ensures forall r :: r in table ==> r.id <= top
  {
    if table == [] then 0 else table[|table| - 1].id
  }

  /** The sweep seen as one pass over the table, without pages. */
  function OnePass(w: World, table: seq<Row>, cutoff: int): seq<Row>
    requires Ordered(table)
  {
    SweptUpTo(w, table, cutoff, Top(table))
  }

  function Matching(table: seq<Row>, cutoff: int): seq<nat>
    requires Ordered(table)
  {
    MatchingUpTo(table, cutoff, Top(table))
  }

  // ----- The query ---------------------------------------------------------------------------------

  /** WHERE id > last AND … ORDER BY id LIMIT limit. */
  function Select(table: seq<Row>, last: nat, cutoff: int, limit: nat): seq<Row> {
    if table == [] || limit == 0 then []
    else if table[0].id > last && Matches(table[0], cutoff) then [table[0]] + Select(table[1..], last, cutoff, limit - 1)
    else Select(table[1..], last, cutoff, limit)
  }

  /** A page holds the first matching rows after `last`, and is only short of the limit if
      there are no more. */
  ghost predicate IsPage(table: seq<Row>, last: nat, cutoff: int, limit: nat, page: seq<Row>) {
    && |page| <= limit
    && Ordered(page)
    && (forall r :: r in page ==> r in table && r.id > last && Matches(r, cutoff))
    && (forall r :: r in table && r.id > last && Matches(r, cutoff) && r !in page
          ==> |page| == limit && forall p :: p in page ==> p.id < r.id)
  }

  lemma FirstIsLeast(table: seq<Row>)
    requires Ordered(table) && table != []
    ensures Ordered(table[1..])
    ensures forall r :: r in table <==> r == table[0] || r in table[1..]
    ensures forall r :: r in table[1..] ==> table[0].id < r.id
  {
  }

  /** Putting the first matching row in front of a page of the rest. */
  lemma PageWithFirst(table: seq<Row>, last: nat, cutoff: int, limit: nat, page: seq<Row>)
    requires Ordered(table) && table != [] && limit > 0 && table[0].id > last && Matches(table[0], cutoff)
    requires IsPage(table[1..], last, cutoff, limit - 1, page)
    ensures IsPage(table, last, cutoff, limit, [table[0]] + page)
  {
    FirstIsLeast(table);
    var longer := [table[0]] + page;
    assert forall r :: r in longer <==> r == table[0] || r in page;
    forall i, j | 0 <= i < j < |longer| ensures longer[i].id < longer[j].id {
      assert longer[j] == page[j - 1] && page[j - 1] in page;
      assert i > 0 ==> longer[i] == page[i - 1];
    }
  }

  lemma {:induction false} SelectsPage(table: seq<Row>, last: nat, cutoff: int, limit: nat)
    requires Ordered(table)
    ensures IsPage(table, last, cutoff, limit, Select(table, last, cutoff, limit))
  {
    if table != [] && limit != 0 {
      FirstIsLeast(table);
      if table[0].id > last && Matches(table[0], cutoff) {
        SelectsPage(table[1..], last, cutoff, limit - 1);
        PageWithFirst(table, last, cutoff, limit, Select(table[1..], last, cutoff, limit - 1));
      } else {
        SelectsPage(table[1..], last, cutoff, limit);
      }
    }
  }

  // ----- Moving the bound ---------------------------------------------------------------------------

  /** Moving the bound from one matching row to the next adds exactly that row. */
  lemma {:induction false} NextId(table: seq<Row>, cutoff: int, bound: int, next: Row)
    requires Ordered(table) && next in table && Matches(next, cutoff) && bound < next.id
    requires forall r :: r in table && Matches(r, cutoff) ==> r.id <= bound || next.id <= r.id
    ensures MatchingUpTo(table, cutoff, next.id) == MatchingUpTo(table, cutoff, bound) + [next.id]
  {
    var first, rest := table[0], table[1..];
    assert forall r :: r in table <==> r == first || r in rest;
    if first == next {
      forall i | 0 <= i < |rest| ensures rest[i].id > next.id {
        assert rest[i] == table[i + 1];
      }
      NoneUpTo(rest, cutoff, next.id);
      NoneUpTo(rest, cutoff, bound);
    } else {
      NextId(rest, cutoff, bound, next);
      assert first.id < next.id by {
        var i :| 0 <= i < |rest| && rest[i] == next;
        assert table[i + 1] == next;
      }
    }
  }

  lemma {:induction false} NoneUpTo(table: seq<Row>, cutoff: int, bound: int)
    requires forall i :: 0 <= i < |table| ==> table[i].id > bound || !Matches(table[i], cutoff)
    ensures MatchingUpTo(table, cutoff, bound) == []
  {
    if table != [] { NoneUpTo(table[1..], cutoff, bound); }
  }

  /** Bounds with no matching row between them are the same. */
  lemma {:induction false} SameIds(table: seq<Row>, cutoff: int, low: int, high: int)
    requires low <= high
    requires forall r :: r in table && Matches(r, cutoff) ==> r.id <= low || high < r.id
    ensures MatchingUpTo(table, cutoff, low) == MatchingUpTo(table, cutoff, high)
  {
    if table != [] {
      assert forall r :: r in table[1..] ==> r in table;
      SameIds(table[1..], cutoff, low, high);
    }
  }

  lemma {:induction false} IdsFit(table: seq<Row>, cutoff: int, bound: int)
    ensures |MatchingUpTo(table, cutoff, bound)| <= |table|
  {
    if table != [] { IdsFit(table[1..], cutoff, bound); }
  }

  /** Sweeping changes no id, so the order stays. */
  lemma SweepKeepsOrder(w: World, table: seq<Row>, cutoff: int, bound: int)
    requires Ordered(table)
    ensures Ordered(SweptUpTo(w, table, cutoff, bound))
  {
  }

  /** The rows after the bound are as they were at the start, so a page of the changed table
      is a page of the table at the start. */
  lemma PageOfStart(w: World, start: seq<Row>, cutoff: int, last: nat, limit: nat, page: seq<Row>)
    requires IsPage(SweptUpTo(w, start, cutoff, last), last, cutoff, limit, page)
    ensures IsPage(start, last, cutoff, limit, page)
  {
    var table := SweptUpTo(w, start, cutoff, last);
    forall r: Row | r.id > last ensures r in start <==> r in table {
      if r in start {
        var i :| 0 <= i < |start| && start[i] == r;
        assert table[i] == r;
      }
      if r in table {
        var i :| 0 <= i < |table| && table[i] == r;
        assert start[i] == r;
      }
    }
  }

  lemma SelectsPageOfStart(w: World, start: seq<Row>, cutoff: int, last: nat, limit: nat)
    requires Ordered(start)
    ensures IsPage(start, last, cutoff, limit, Select(SweptUpTo(w, start, cutoff, last), last, cutoff, limit))
  {
    var table := SweptUpTo(w, start, cutoff, last);
    SweepKeepsOrder(w, start, cutoff, last);
    SelectsPage(table, last, cutoff, limit);
    PageOfStart(w, start, cutoff, last, limit, Select(table, last, cutoff, limit));
  }

  /** No matching row lies between the bound and the next row of the page. */
  lemma NothingBetween(start: seq<Row>, cutoff: int, last: nat, limit: nat, page: seq<Row>, n: nat, r: Row)
    requires Ordered(start) && IsPage(start, last, cutoff, limit, page) && n < |page|
    requires r in start && Matches(r, cutoff)
    ensures r.id <= (if n == 0 then last else page[n - 1].id) || page[n].id <= r.id
  {
    if r.id > last {
      if r in page {
        var m :| 0 <= m < |page| && page[m] == r;
        assert m < n - 1 ==> page[m].id < page[n - 1].id;
        assert m > n ==> page[n].id < page[m].id;
      } else {
        assert page[n] in page;
      }
    } else if n > 0 {
      assert page[n - 1] in page;
    }
  }

  /** Evaluating the next row of a page moves the bound to it. */
  lemma NextOnPage(w: World, start: seq<Row>, cutoff: int, last: nat, limit: nat, page: seq<Row>, n: nat, bound: nat)
    returns (i: nat)
    requires Ordered(start) && IsPage(start, last, cutoff, limit, page) && n < |page|
    requires bound == if n == 0 then last else page[n - 1].id
    ensures i < |start| && start[i] == page[n] && SweptUpTo(w, start, cutoff, bound)[i] == page[n]
    ensures Matches(page[n], cutoff)
    ensures SweptUpTo(w, start, cutoff, page[n].id) == SweptUpTo(w, start, cutoff, bound)[i := After(w, page[n])]
    ensures MatchingUpTo(start, cutoff, page[n].id) == MatchingUpTo(start, cutoff, bound) + [page[n].id]
  {
    var next := page[n];
    assert next in page && (n > 0 ==> page[n - 1].id < next.id);
    i :| 0 <= i < |start| && start[i] == next;
    forall r | r in start && Matches(r, cutoff) ensures r.id <= bound || next.id <= r.id {
      NothingBetween(start, cutoff, last, limit, page, n, r);
    }
    NextId(start, cutoff, bound, next);
    NextSwept(w, start, cutoff, bound, i);
  }

  lemma NextSwept(w: World, table: seq<Row>, cutoff: int, bound: int, i: nat)
    requires Ordered(table) && i < |table| && Matches(table[i], cutoff) && bound < table[i].id
    requires forall r :: r in table && Matches(r, cutoff) ==> r.id <= bound || table[i].id <= r.id
    ensures SweptUpTo(w, table, cutoff, table[i].id) == SweptUpTo(w, table, cutoff, bound)[i := After(w, table[i])]
  {
    forall j | 0 <= j < |table| && j != i
      ensures AfterUpTo(w, table[j], cutoff, table[i].id) == AfterUpTo(w, table[j], cutoff, bound)
    {
      assert table[j] in table;
      assert table[j].id != table[i].id;
    }
  }

  /** Once no matching row is left above the bound, the single pass is done. */
  lemma Exhausted(w: World, start: seq<Row>, cutoff: int, last: nat)
    requires Ordered(start)
    requires forall r :: r in start && Matches(r, cutoff) ==> r.id <= last
    ensures SweptUpTo(w, start, cutoff, last) == OnePass(w, start, cutoff)
    ensures MatchingUpTo(start, cutoff, last) == Matching(start, cutoff)
  {
    assert forall i :: 0 <= i < |start| ==> start[i] in start;
    if last <= Top(start) {
      SameIds(start, cutoff, last, Top(start));
    } else {
      SameIds(start, cutoff, Top(start), last);
    }
  }

  /** A page that is not full is the last one. */
  lemma ShortPage(w: World, start: seq<Row>, cutoff: int, last: nat, page: seq<Row>)
    requires Ordered(start) && IsPage(start, last, cutoff, BATCH, page) && |page| < BATCH
    ensures var end := if page == [] then last else page[|page| - 1].id;
      SweptUpTo(w, start, cutoff, end) == OnePass(w, start, cutoff) && MatchingUpTo(start, cutoff, end) == Matching(start, cutoff)
  {
    var end := if page == [] then last else page[|page| - 1].id;
    forall r | r in start && Matches(r, cutoff) ensures r.id <= end {
      if r.id > last {
        var m :| 0 <= m < |page| && page[m] == r;
        assert m < |page| - 1 ==> page[m].id < end;
      } else if page != [] {
        assert page[|page| - 1] in page;
      }
    }
    Exhausted(w, start, cutoff, end);
  }

  // ----- What a sweep means -----------------------------------------------------------------------------

  /** The evaluated ids are exactly those of the matching rows … */
  lemma {:induction false} MatchingExact(table: seq<Row>, cutoff: int, bound: int, id: nat)
    ensures id in MatchingUpTo(table, cutoff, bound) <==>
      exists r :: r in table && r.id == id && id <= bound && r.verdict == Clean && r.status == Inbox && r.createdAt > cutoff && r.urls != Absent
  {
    if table != [] {
      MatchingExact(table[1..], cutoff, bound, id);
      assert forall r :: r in table <==> r == table[0] || r in table[1..];
    }
  }

  predicate Increasing(ids: seq<nat>) {
    forall i, j :: 0 <= i < j < |ids| ==> ids[i] < ids[j]
  }

  /** … and come in increasing order, each once. */
  lemma {:induction false} MatchingIncreases(table: seq<Row>, cutoff: int, bound: int)
    requires Ordered(table)
    ensures Increasing(MatchingUpTo(table, cutoff, bound))
  {
    if table != [] {
      var first, later := table[0].id, MatchingUpTo(table[1..], cutoff, bound);
      FirstIsLeast(table);
      MatchingIncreases(table[1..], cutoff, bound);
      forall j | 0 <= j < |later| ensures first < later[j] {
        assert later[j] in later;
        MatchingExact(table[1..], cutoff, bound, later[j]);
      }
      assert Increasing([first] + later);
      assert [] + later == later;
    }
  }

  /** A past sweep, complete or stopped early at `bound`. */
  datatype Past = Past(world: World, cutoff: int, bound: int)

  /** One sweep after another. */
  function Sweeps(table: seq<Row>, sweeps: seq<Past>): (after: seq<Row>)
    requires Ordered(table)
    ensures Ordered(after) && |after| == |table|
  {
    if sweeps == [] then table
    else
      var earlier, s := Sweeps(table, sweeps[..|sweeps| - 1]), sweeps[|sweeps| - 1];
      SweepKeepsOrder(s.world, earlier, s.cutoff, s.bound);
      SweptUpTo(s.world, earlier, s.cutoff, s.bound)
  }

  lemma QuarantinedDoesNotMatch(table: seq<Row>, i: nat, cutoff: int)
    requires Ordered(table) && i < |table| && table[i].status.Quarantined?
    ensures table[i].id !in Matching(table, cutoff)
  {
    MatchingExact(table, cutoff, Top(table), table[i].id);
    forall r | r in table && r.id == table[i].id ensures r == table[i] {
      var j :| 0 <= j < |table| && table[j] == r;
      assert table[i].id == table[j].id;
    }
  }

  /** A row that is quarantined is never picked or changed by any later sweep. */
  lemma {:induction false} NeverPickedAgain(table: seq<Row>, i: nat, sweeps: seq<Past>, cutoff: int)
    requires Ordered(table) && i < |table| && table[i].status.Quarantined?
    ensures Sweeps(table, sweeps)[i] == table[i]
    ensures table[i].id !in Matching(Sweeps(table, sweeps), cutoff)
  {
    if sweeps != [] {
      NeverPickedAgain(table, i, sweeps[..|sweeps| - 1], cutoff);
    }
    QuarantinedDoesNotMatch(Sweeps(table, sweeps), i, cutoff);
  }

  /** The feeds know one of the row's URLs: on shared hosting by exact match, else also by host. */
  predicate Known(w: World, r: Row) {
    r.urls.Listed? &&
    exists u :: u in r.urls.urls && if w.shared(u) then w.exact(r.id, u) != None else w.broad(r.id, u) != None
  }

  predicate KnownMalware(w: World, r: Row) {
    r.urls.Listed? &&
    exists u :: u in r.urls.urls && Some("malware") == if w.shared(u) then w.exact(r.id, u) else w.broad(r.id, u)
  }

  /** A sweep takes a row out of the inbox exactly when it is a clean, recent inbox row with URLs
      that the feeds now know, and account, move and write are good. */
  lemma LeavesInboxExactly(w: World, table: seq<Row>, cutoff: int, i: nat)
    requires Ordered(table) && i < |table|
    ensures var r, after := table[i], OnePass(w, table, cutoff)[i];
      after != r <==>
      && r.verdict == Clean && r.status == Inbox && r.createdAt > cutoff && Known(w, r)
      && w.quarantine(r.account) != None && w.move(r.id) != MoveFailed && w.write(r.id)
  {
    assert table[i] in table;
    HitIsKnown(w, table[i]);
  }

  lemma HitIsKnown(w: World, r: Row)
    ensures Hit(w, r) <==> Known(w, r)
    ensures MalwareHit(w, r) <==> KnownMalware(w, r)
  {
    if r.urls.Listed? {
      assert forall u :: u in r.urls.urls ==> Found(w, r.id, u) == if w.shared(u) then w.exact(r.id, u) else w.broad(r.id, u);
    }
  }

  /** What such a row becomes: quarantined, as malware if one of the hits is and else as phishing,
      in the account's quarantine folder, and under its new UID and key if the server gave one. */
  lemma ClawedBackRow(w: World, table: seq<Row>, cutoff: int, i: nat)
    requires Ordered(table) && i < |table| && OnePass(w, table, cutoff)[i] != table[i]
    ensures var r, after := table[i], OnePass(w, table, cutoff)[i];
      && after.status == Quarantined && after.verdict == (if KnownMalware(w, r) then Malware else Phish)
      && after.id == r.id && after.account == r.account && after.createdAt == r.createdAt && after.urls == r.urls
      && w.quarantine(r.account) == Some(after.mailbox) && w.move(r.id).Moved?
      && var uid := w.move(r.id).newUid;
         if uid > 0 then after.uid == uid && after.accountUid == Keys.MakeAccountUID(r.account, after.mailbox, uid)
         else after.uid == r.uid && after.accountUid == r.accountUid
  {
    assert table[i] in table;
    HitIsKnown(w, table[i]);
  }

  // ----- The sweep ------------------------------------------------------------------------------------

  datatype Outcome = Skipped | Cancelled | QueryFailed | Complete

  class RetroScanner {
    var table: seq<Row>
    var running: bool
    /** The ids handed to `Evaluate` by the current sweep, in order. */
    var evaluated: seq<nat>

    constructor (rows: seq<Row>)
      ensures table == rows && !running && evaluated == []
    {
      table, running, evaluated := rows, false, [];
    }

    /** evaluate: look every URL of the row up and claw the row back on a hit. The row in the
        table is the candidate itself as long as nobody else changes it. */
    method Evaluate(w: World, r: Row, ghost i: nat)
      requires Ordered(table) && i < |table| && table[i] == r && r.status.Inbox?
      modifies this`table, this`evaluated
      ensures table == old(table)[i := After(w, r)]
      ensures evaluated == old(evaluated) + [r.id]
    {
      evaluated := evaluated + [r.id];
      assert table == table[i := r];
      if !r.urls.Listed? || r.urls.urls == [] { return; }
      var urls := r.urls.urls;
      var hits: seq<string> := [];
      for n := 0 to |urls|
        invariant table == old(table) && evaluated == old(evaluated) + [r.id]
        invariant hits == [] <==> forall m :: 0 <= m < n ==> Found(w, r.id, urls[m]).None?
        invariant "malware" in hits <==> exists m :: 0 <= m < n && Found(w, r.id, urls[m]) == Some("malware")
      {
        var found := if w.shared(urls[n]) then w.exact(r.id, urls[n]) else w.broad(r.id, urls[n]);
        if found.Some? { hits := hits + [found.value]; }
      }
      assert Hit(w, r) <==> hits != [];
      assert MalwareHit(w, r) <==> "malware" in hits;
      if hits == [] { return; }
      Clawback(w, r, hits, i);
    }

    method Clawback(w: World, r: Row, hits: seq<string>, ghost i: nat)
      requires Ordered(table) && i < |table| && table[i] == r && r.status.Inbox?
      requires Hit(w, r) && hits != [] && (MalwareHit(w, r) <==> "malware" in hits)
      modifies this`table
      ensures table == old(table)[i := After(w, r)]
    {
      assert table == table[i := r];
      if w.quarantine(r.account).None? || w.move(r.id).MoveFailed? { return; }
      var folder, uid := w.quarantine(r.account).value, w.move(r.id).newUid;
      var verdict := Phish;
      for n := 0 to |hits|
        invariant verdict == Phish && forall m :: 0 <= m < n ==> hits[m] != "malware"
      {
        if hits[n] == "malware" {
          verdict := Malware;
          break;
        }
      }
      if !w.write(r.id) { return; }
      var changed := r.(verdict := verdict, status := Quarantined, mailbox := folder);
      if uid > 0 {
        changed := changed.(uid := uid, accountUid := Keys.MakeAccountUID(r.account, folder, uid));
      }
      Update(r.id, changed, i);
    }

    /** UPDATE … WHERE id = ? AND status = 'INBOX'. */
    method Update(id: nat, changed: Row, ghost i: nat)
      requires Ordered(table) && i < |table| && table[i].id == id && table[i].status.Inbox?
      modifies this`table
      ensures table == old(table)[i := changed]
    {
      var before := table;
      for n := 0 to |before|
        invariant table == if i < n then before[i := changed] else before
      {
        if before[n].id == id && before[n].status.Inbox? { table := table[n := changed]; }
      }
    }

    /** sweep. However the pages fall and whatever the clawbacks do to the table, a sweep that
        completes has done what one pass over the table as it was at the start would do, and
        has evaluated every row that matched then exactly once, in increasing id. One that
        stops early has done a first part of that. */
    method Sweep(w: World, cutoff: int) returns (outcome: Outcome)
      requires Ordered(table) && forall r :: r in table ==> r.id > 0
      modifies this
      ensures outcome.Skipped? ==> table == old(table) && evaluated == old(evaluated)
      ensures outcome.Skipped? <== old(running)
      ensures running == old(running)
      ensures outcome.Complete? ==> table == OnePass(w, old(table), cutoff) && evaluated == Matching(old(table), cutoff)
      ensures outcome.Cancelled? || outcome.QueryFailed? ==>
                exists bound :: table == SweptUpTo(w, old(table), cutoff, bound) && evaluated == MatchingUpTo(old(table), cutoff, bound)
    {
      var cancelled: bool := *;
      if cancelled || running { return Skipped; }
      running := true;
      outcome := Pages(w, cutoff);
      running := false;
    }

    method Pages(w: World, cutoff: int) returns (outcome: Outcome)
      requires Ordered(table) && forall r :: r in table ==> r.id > 0
      modifies this`table, this`evaluated
      ensures !outcome.Skipped?
      ensures outcome.Complete? ==> table == OnePass(w, old(table), cutoff) && evaluated == Matching(old(table), cutoff)
      ensures outcome.Cancelled? || outcome.QueryFailed? ==>
                exists bound :: table == SweptUpTo(w, old(table), cutoff, bound) && evaluated == MatchingUpTo(old(table), cutoff, bound)
    {
      evaluated := [];
      var lastId: nat := 0;
      ghost var start := table;
      NoneUpTo(start, cutoff, 0);
      while true
        invariant start == old(table)
        invariant table == SweptUpTo(w, start, cutoff, lastId)
        invariant evaluated == MatchingUpTo(start, cutoff, lastId)
        decreases |start| - |evaluated|
      {
        var cancelled: bool := *;
        if cancelled { return Cancelled; }
        var failed: bool := *;
        if failed { return QueryFailed; }
        var page := Select(table, lastId, cutoff, BATCH);
        SelectsPageOfStart(w, start, cutoff, lastId, BATCH);
        if |page| == 0 {
          ShortPage(w, start, cutoff, lastId, page);
          return Complete;
        }
        var stopped := EvaluatePage(w, cutoff, lastId, page, start);
        if stopped { return Cancelled; }
        ghost var from := lastId;
        lastId := page[|page| - 1].id;
        if |page| < BATCH {
          ShortPage(w, start, cutoff, from, page);
          return Complete;
        }
        IdsFit(start, cutoff, lastId);
      }
    }

    method EvaluatePage(w: World, cutoff: int, lastId: nat, page: seq<Row>, ghost start: seq<Row>) returns (stopped: bool)
      requires Ordered(start) && page != [] && IsPage(start, lastId, cutoff, BATCH, page)
      requires table == SweptUpTo(w, start, cutoff, lastId) && evaluated == MatchingUpTo(start, cutoff, lastId)
      modifies this`table, this`evaluated
      ensures !stopped ==> table == SweptUpTo(w, start, cutoff, page[|page| - 1].id)
      ensures !stopped ==> evaluated == MatchingUpTo(start, cutoff, page[|page| - 1].id)
      ensures !stopped ==> |evaluated| == |old(evaluated)| + |page|
      ensures stopped ==>
                exists bound :: table == SweptUpTo(w, start, cutoff, bound) && evaluated == MatchingUpTo(start, cutoff, bound)
    {
      ghost var bound := lastId;
      for n := 0 to |page|
        invariant bound == if n == 0 then lastId else page[n - 1].id
        invariant table == SweptUpTo(w, start, cutoff, bound)
        invariant evaluated == MatchingUpTo(start, cutoff, bound)
        invariant |evaluated| == |old(evaluated)| + n
      {
        var cancelled: bool := *;
        if cancelled { return true; }
        ghost var i := NextOnPage(w, start, cutoff, lastId, BATCH, page, n, bound);
        SweepKeepsOrder(w, start, cutoff, bound);
        Evaluate(w, page[n], i);
        bound := page[n].id;
      }
      return false;
    }
  }
}
