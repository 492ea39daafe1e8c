/**
 Versioned schema migration. A run applies the pending versions in order; each version is
 an optional data transform followed by saving the version row, and the process may die
 between any two of these writes.
 */
module Migration {
  import opened Keys

  datatype Mailbox = Null | Named(name: string)

  datatype Scan = Scan(account: string, mailbox: Mailbox, uid: nat, accountUid: string)

  datatype Database = Database(scans: map<nat, Scan>, versions: set<nat>)

  /** The last entry of `migrations`; only version 6 carries a data transform. */
  const LATEST: nat := 7
  const KEY_REBUILD: nat := 6

  /** COALESCE(imap_mailbox, ''). */
  function Coalesce(m: Mailbox): string {
    if m.Null? then "" else m.name
  }

  function KeyOf(s: Scan): string {
    MakeAccountUID(s.account, Coalesce(s.mailbox), s.uid)
  }

  /** migrateV6AccountUIDMailboxScoped: recompute the key from the other columns. */
  function RebuildKeys(scans: map<nat, Scan>): map<nat, Scan> {
    map id | id in scans :: scans[id].(accountUid := KeyOf(scans[id]))
  }

  function Max(versions: set<nat>, limit: nat): nat {
    if limit in versions then limit else if limit == 0 then 0 else Max(versions, limit - 1)
  }

  /** The highest recorded version; 0 when the table is empty. Versions above LATEST, left by
      a newer program, count too. */
  function Current(versions: set<nat>): nat {
    if exists v :: v in versions && v > LATEST then LATEST else Max(versions, LATEST)
  }

  /** One atomic write. */
  datatype Write = Transform(version: nat) | Save(version: nat)

  function Perform(db: Database, w: Write): Database {
    match w
    case Transform(_) => db.(scans := RebuildKeys(db.scans))
    case Save(v) => db.(versions := db.versions + {v})
  }

  /** The writes of a run that finds `current` recorded. */
  function Plan(current: nat): seq<Write>
    decreases LATEST - current
  {
    if current >= LATEST then []
    else (if current + 1 == KEY_REBUILD then [Transform(current + 1)] else []) + [Save(current + 1)] + Plan(current + 1)
  }

  function PerformAll(db: Database, ws: seq<Write>): Database
    decreases ws
  {
    if ws == [] then db else PerformAll(Perform(db, ws[0]), ws[1..])
  }

  /** A run of Migrate that dies (or fails) after `survived` of its writes. */
  function Interrupted(db: Database, survived: nat): Database {
    var plan := Plan(Current(db.versions));
    PerformAll(db, if survived <= |plan| then plan[..survived] else plan)
  }

  function Migrated(db: Database): Database {
    PerformAll(db, Plan(Current(db.versions)))
  }

  function AfterCrashes(db: Database, crashes: seq<nat>): Database
    decreases crashes
  {
    if crashes == [] then db else AfterCrashes(Interrupted(db, crashes[0]), crashes[1..])
  }

  // ----- Crash safety -----------------------------------------------------------------

  lemma {:induction false} MaxExact(versions: set<nat>, limit: nat)
    ensures Max(versions, limit) <= limit
    ensures forall v :: v in versions && v <= limit ==> v <= Max(versions, limit)
    ensures Max(versions, limit) > 0 ==> Max(versions, limit) in versions
  {
    if limit !in versions && limit > 0 { MaxExact(versions, limit - 1); }
  }

  /** Saving the next version moves the current version to it. */
  lemma CurrentAfterSave(versions: set<nat>)
    requires Current(versions) < LATEST
    ensures Current(versions + {Current(versions) + 1}) == Current(versions) + 1
  {
    var c := Current(versions);
    MaxExact(versions, LATEST);
    MaxExact(versions + {c + 1}, LATEST);
    assert c + 1 in versions + {c + 1};
  }

  /** Rebuilding the keys twice is rebuilding them once. */
  lemma RebuildIdempotent(scans: map<nat, Scan>)
    ensures RebuildKeys(RebuildKeys(scans)) == RebuildKeys(scans)
  {
    forall id | id in scans ensures RebuildKeys(RebuildKeys(scans))[id] == RebuildKeys(scans)[id] {
      assert KeyOf(RebuildKeys(scans)[id]) == KeyOf(scans[id]);
    }
  }

  /** A crash after any prefix of a run is repaired by the next complete run. */
  lemma {:induction false} ResumeAfterCrash(db: Database, survived: nat)
    ensures Migrated(Interrupted(db, survived)) == Migrated(db)
    decreases LATEST - Current(db.versions)
  {
    var c := Current(db.versions);
    var plan := Plan(c);
    MaxExact(db.versions, LATEST);
    if c < LATEST && survived > 0 {
      CurrentAfterSave(db.versions);
      var next := Perform(db, Save(c + 1));
      if c + 1 == KEY_REBUILD {
        CrashAroundTransform(db, survived);
      } else {
        assert plan == [Save(c + 1)] + Plan(c + 1);
        ResumeAfterCrash(next, survived - 1);
        PrefixOfPlan(db, [Save(c + 1)], Plan(c + 1), survived);
      }
    } else {
      assert plan[..0] == [];
    }
  }

  /** The run splits at `head`. */
  lemma PrefixOfPlan(db: Database, head: seq<Write>, tail: seq<Write>, survived: nat)
    requires |head| == 1 && survived > 0
    ensures PerformAll(db, head + tail) == PerformAll(Perform(db, head[0]), tail)
    ensures survived <= |head + tail| ==>
      PerformAll(db, (head + tail)[..survived]) == PerformAll(Perform(db, head[0]), tail[..survived - 1])
  {
    assert (head + tail)[1..] == tail;
    if survived <= |head + tail| {
      assert (head + tail)[..survived][1..] == tail[..survived - 1];
    }
  }

  /** Version 6 is two writes; a crash between them repeats the transform. */
  lemma CrashAroundTransform(db: Database, survived: nat)
    requires survived > 0 && Current(db.versions) + 1 == KEY_REBUILD
    ensures Migrated(Interrupted(db, survived)) == Migrated(db)
    decreases LATEST - Current(db.versions), 0
  {
    var c := Current(db.versions);
    var rebuilt := Perform(db, Transform(c + 1));
    var rest := [Save(c + 1)] + Plan(c + 1);
    assert Plan(c) == [Transform(c + 1)] + rest;
    PrefixOfPlan(db, [Transform(c + 1)], rest, survived);
    RebuildIdempotent(db.scans);
    assert Perform(rebuilt, Transform(c + 1)) == rebuilt;
    PrefixOfPlan(rebuilt, [Transform(c + 1)], rest, 1);
    assert Migrated(rebuilt) == Migrated(db);
    if survived > 1 {
      CurrentAfterSave(db.versions);
      var next := Perform(rebuilt, Save(c + 1));
      PrefixOfPlan(rebuilt, [Save(c + 1)], Plan(c + 1), survived - 1);
      ResumeAfterCrash(next, survived - 2);
      assert Plan(c + 1) == [Save(c + 2)] + Plan(c + 2);
    } else {
      assert rest[..0] == [];
    }
  }

  /** Any number of interrupted runs followed by a complete one leaves the same rows and the
      same versions as a single complete run. */
  lemma {:induction false} CrashSafe(db: Database, crashes: seq<nat>)
    ensures Migrated(AfterCrashes(db, crashes)) == Migrated(db)
    decreases crashes
  {
    if crashes != [] {
      CrashSafe(Interrupted(db, crashes[0]), crashes[1..]);
      ResumeAfterCrash(db, crashes[0]);
    }
  }

  // ----- What a complete run leaves -----------------------------------------------------

  predicate KeysRight(scans: map<nat, Scan>) {
    forall id :: id in scans ==> scans[id].accountUid == KeyOf(scans[id])
  }

  predicate OnlyKeysChanged(before: map<nat, Scan>, after: map<nat, Scan>) {
    before.Keys == after.Keys && forall id :: id in before ==> after[id] == before[id].(accountUid := after[id].accountUid)
  }

  lemma {:induction false} PlanEffect(db: Database, c: nat)
    requires c <= LATEST
    ensures var after := PerformAll(db, Plan(c));
      && after.scans == (if c < KEY_REBUILD then RebuildKeys(db.scans) else db.scans)
      && (forall v :: v in after.versions <==> v in db.versions || c < v <= LATEST)
    decreases LATEST - c
  {
    if c < LATEST {
      var rest := [Save(c + 1)] + Plan(c + 1);
      var mid := if c + 1 == KEY_REBUILD then Perform(db, Transform(c + 1)) else db;
      PlanEffect(Perform(mid, Save(c + 1)), c + 1);
      PrefixOfPlan(mid, [Save(c + 1)], Plan(c + 1), 1);
      if c + 1 == KEY_REBUILD {
        assert Plan(c) == [Transform(c + 1)] + rest;
        PrefixOfPlan(db, [Transform(c + 1)], rest, 1);
      } else {
        assert Plan(c) == rest;
      }
    }
  }

  /** A complete run from before version 6 leaves every key equal to the key function and
      touches no other column; from version 6 on it leaves the rows alone. */
  lemma CompleteRun(db: Database)
    ensures var after := Migrated(db);
      && OnlyKeysChanged(db.scans, after.scans)
      && (Current(db.versions) < 6 ==> KeysRight(after.scans))
      && (Current(db.versions) >= 6 ==> after.scans == db.scans)
      && (forall v :: v in after.versions <==> v in db.versions || Current(db.versions) < v <= 7)
      && Current(after.versions) == 7
  {
    MaxExact(db.versions, LATEST);
    PlanEffect(db, Current(db.versions));
    MaxExact(Migrated(db).versions, LATEST);
  }

  /** After a complete run from before version 6 the key of every row is account, mailbox and UID,
      with nothing for a missing mailbox. */
  lemma RebuiltKeys(db: Database, id: nat)
    requires Current(db.versions) < 6 && id in db.scans
    ensures id in Migrated(db).scans
    ensures var row := Migrated(db).scans[id];
      && row.account == db.scans[id].account && row.mailbox == db.scans[id].mailbox && row.uid == db.scans[id].uid
      && match row.mailbox
         case Named(x) => row.accountUid == MakeAccountUID(row.account, x, row.uid)
         case Null => row.accountUid == MakeAccountUID(row.account, "", row.uid)
  {
    CompleteRun(db);
  }

  /** So rows of a colon-free account in different mailboxes have different keys. */
  lemma MailboxesApart(db: Database, i: nat, j: nat, x: string, y: string)
    requires Current(db.versions) < 6 && i in db.scans && j in db.scans
    requires db.scans[i].mailbox == Named(x) && db.scans[j].mailbox == Named(y) && x != y
    requires ':' !in db.scans[i].account && ':' !in db.scans[j].account
    ensures i in Migrated(db).scans && j in Migrated(db).scans
    ensures Migrated(db).scans[i].accountUid != Migrated(db).scans[j].accountUid
  {
    RebuiltKeys(db, i);
    RebuiltKeys(db, j);
    var a, b := Migrated(db).scans[i], Migrated(db).scans[j];
    if a.accountUid == b.accountUid { KeyInjective(a.account, x, a.uid, b.account, y, b.uid); }
  }

  /** The current version is the highest one recorded, none counting as 0 and later programs'
      versions as the latest known. */
  lemma CurrentExact(versions: set<nat>)
    ensures forall v :: v in versions && v <= 7 ==> v <= Current(versions)
    ensures Current(versions) <= 7
    ensures 0 < Current(versions) < 7 ==> Current(versions) in versions && forall v :: v in versions ==> v <= Current(versions)
    ensures Current(versions) == 7 ==> exists v :: v in versions && v >= 7
  {
    MaxExact(versions, LATEST);
  }

  // ----- The code ---------------------------------------------------------------------

  lemma {:induction false} OneMore(db: Database, plan: seq<Write>, k: nat)
    requires k < |plan|
    ensures PerformAll(db, plan[..k + 1]) == Perform(PerformAll(db, plan[..k]), plan[k])
    decreases k
  {
    if k == 0 {
      assert plan[..1][1..] == [] && plan[..0] == [];
    } else {
      OneMore(Perform(db, plan[0]), plan[1..], k - 1);
      assert plan[..k + 1][1..] == plan[1..][..k] && plan[..k][1..] == plan[1..][..k - 1];
    }
  }

  /** `done` writes of `plan` have led from `start` to `now`, and `rest` is left. */
  ghost predicate Reached(start: Database, plan: seq<Write>, done: nat, rest: seq<Write>, now: Database) {
    done <= |plan| && plan[done..] == rest && now == PerformAll(start, plan[..done])
  }

  lemma Advance(start: Database, plan: seq<Write>, done: nat, w: Write, rest: seq<Write>, now: Database)
    requires Reached(start, plan, done, [w] + rest, now)
    ensures Reached(start, plan, done + 1, rest, Perform(now, w))
  {
    assert plan[done] == plan[done..][0] == w;
    OneMore(start, plan, done);
    assert plan[done + 1..] == plan[done..][1..] == rest;
  }

  lemma Stopped(start: Database, done: nat, rest: seq<Write>, now: Database, survived: nat)
    requires Reached(start, Plan(Current(start.versions)), done, rest, now)
    requires survived == done || (rest == [] && done <= survived)
    ensures now == Interrupted(start, survived)
    ensures survived >= |Plan(Current(start.versions))| <==> rest == []
  {
    var plan := Plan(Current(start.versions));
    assert |rest| == |plan| - done;
    if rest == [] {
      assert plan[..done] == plan;
    }
  }

  class Store {
    var db: Database

    constructor (db: Database)
      ensures this.db == db
    {
      this.db := db;
    }

    /** One turn of the version loop: the transform, if the version has one, then the version
        row. `budget` is how many more writes go through. */
    method ApplyVersion(v: nat, budget: nat, ghost start: Database, ghost plan: seq<Write>, ghost done: nat)
      returns (ok: bool, left: nat, ghost rest: seq<Write>, ghost done': nat)
      requires 1 <= v <= LATEST && Reached(start, plan, done, Plan(v - 1), db)
      modifies this
      ensures done' + left == done + budget && Reached(start, plan, done', rest, db)
      ensures ok ==> rest == Plan(v)
      ensures !ok ==> left == 0 && rest != []
    {
      left, rest, done' := budget, [Save(v)] + Plan(v), done;
      if v == KEY_REBUILD {
        assert Plan(v - 1) == [Transform(v)] + rest;
        if left == 0 { return false, 0, Plan(v - 1), done; }
        Advance(start, plan, done, Transform(v), rest, db);
        db := db.(scans := RebuildKeys(db.scans));
        left, done' := left - 1, done + 1;
      } else {
        assert Plan(v - 1) == rest;
      }
      if left == 0 { return false, 0, rest, done'; }
      Advance(start, plan, done', Save(v), Plan(v), db);
      db := db.(versions := db.versions + {v});
      return true, left - 1, Plan(v), done' + 1;
    }

    /** Migrate, with each write free to fail: `survived` says how many writes go through. */
    method Migrate(survived: nat) returns (ok: bool)
      modifies this
      ensures db == Interrupted(old(db), survived)
      ensures ok <==> survived >= |Plan(Current(old(db).versions))|
    {
      ghost var start, plan := db, Plan(Current(db.versions));
      MaxExact(db.versions, LATEST);
      var current: nat, budget: nat := Current(db.versions), survived;
      ghost var done: nat, rest := 0, plan;
      assert Reached(start, plan, done, rest, db) by { assert plan[..0] == [] && plan[0..] == plan; }
      for v := 1 to LATEST + 1
        invariant done + budget == survived && v - 1 <= current <= LATEST
        invariant rest == Plan(current) && Reached(start, plan, done, rest, db)
      {
        if v > current {
          ok, budget, rest, done := ApplyVersion(v, budget, start, plan, done);
          if !ok {
            Stopped(start, done, rest, db, survived);
            return;
          }
          current := v;
        }
      }
      Stopped(start, done, rest, db, survived);
      return true;
    }
  }
}
