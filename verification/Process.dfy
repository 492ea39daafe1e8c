/**
 One message through the pipeline: which rows `process` commits, which IMAP commands it
 issues and in what order, and how the two agree afterwards. Database writes and IMAP
 commands fail nondeterministically, and a panic may strike at any stage.
 */
module Process {
  import opened Keys
  import opened ImapActions
  import opened Verdict

  datatype Status = INBOX | QUARANTINED | DELETED

  datatype Source = Live | Backfill

  datatype Row = Row(account: string, accountUid: string, mailbox: string, uid: nat, status: Status, source: Source)

  datatype AuditAction = ImapFail | QuarDesync | Decided(decision: Decision) | Backfilled

  datatype Audit = Audit(row: nat, action: AuditAction)

  /** What the outside world sees, in order. `Acting` stands for any number of IMAP commands. */
  datatype Event = SlotTaken | SlotReturned | Committed | Acting(decision: Decision)

  datatype Whitelist = NotListed | Listed(bypass: bool)

  /** The stage at which a panic strikes: before any row is written; after the row and before
      the IMAP action; during the action, whose result is lost; or after the action and what
      the row needs because of it. */
  datatype Panic = NoPanic | BeforeRow | AfterRow | DuringAction | AfterAction

  /** What the message turns out to be. */
  datatype Facts = Facts(panic: Panic, parses: bool, blocklisted: bool, whitelist: Whitelist, authAligned: bool, verdict: Decision)

  /** A message by its coordinates at the source. */
  datatype Message = Message(account: string, mailbox: string, uid: nat)

  function From(m: Message): Location { Location(m.mailbox, m.uid) }

  predicate Bypassed(f: Facts) {
    !f.panic.BeforeRow? && f.parses && !f.blocklisted && f.whitelist == Listed(true) && f.authAligned
  }

  /** The decision the pipeline acts on. */
  function DecisionOf(f: Facts): Decision {
    if f.panic.BeforeRow? || !f.parses || f.blocklisted then Quarantine
    else if f.whitelist.Listed? then Pass
    else f.verdict
  }

  /** The row is written by a plain INSERT. */
  predicate Inserts(f: Facts) {
    f.panic.BeforeRow? || !f.parses || f.blocklisted || Bypassed(f)
  }

  predicate Late(p: Panic) { p.AfterRow? || p.DuringAction? || p.AfterAction? }

  function StatusOf(d: Decision): Status {
    match d case Delete => DELETED case Quarantine => QUARANTINED case _ => INBOX
  }

  function NewRow(m: Message, status: Status, source: Source): Row {
    Row(m.account, MakeAccountUID(m.account, m.mailbox, m.uid), m.mailbox, m.uid, status, source)
  }

  // ----- Keys -------------------------------------------------------------------------

  predicate SameKey(r: Row, accountUid: string, uid: nat) {
    r.accountUid == accountUid && r.uid == uid
  }

  /** The row has the key of the message at its source. */
  predicate Keyed(r: Row, m: Message) {
    SameKey(r, MakeAccountUID(m.account, m.mailbox, m.uid), m.uid)
  }

  /** The row has the key of the message at its place in quarantine. */
  predicate AtNewPlace(r: Row, m: Message, quarantine: string, newUID: nat) {
    SameKey(r, MakeAccountUID(m.account, quarantine, newUID), newUID)
  }

  /** The unique index on (account_uid, imap_uid). */
  predicate UniqueKeys(rows: map<nat, Row>) {
    forall i, j :: i in rows && j in rows && SameKey(rows[i], rows[j].accountUid, rows[j].uid) ==> i == j
  }

  predicate KeyTaken(rows: map<nat, Row>, m: Message) {
    exists i :: i in rows && Keyed(rows[i], m)
  }

  /** No row but `id` has the key of the message. */
  predicate SoleKey(rows: map<nat, Row>, id: nat, m: Message) {
    forall i :: i in rows && i != id ==> !Keyed(rows[i], m)
  }

  /** Row `id` has the key of the message, at the source or where the server says it is now, and
      no other row has the key at the source. */
  predicate OwnsKey(rows: map<nat, Row>, id: nat, m: Message, quarantine: string, newUID: nat) {
    && id in rows && SoleKey(rows, id, m)
    && (Keyed(rows[id], m) <==> !(newUID > 0 && AtNewPlace(rows[id], m, quarantine, newUID)))
  }

  /** No row claims the place that the server gave the message in quarantine. */
  predicate PlaceFree(rows: map<nat, Row>, m: Message, quarantine: string, newUID: nat) {
    forall i :: i in rows ==> !AtNewPlace(rows[i], m, quarantine, newUID)
  }

  /** A row that already has the key of the message has its coordinates too. */
  predicate KnownAtSource(rows: map<nat, Row>, m: Message) {
    forall i :: i in rows && Keyed(rows[i], m) ==> rows[i].mailbox == m.mailbox
  }

  /** No write of a run meets a key that is taken. */
  predicate NoConflict(rows: map<nat, Row>, f: Facts, m: Message, quarantine: string, newUID: nat) {
    (Inserts(f) ==> !KeyTaken(rows, m)) && (newUID > 0 ==> PlaceFree(rows, m, quarantine, newUID))
  }

  /** A row that follows its message to another place gives up the source key. */
  lemma NewPlaceIsNotSource(r: Row, m: Message, quarantine: string, newUID: nat)
    requires AtNewPlace(r, m, quarantine, newUID) && Location(quarantine, newUID) != From(m)
    ensures !Keyed(r, m)
  {
    SameKeyExact(m.account, m.mailbox, m.uid, m.account, quarantine, newUID);
    assert (m.account + ":" + m.mailbox)[|m.account| + 1..] == m.mailbox;
    assert (m.account + ":" + quarantine)[|m.account| + 1..] == quarantine;
  }

  // ----- Agreement ------------------------------------------------------------------

  /** What a run starts from or ends with. */
  datatype View = View(rows: map<nat, Row>, audits: seq<Audit>, server: Server, faults: nat, failedChecks: nat, cutOff: nat,
                       lastMove: Answer)

  /** The row says quarantined and the message is: it left the source for the quarantine
      folder, and the row's UID and key name its new place if the server told it (`newUID`),
      else still its old one. */
  ghost predicate QuarantineAgrees(r: Row, s: Server, t: Server, m: Message, quarantine: string, newUID: nat) {
    && r.status.QUARANTINED? && r.mailbox == quarantine && From(m) !in t.messages
    && (if newUID > 0 then AtNewPlace(r, m, quarantine, newUID) else Keyed(r, m))
    && (newUID > 0 ==> From(m) in s.messages)
    && (From(m) in s.messages ==>
          exists uid: nat :: Relocated(s, t, From(m), Location(quarantine, uid)) && (newUID > 0 ==> uid == newUID))
  }

  /** The row says inbox at the source coordinates, and a new IMAP_FAIL entry says why. */
  predicate RevertAgrees(id: nat, r: Row, before: seq<Audit>, after: seq<Audit>, m: Message) {
    && r.status.INBOX? && r.mailbox == m.mailbox && Keyed(r, m)
    && before <= after && Audit(id, ImapFail) in after[|before|..]
  }

  /** How row, mailbox and audit log agree after the decision `d`. */
  ghost predicate Settled(d: Decision, id: nat, m: Message, quarantine: string, newUID: nat, a: View, b: View)
    requires id in b.rows
  {
    var r, from := b.rows[id], From(m);
    match d
    case Quarantine =>
      || QuarantineAgrees(r, a.server, b.server, m, quarantine, newUID)
      || (RevertAgrees(id, r, a.audits, b.audits, m) && b.faults > a.faults &&
          (from in a.server.messages ==> from in b.server.messages) &&
          (b.failedChecks == a.failedChecks ==> from in b.server.messages))
    case Delete =>
      || (r.status.DELETED? && from !in b.server.messages)
      || (RevertAgrees(id, r, a.audits, b.audits, m) && b.faults > a.faults &&
          (from in a.server.messages ==> from in b.server.messages))
    case Flag =>
      && r.status.INBOX? && b.server.messages == a.server.messages
      && (from in b.server.flagged || (RevertAgrees(id, r, a.audits, b.audits, m) && b.faults > a.faults))
    case Pass => r.status.INBOX? && b.server == a.server
  }

  /** An action that the server carried out and that was reported as failed: a move or an expunge
      was cut off after it acted, and the row went back to the inbox. */
  predicate CutOff(d: Decision, id: nat, m: Message, a: View, b: View)
    requires id in b.rows
  {
    (d.Quarantine? || d.Delete?) && b.rows[id].status.INBOX? && From(m) in a.server.messages && b.cutOff > a.cutOff
  }

  /** The row says inbox, and the message is gone from there; for a quarantine it takes a failed
      existence check too. */
  predicate Orphaned(d: Decision, id: nat, m: Message, a: View, b: View)
    requires id in b.rows
  {
    && RevertAgrees(id, b.rows[id], a.audits, b.audits, m) && From(m) in a.server.messages && From(m) !in b.server.messages
    && (d.Quarantine? ==> b.failedChecks > a.failedChecks)
  }

  /** Row, mailbox and audit log agree exactly if no action was cut off after it acted; if one
      was, the row is orphaned. */
  ghost predicate SettledExactly(d: Decision, id: nat, m: Message, quarantine: string, newUID: nat, a: View, b: View)
    requires id in b.rows
  {
    && (Settled(d, id, m, quarantine, newUID, a, b) <==> !CutOff(d, id, m, a, b))
    && (CutOff(d, id, m, a, b) ==> Orphaned(d, id, m, a, b))
  }

  /** A message that is gone from its source, with a row that names its new place as far as it
      is known, is quarantined in agreement. */
  lemma MovedAgrees(r: Row, s: Server, t: Server, m: Message, quarantine: string, newUID: nat)
    requires ImapActions.Valid(s) && MovedOrNot(s, t, From(m), quarantine) && From(m) !in t.messages
    requires r.status.QUARANTINED? && r.mailbox == quarantine
    requires if newUID > 0 then AtNewPlace(r, m, quarantine, newUID) else Keyed(r, m)
    requires newUID > 0 ==> From(m) in s.messages && At(t, Location(quarantine, newUID), s.messages[From(m)])
    ensures QuarantineAgrees(r, s, t, m, quarantine, newUID)
  {
    if From(m) in s.messages {
      var uid := LeftMeansRelocated(s, t, From(m), quarantine);
      assert Relocated(s, t, From(m), Location(quarantine, uid)) && (newUID > 0 ==> uid == newUID);
    }
  }

  // ----- Frames ---------------------------------------------------------------------

  /** All that acting on `d` may do to the server. */
  ghost predicate ServerFrame(d: Decision, s: Server, t: Server, m: Message, quarantine: string) {
    match d
    case Quarantine => MovedOrNot(s, t, From(m), quarantine)
    case Delete => DeletedOrNot(s, t, From(m))
    case Flag => t == s || t == s.(flagged := s.flagged + {From(m)})
    case Pass => t == s
  }

  /** Only row `id` is added or changed, the audit log only grows. */
  predicate OnlyRow(id: nat, a: View, b: View) {
    && a.audits <= b.audits && a.faults <= b.faults && a.failedChecks <= b.failedChecks && a.cutOff <= b.cutOff
    && (forall i :: i in a.rows ==> i in b.rows && (i != id ==> b.rows[i] == a.rows[i]))
    && (forall i :: i in b.rows && i !in a.rows ==> i == id)
  }

  /** The row of a message at its source does not claim its place in quarantine. */
  lemma SourceRowLeavesPlaceFree(rows: map<nat, Row>, id: nat, r: Row, m: Message, quarantine: string, newUID: nat)
    requires PlaceFree(rows, m, quarantine, newUID) && Keyed(r, m) && Location(quarantine, newUID) != From(m)
    ensures PlaceFree(rows[id := r], m, quarantine, newUID)
  {
    if AtNewPlace(r, m, quarantine, newUID) { NewPlaceIsNotSource(r, m, quarantine, newUID); }
  }

  /** Rows a run added or changed. */
  predicate Touched(before: map<nat, Row>, after: map<nat, Row>, i: nat) {
    i in after && (i !in before || after[i] != before[i])
  }

  // ----- What a path through process leaves ----------------------------------------------

  /** The circumstances of one run: the message, where it came from, the stage at which a panic
      strikes, and the quarantine folder. */
  datatype Case = Case(m: Message, source: Source, panic: Panic, quarantine: string)

  /** The decision `d` has been recorded and acted on as far as `work` says, from `a` to `b`. */
  ghost predicate Done(c: Case, d: Decision, id: nat, newUID: nat, work: seq<Event>, a: View, b: View) {
    && IsWork(work, d) && OnlyRow(id, a, b) && ServerFrame(d, a.server, b.server, c.m, c.quarantine)
    && (work == [] ==> b == a && newUID == 0)
    && (work != [] ==> OwnsKey(b.rows, id, c.m, c.quarantine, newUID))
    && (c.source.Backfill? ==> b.server == a.server && |work| <= 1 && (work != [] ==> b.rows[id].status == INBOX))
    && (c.panic.AfterRow? ==> b.server == a.server)
    && (c.panic.AfterRow? || c.panic.DuringAction? ==> c.source.Live? && work != [] ==> b.rows[id].status == StatusOf(d))
    && (newUID > 0 ==> c.source.Live? && d.Quarantine? && !c.panic.AfterRow? && !c.panic.DuringAction?)
    && (newUID > 0 ==> From(c.m) in a.server.messages && From(c.m) !in b.server.messages)
    && (work != [] ==> |work| == if c.source.Live? && !d.Pass? && !c.panic.AfterRow? then 2 else 1)
    && (work != [] && d.Pass? ==> b.rows[id].status == INBOX)
    && (|work| == 2 && d.Quarantine? && !c.panic.DuringAction? ==> newUID == CopyUid(b))
  }

  /** The COPYUID that came with the latest move, 0 if there was none. */
  function CopyUid(v: View): nat {
    if v.lastMove.Answered? then v.lastMove.copyUid else 0
  }

  /** If no write failed, row, mailbox and audit log agree exactly if no action was cut off,
      unless a panic struck between the row and the end of the action. */
  ghost predicate Agreed(c: Case, d: Decision, id: nat, newUID: nat, a: View, b: View) {
    c.source.Live? && !c.panic.AfterRow? && !c.panic.DuringAction? && c.quarantine != "" && KnownAtSource(a.rows, c.m) &&
    (newUID > 0 ==> PlaceFree(a.rows, c.m, c.quarantine, newUID)) ==>
      id in b.rows && SettledExactly(d, id, c.m, c.quarantine, newUID, a, b)
  }

  /** A row has been written and nothing else done. */
  lemma RecordedOnly(c: Case, d: Decision, id: nat, r: Row, a: View, b: View)
    requires b == a.(rows := a.rows[id := r]) && Keyed(r, c.m) && SoleKey(b.rows, id, c.m)
    requires r.status == if c.source.Backfill? then INBOX else StatusOf(d)
    requires !(c.source.Live? && !d.Pass? && !c.panic.AfterRow?)
    ensures Done(c, d, id, 0, [Committed], a, b)
  {
  }

  /** A row has been written, and then the decision acted on. */
  lemma RecordedAndActed(c: Case, d: Decision, id: nat, r: Row, newUID: nat, a: View, b: View, e: View)
    requires b == a.(rows := a.rows[id := r]) && c.source.Live? && !c.panic.AfterRow?
    requires OnlyRow(id, b, e) && ServerFrame(d, b.server, e.server, c.m, c.quarantine)
    requires OwnsKey(e.rows, id, c.m, c.quarantine, newUID)
    requires r.status == StatusOf(d) && (c.panic.DuringAction? ==> e.rows == b.rows) && !d.Pass?
    requires d.Quarantine? && !c.panic.DuringAction? ==> newUID == CopyUid(e)
    requires newUID > 0 ==> d.Quarantine? && !c.panic.DuringAction? && From(c.m) in b.server.messages && From(c.m) !in e.server.messages
    ensures Done(c, d, id, newUID, [Committed, Acting(d)], a, e)
  {
  }

  /** Agreement since the row was written is agreement since before. */
  lemma AgreedSince(c: Case, d: Decision, id: nat, r: Row, newUID: nat, a: View, b: View, e: View)
    requires b == a.(rows := a.rows[id := r]) && Keyed(r, c.m) && (KnownAtSource(a.rows, c.m) ==> r.mailbox == c.m.mailbox)
    requires newUID > 0 ==> Location(c.quarantine, newUID) != From(c.m)
    requires Agreed(c, d, id, newUID, b, e)
    ensures Agreed(c, d, id, newUID, a, e)
  {
    if newUID > 0 && PlaceFree(a.rows, c.m, c.quarantine, newUID) {
      SourceRowLeavesPlaceFree(a.rows, id, r, c.m, c.quarantine, newUID);
    }
  }

  /** A further audit entry changes nothing of this. */
  lemma MoreAudits(c: Case, d: Decision, id: nat, newUID: nat, work: seq<Event>, a: View, b: View, e: View)
    requires Done(c, d, id, newUID, work, a, b) && work != [] && b.audits <= e.audits && e == b.(audits := e.audits)
    ensures Done(c, d, id, newUID, work, a, e)
    ensures Agreed(c, d, id, newUID, a, b) ==> Agreed(c, d, id, newUID, a, e)
  {
    assert forall x :: x in b.audits[|a.audits|..] ==> x in e.audits[|a.audits|..];
  }

  // ----- The recover handler after a late panic ------------------------------------------------

  /** The handler finds the key free only if the row has followed its message. */
  lemma KeyFreeExactly(c: Case, d: Decision, id: nat, newUID: nat, work: seq<Event>, a: View, b: View)
    requires Done(c, d, id, newUID, work, a, b) && work != []
    ensures KeyTaken(b.rows, c.m) <==> !(newUID > 0 && AtNewPlace(b.rows[id], c.m, c.quarantine, newUID))
  {
    if Keyed(b.rows[id], c.m) { assert KeyTaken(b.rows, c.m); }
  }

  /** All moves of a run and its handler amount to one. */
  lemma OneMoveInAll(c: Case, d: Decision, id: nat, newUID: nat, work: seq<Event>, a: View, b: View, t: Server)
    requires Done(c, d, id, newUID, work, a, b) && ImapActions.Valid(a.server)
    requires b.server == a.server || newUID > 0
    requires MovedOrNot(b.server, t, From(c.m), c.quarantine)
    ensures MovedOrNot(a.server, t, From(c.m), c.quarantine)
    ensures newUID > 0 ==> t == b.server
  {
    if newUID > 0 { MoveAgain(a.server, b.server, t, From(c.m), c.quarantine); }
  }

  /** What the handler adds leaves a row that has followed its message in agreement. */
  lemma AgreedStill(c: Case, id: nat, newUID: nat, second: nat, a: View, b: View, e: View)
    requires Agreed(c, Quarantine, id, newUID, a, b) && id in b.rows && !Keyed(b.rows[id], c.m)
    requires second != id && OnlyRow(second, b, e) && e.server == b.server
    ensures Agreed(c, Quarantine, id, newUID, a, e)
  {
  }

  /** Only rows `id` and `second` are added or changed, the audit log only grows. */
  predicate OnlyRows(id: nat, second: nat, a: View, b: View) {
    && a.audits <= b.audits
    && (forall i :: i in a.rows ==> i in b.rows && (i != id ==> b.rows[i] == a.rows[i]))
    && (forall i :: i in b.rows && i !in a.rows ==> i == id || i == second)
  }

  lemma HandlerAdds(id: nat, second: nat, a: View, b: View, e: View)
    requires OnlyRow(id, a, b) && OnlyRow(second, b, e) && second !in b.rows
    ensures OnlyRows(id, second, a, e)
    ensures forall i :: i in b.rows ==> i in e.rows && e.rows[i] == b.rows[i]
    ensures forall i :: i in e.rows && i !in b.rows ==> i == second
  {
  }

  // ----- What a whole run promises --------------------------------------------------------------

  /** What a run does, and what the recover handler does after it. */
  datatype Trace = Trace(id: nat, second: nat, newUID: nat, work: seq<Event>, recovered: seq<Event>)

  /** A backfill issues no IMAP command and leaves every row it touches in the inbox, wherever a
      panic strikes; and a new row has the source of the run unless it is a bypassed backfill. */
  ghost predicate Observes(c: Case, f: Facts, r: Trace, a: View, b: View) {
    && (c.source.Backfill? ==> b.server == a.server && |r.work| <= 1 && |r.recovered| <= 1)
    && (c.source.Backfill? ==> forall i :: Touched(a.rows, b.rows, i) ==> b.rows[i].status == INBOX)
    && (r.work != [] && r.id !in a.rows ==>
          r.id in b.rows &&
          (b.rows[r.id].source == c.source <==>
           c.source.Live? || !(f.parses && !f.blocklisted && f.whitelist == Listed(true) && f.authAligned)))
    && (r.recovered != [] ==> r.second in b.rows && b.rows[r.second].source == c.source)
  }

  /** Other rows, other messages and the audit log are left alone. */
  ghost predicate Contained(c: Case, f: Facts, r: Trace, a: View, b: View) {
    && OnlyRows(r.id, r.second, a, b)
    && (f.panic.BeforeRow? || r.recovered == [] ==> ServerFrame(DecisionOf(f), a.server, b.server, c.m, c.quarantine))
    && (r.recovered != [] ==> MovedOrNot(a.server, b.server, From(c.m), c.quarantine))
  }

  /** Row, mailbox and audit log agree exactly if no action was cut off after it acted, unless a
      panic strikes between the row and the end of the action; then the row keeps the status of
      the decision. */
  ghost predicate InAgreement(c: Case, f: Facts, r: Trace, a: View, b: View) {
    c.source.Live? && NoConflict(a.rows, f, c.m, c.quarantine, r.newUID) ==>
      && r.id in b.rows
      && (!f.panic.AfterRow? && !f.panic.DuringAction? && KnownAtSource(a.rows, c.m) && c.quarantine != "" ==>
            SettledExactly(DecisionOf(f), r.id, c.m, c.quarantine, r.newUID, a, b))
      && (f.panic.AfterRow? || f.panic.DuringAction? ==> b.rows[r.id].status == StatusOf(DecisionOf(f)))
      && (f.panic.AfterRow? ==> b.server == a.server)
  }

  /** A late panic leaves a second row exactly if the first one has followed its message into
      quarantine, which takes a live run, an action that was over, a COPYUID, and a committed
      update of the row. */
  predicate SecondRowExactly(c: Case, f: Facts, r: Trace, b: View) {
    Late(f.panic) ==>
      (r.recovered != [] <==>
       && c.source.Live? && f.panic.AfterAction? && DecisionOf(f).Quarantine? && r.newUID > 0
       && r.id in b.rows && AtNewPlace(b.rows[r.id], c.m, c.quarantine, r.newUID))
  }

  /** What a live run does is what the facts call for: quarantine for a panic before the row, an
      unparseable message and a blocklisted one, whatever the whitelist says; nothing for a
      whitelisted one, whatever the scanners say; else the scanners' decision. */
  predicate FollowsFacts(c: Case, f: Facts, r: Trace, a: View, b: View) {
    c.source.Live? && NoConflict(a.rows, f, c.m, c.quarantine, r.newUID) ==>
      if f.panic.BeforeRow? then
        r.recovered == [Committed, Acting(Quarantine)]
      else if !f.parses || f.blocklisted then
        r.work == if f.panic.AfterRow? then [Committed] else [Committed, Acting(Quarantine)]
      else if f.whitelist.Listed? then
        r.work == [Committed] && b.server == a.server && r.id in b.rows && b.rows[r.id].status == INBOX
      else
        r.work == if f.panic.AfterRow? || f.verdict.Pass? then [Committed] else [Committed, Acting(f.verdict)]
  }

  /** A scan that runs to its end writes the last audit entry: the decision, or that it was a
      backfill; a flag is noted as a pass. */
  predicate Audited(c: Case, f: Facts, r: Trace, b: View) {
    f.panic.NoPanic? && f.parses && !f.blocklisted && !(f.whitelist == Listed(true) && f.authAligned) ==>
      b.audits != [] && b.audits[|b.audits| - 1] ==
        Audit(r.id, if c.source.Backfill? then Backfilled
                    else if f.whitelist.Listed? || f.verdict.Flag? then Decided(Pass) else Decided(f.verdict))
  }

  /** The UID given to a moved message is the one the server answered with. */
  predicate UsesCopyUid(f: Facts, r: Trace, b: View) {
    || (r.recovered == [] && r.work == [Committed, Acting(Quarantine)] && !f.panic.DuringAction?)
    || (f.panic.BeforeRow? && r.recovered == [Committed, Acting(Quarantine)])
    ==> r.newUID == CopyUid(b)
  }

  /** That second row has the key of a place where the message is no longer. */
  predicate SecondRowIsStale(c: Case, f: Facts, r: Trace, b: View) {
    Late(f.panic) && r.recovered != [] && r.newUID > 0 ==>
      r.second != r.id && r.second in b.rows && Keyed(b.rows[r.second], c.m) && From(c.m) !in b.server.messages
  }

  /** What the branches of process leave, with or without failing writes. */
  ghost predicate Handled(c: Case, f: Facts, id: nat, newUID: nat, work: seq<Event>, a: View, b: View) {
    && Done(c, DecisionOf(f), id, newUID, work, a, b)
    && (id in b.rows && id !in a.rows ==> (b.rows[id].source == c.source <==> c.source.Live? || !Bypassed(f)))
  }

  /** What they leave if no write fails. */
  ghost predicate HandledCleanly(c: Case, f: Facts, id: nat, newUID: nat, work: seq<Event>, a: View, b: View) {
    && (Bypassed(f) ==> KeyTaken(b.rows, c.m))
    && ((Inserts(f) ==> !KeyTaken(a.rows, c.m)) ==> work != [])
    && (work != [] ==> Agreed(c, DecisionOf(f), id, newUID, a, b))
    && Audited(c, f, Trace(id, id, newUID, work, []), b)
  }

  /** What the handler leaves after a late panic. */
  ghost predicate Recovered(c: Case, r: Trace, a: View, b: View, e: View) {
    && OnlyRows(r.id, r.second, a, e) && r.second !in b.rows
    && (forall i :: i in b.rows ==> i in e.rows && e.rows[i] == b.rows[i])
    && (forall i :: i in e.rows && i !in b.rows ==> i == r.second)
    && IsWork(r.recovered, Quarantine)
    && (r.recovered == [] ==> e == b)
    && (r.recovered != [] ==> r.second in e.rows && e.rows[r.second].source == c.source)
    && (r.recovered != [] ==> MovedOrNot(a.server, e.server, From(c.m), c.quarantine))
    && (c.source.Backfill? ==> e.server == a.server && |r.recovered| <= 1)
    && (c.source.Backfill? && r.recovered != [] ==> e.rows[r.second].status == INBOX)
    && (r.recovered != [] && r.newUID > 0 ==> Keyed(e.rows[r.second], c.m) && e.server == b.server)
  }

  ghost predicate RecoveredCleanly(c: Case, d: Decision, r: Trace, a: View, b: View, e: View) {
    && (r.work != [] ==>
          (r.recovered != [] <==> r.newUID > 0 && r.id in e.rows && AtNewPlace(e.rows[r.id], c.m, c.quarantine, r.newUID)))
    && (KeyTaken(b.rows, c.m) ==> r.recovered == [])
    && (r.work != [] && Agreed(c, d, r.id, r.newUID, a, b) ==> Agreed(c, d, r.id, r.newUID, a, e))
  }

  /** A run that consists of the handler. */
  lemma HandlerRun(c: Case, f: Facts, id: nat, newUID: nat, recovered: seq<Event>, a: View, b: View)
    requires c.panic == f.panic && f.panic.BeforeRow? && Done(c, Quarantine, id, newUID, recovered, a, b) && id !in a.rows
    requires recovered != [] ==> b.rows[id].source == c.source
    ensures var r := Trace(id, id, newUID, [], recovered);
      Observes(c, f, r, a, b) && Contained(c, f, r, a, b) && UsesCopyUid(f, r, b)
  {
  }

  lemma HandlerRunCleanly(c: Case, f: Facts, id: nat, newUID: nat, recovered: seq<Event>, a: View, b: View)
    requires c.panic == f.panic && f.panic.BeforeRow? && Done(c, Quarantine, id, newUID, recovered, a, b)
    requires recovered != [] <==> !KeyTaken(a.rows, c.m)
    requires recovered != [] ==> Agreed(c, Quarantine, id, newUID, a, b)
    ensures var r := Trace(id, id, newUID, [], recovered); InAgreement(c, f, r, a, b) && FollowsFacts(c, f, r, a, b)
  {
  }

  lemma PlainRun(c: Case, f: Facts, id: nat, newUID: nat, work: seq<Event>, a: View, b: View)
    requires c.panic == f.panic && !f.panic.BeforeRow? && Handled(c, f, id, newUID, work, a, b)
    ensures var r := Trace(id, id, newUID, work, []);
      Observes(c, f, r, a, b) && Contained(c, f, r, a, b) && SecondRowIsStale(c, f, r, b) && UsesCopyUid(f, r, b)
  {
  }

  lemma PlainRunCleanly(c: Case, f: Facts, id: nat, newUID: nat, work: seq<Event>, a: View, b: View)
    requires c.panic == f.panic && !f.panic.BeforeRow? && Handled(c, f, id, newUID, work, a, b)
    requires HandledCleanly(c, f, id, newUID, work, a, b) && (Late(f.panic) ==> work == [] && !Bypassed(f))
    ensures var r := Trace(id, id, newUID, work, []);
      InAgreement(c, f, r, a, b) && SecondRowExactly(c, f, r, b) && FollowsFacts(c, f, r, a, b) && Audited(c, f, r, b)
  {
  }

  lemma RecoveredRun(c: Case, f: Facts, r: Trace, a: View, b: View, e: View)
    requires c.panic == f.panic && Late(f.panic) && (r.work != [] || Bypassed(f))
    requires Handled(c, f, r.id, r.newUID, r.work, a, b) && Recovered(c, r, a, b, e)
    ensures Observes(c, f, r, a, e) && Contained(c, f, r, a, e) && SecondRowIsStale(c, f, r, e) && UsesCopyUid(f, r, e)
  {
    forall i | c.source.Backfill? && Touched(a.rows, e.rows, i) ensures e.rows[i].status == INBOX {
      if i in b.rows { assert Touched(a.rows, b.rows, i); }
    }
  }

  lemma RecoveredRunCleanly(c: Case, f: Facts, r: Trace, a: View, b: View, e: View)
    requires c.panic == f.panic && Late(f.panic) && (r.work != [] || Bypassed(f))
    requires Handled(c, f, r.id, r.newUID, r.work, a, b) && Recovered(c, r, a, b, e)
    requires HandledCleanly(c, f, r.id, r.newUID, r.work, a, b) && RecoveredCleanly(c, DecisionOf(f), r, a, b, e)
    ensures InAgreement(c, f, r, a, e) && SecondRowExactly(c, f, r, e) && FollowsFacts(c, f, r, a, e)
  {
  }

  /** Whatever is done to the server, nothing is lost or duplicated unless it is a deletion. */
  lemma NothingLost(c: Case, f: Facts, r: Trace, a: View, b: View)
    requires Contained(c, f, r, a, b) && ImapActions.Valid(a.server) && !DecisionOf(f).Delete?
    ensures Identities(b.server) == Identities(a.server)
  {
    if r.recovered != [] || DecisionOf(f).Quarantine? {
      MovedOrNotValid(a.server, b.server, From(c.m), c.quarantine);
    }
  }

  // ----- Order of events ---------------------------------------------------------------

  predicate IsWork(work: seq<Event>, d: Decision) {
    work == [] || work == [Committed] || work == [Committed, Acting(d)]
  }

  /** Every IMAP command comes after a committed row. */
  predicate CommitFirst(events: seq<Event>) {
    forall i :: 0 <= i < |events| && events[i].Acting? ==> exists j :: 0 <= j < i && events[j].Committed?
  }

  lemma CommitFirstConcat(a: seq<Event>, b: seq<Event>)
    requires CommitFirst(a) && CommitFirst(b)
    ensures CommitFirst(a + b)
  {
    forall i | 0 <= i < |a + b| && (a + b)[i].Acting? ensures exists j :: 0 <= j < i && (a + b)[j].Committed? {
      if i < |a| {
        var j :| 0 <= j < i && a[j].Committed?;
        assert (a + b)[j].Committed?;
      } else {
        var j :| 0 <= j < i - |a| && b[j].Committed?;
        assert (a + b)[|a| + j].Committed?;
      }
    }
  }

  lemma WorkCommitsFirst(first: seq<Event>, d: Decision, second: seq<Event>)
    requires IsWork(first, d) && IsWork(second, Quarantine)
    ensures CommitFirst([SlotTaken] + first + [SlotReturned] + second)
  {
    assert CommitFirst(first) by {
      if first == [Committed, Acting(d)] { assert first[0].Committed?; }
    }
    assert CommitFirst(second) by {
      if second == [Committed, Acting(Quarantine)] { assert second[0].Committed?; }
    }
    CommitFirstConcat([SlotTaken], first);
    CommitFirstConcat([SlotTaken] + first, [SlotReturned]);
    CommitFirstConcat([SlotTaken] + first + [SlotReturned], second);
  }

  lemma Appended(log: seq<Event>, x: seq<Event>, y: seq<Event>, z: seq<Event>)
    ensures log + [SlotTaken] + x + y + z == log + ([SlotTaken] + x + y + z)
    ensures x == [] ==> log + [SlotTaken] + y + z == log + ([SlotTaken] + x + y + z)
  {
  }

  class Pipeline {
    const actions: Actions
    const maxSlots: nat
    var slots: nat
    var rows: map<nat, Row>
    var nextRow: nat
    var audits: seq<Audit>
    var dbFaults: nat  // statements and transactions that failed so far, key conflicts aside
    var log: seq<Event>

    constructor (actions: Actions, maxSlots: nat)
      ensures this.actions == actions && this.maxSlots == maxSlots && slots == 0
      ensures rows == map[] && audits == [] && dbFaults == 0 && log == []
    {
      this.actions, this.maxSlots, slots := actions, maxSlots, 0;
      rows, nextRow, audits, dbFaults, log := map[], 0, [], 0, [];
    }

    predicate Good()
      reads this, actions
    {
      && UniqueKeys(rows)
      && (forall id :: id in rows ==> id < nextRow)
      && ImapActions.Valid(actions.server)
    }

    ghost function Now(): View
      reads this, actions
    {
      View(rows, audits, actions.server, actions.faults, actions.failedChecks, actions.cutOff, actions.lastMove)
    }

    // ----- Database -----------------------------------------------------------------

    /** A statement or a transaction either succeeds or leaves everything as it was. */
    method Commits() returns (ok: bool)
      modifies this`dbFaults
      ensures dbFaults == old(dbFaults) + if ok then 0 else 1
    {
      ok := *;
      if !ok { dbFaults := dbFaults + 1; }
    }

    /** INSERT; it fails if the key is taken. */
    method Create(m: Message, status: Status, source: Source) returns (ok: bool, id: nat)
      requires Good()
      modifies this`rows, this`nextRow, this`dbFaults, this`log
      ensures Good() && id !in old(rows)
      ensures ok ==> !KeyTaken(old(rows), m) && rows == old(rows)[id := NewRow(m, status, source)]
      ensures ok ==> SoleKey(rows, id, m) && dbFaults == old(dbFaults) && log == old(log) + [Committed]
      ensures !ok ==> rows == old(rows) && log == old(log)
      ensures dbFaults >= old(dbFaults) && (dbFaults == old(dbFaults) ==> (ok <==> !KeyTaken(old(rows), m)))
    {
      id := nextRow;
      if exists i :: i in rows && Keyed(rows[i], m) { return false, id; }
      ok := Commits();
      if ok {
        rows, nextRow, log := rows[id := NewRow(m, status, source)], nextRow + 1, log + [Committed];
      }
    }

    /** INSERT ... ON CONFLICT: an existing row keeps its coordinates and its source. */
    method Upsert(m: Message, status: Status, source: Source) returns (ok: bool, id: nat)
      requires Good()
      modifies this`rows, this`nextRow, this`dbFaults, this`log
      ensures Good() && dbFaults == old(dbFaults) + if ok then 0 else 1
      ensures ok ==> id in old(rows) ==> Keyed(old(rows)[id], m)
      ensures ok ==> rows == old(rows)[id := if id in old(rows) then old(rows)[id].(status := status) else NewRow(m, status, source)]
      ensures ok ==> Keyed(rows[id], m) && SoleKey(rows, id, m) && log == old(log) + [Committed]
      ensures !ok ==> rows == old(rows) && log == old(log)
    {
      id := nextRow;
      ok := Commits();
      if ok {
        if i :| i in rows && Keyed(rows[i], m) {
          id := i;
          rows := rows[i := rows[i].(status := status)];
        } else {
          rows, nextRow := rows[id := NewRow(m, status, source)], nextRow + 1;
        }
        log := log + [Committed];
      }
    }

    method AddAudit(a: Audit)
      modifies this`audits, this`dbFaults
      ensures (audits == old(audits) + [a] && dbFaults == old(dbFaults)) ||
              (audits == old(audits) && dbFaults == old(dbFaults) + 1)
    {
      var ok := Commits();
      if ok { audits := audits + [a]; }
    }

    /** After a failed IMAP action: back to INBOX, with an IMAP_FAIL entry. The transaction
        ignores the errors of its two statements, so either may fail on its own. */
    method Revert(id: nat)
      requires Good() && id in rows
      modifies this`rows, this`audits, this`dbFaults
      ensures Good() && dbFaults >= old(dbFaults)
      ensures dbFaults == old(dbFaults) ==>
        rows == old(rows)[id := old(rows)[id].(status := INBOX)] && audits == old(audits) + [Audit(id, ImapFail)]
      ensures rows == old(rows) || rows == old(rows)[id := old(rows)[id].(status := INBOX)]
      ensures audits == old(audits) || audits == old(audits) + [Audit(id, ImapFail)]
    {
      var updated := Commits();
      var noted := Commits();
      var committed := Commits();
      if committed && updated { rows := rows[id := rows[id].(status := INBOX)]; }
      if committed && noted { audits := audits + [Audit(id, ImapFail)]; }
    }

    /** updateQuarantineUID: point the row at the message's new place. */
    method UpdateQuarantineUID(id: nat, account: string, newUID: nat, newMailbox: string) returns (ok: bool)
      requires Good() && id in rows
      modifies this`rows, this`dbFaults
      ensures Good() && dbFaults >= old(dbFaults)
      ensures newMailbox == "" ==> ok && rows == old(rows)
      ensures ok && newMailbox != "" ==> rows == old(rows)[id :=
        if newUID > 0
        then old(rows)[id].(mailbox := newMailbox, uid := newUID, accountUid := MakeAccountUID(account, newMailbox, newUID))
        else old(rows)[id].(mailbox := newMailbox)]
      ensures !ok ==> rows == old(rows)
      ensures !ok && dbFaults == old(dbFaults) ==>
        newUID > 0 && exists i :: i in rows && SameKey(rows[i], MakeAccountUID(account, newMailbox, newUID), newUID)
    {
      if newMailbox == "" { return true; }
      var updated := rows[id].(mailbox := newMailbox);
      if newUID > 0 {
        updated := updated.(uid := newUID, accountUid := MakeAccountUID(account, newMailbox, newUID));
        if exists i :: i in rows && i != id && SameKey(rows[i], updated.accountUid, newUID) { return false; }
      }
      ok := Commits();
      if ok { rows := rows[id := updated]; }
    }

    // ----- IMAP ---------------------------------------------------------------------

    /** takeIMAPAction, quarantine branch: four rounds of MoveToQuarantine. */
    method TakeQuarantine(m: Message) returns (qUid: nat, qMailbox: string, ok: bool)
      requires ImapActions.Valid(actions.server)
      modifies this`log, actions
      ensures ImapActions.Valid(actions.server) && log == old(log) + [Acting(Quarantine)]
      ensures MovedOrNot(old(actions.server), actions.server, From(m), actions.quarantine)
      ensures actions.faults >= old(actions.faults) && actions.failedChecks >= old(actions.failedChecks)
      ensures actions.cutOff >= old(actions.cutOff) && (!ok ==> actions.faults > old(actions.faults))
      ensures !ok && From(m) in old(actions.server.messages) ==>
        (From(m) !in actions.server.messages <==> actions.cutOff > old(actions.cutOff))
      ensures qUid == (if actions.lastMove.Answered? then actions.lastMove.copyUid else 0)
      ensures actions.cancels >= old(actions.cancels)
      ensures !ok ==> actions.faults >= old(actions.faults) + 12 || actions.cancels > old(actions.cancels)
      ensures qMailbox == if ok then actions.quarantine else ""
      ensures ok ==> From(m) !in actions.server.messages
      ensures qUid > 0 ==> ok && From(m) in old(actions.server.messages)
      ensures qUid > 0 ==> At(actions.server, Location(actions.quarantine, qUid), old(actions.server.messages)[From(m)])
      ensures !ok && actions.failedChecks == old(actions.failedChecks) ==> From(m) in actions.server.messages
    {
      var from := From(m);
      log := log + [Acting(Quarantine)];
      ok := false;
      for i := 0 to 4
        invariant ImapActions.Valid(actions.server) && log == old(log) + [Acting(Quarantine)]
        invariant MovedOrNot(old(actions.server), actions.server, from, actions.quarantine)
        invariant actions.faults >= old(actions.faults) && actions.failedChecks >= old(actions.failedChecks)
        invariant actions.cutOff >= old(actions.cutOff)
        invariant from in old(actions.server.messages) ==>
          (from !in actions.server.messages <==> actions.cutOff > old(actions.cutOff))
        invariant i > 0 ==> actions.faults > old(actions.faults) && actions.lastMove == NoAnswer
        invariant actions.cancels >= old(actions.cancels)
        invariant actions.faults >= old(actions.faults) + 3 * i || actions.cancels > old(actions.cancels)
        invariant i > 0 && actions.failedChecks == old(actions.failedChecks) ==> from in actions.server.messages
      {
        var cancelled: bool := *;
        if i > 0 && cancelled {
          actions.cancels := actions.cancels + 1;
          return 0, "", false;
        }
        ghost var before := actions.server;
        qUid, qMailbox, ok := actions.MoveToQuarantine(m.mailbox, m.uid);
        MoveAgain(old(actions.server), before, actions.server, from, actions.quarantine);
        if ok {
          MovedOrNotValid(old(actions.server), before, from, actions.quarantine);
          return;
        }
      }
      return 0, "", false;
    }

    /** takeIMAPAction, delete branch: four rounds of DeleteMessage. */
    method TakeDelete(m: Message) returns (ok: bool)
      requires ImapActions.Valid(actions.server)
      modifies this`log, actions
      ensures ImapActions.Valid(actions.server) && log == old(log) + [Acting(Delete)]
      ensures DeletedOrNot(old(actions.server), actions.server, From(m))
      ensures actions.faults >= old(actions.faults) && actions.failedChecks == old(actions.failedChecks)
      ensures actions.cutOff >= old(actions.cutOff) && (!ok ==> actions.faults > old(actions.faults))
      ensures actions.lastMove == old(actions.lastMove) && actions.cancels >= old(actions.cancels)
      ensures !ok ==> actions.faults >= old(actions.faults) + 12 || actions.cancels > old(actions.cancels)
      ensures ok ==> From(m) !in actions.server.messages
      ensures !ok && From(m) in old(actions.server.messages) ==>
        (From(m) !in actions.server.messages <==> actions.cutOff > old(actions.cutOff))
    {
      log := log + [Acting(Delete)];
      for i := 0 to 4
        invariant DeletedOrNot(old(actions.server), actions.server, From(m)) && log == old(log) + [Acting(Delete)]
        invariant actions.faults >= old(actions.faults) && actions.failedChecks == old(actions.failedChecks)
        invariant actions.cutOff >= old(actions.cutOff) && (i > 0 ==> actions.faults > old(actions.faults))
        invariant From(m) in old(actions.server.messages) ==>
          (From(m) !in actions.server.messages <==> actions.cutOff > old(actions.cutOff))
        invariant actions.lastMove == old(actions.lastMove) && actions.cancels >= old(actions.cancels)
        invariant actions.faults >= old(actions.faults) + 3 * i || actions.cancels > old(actions.cancels)
      {
        var cancelled: bool := *;
        if i > 0 && cancelled {
          actions.cancels := actions.cancels + 1;
          return false;
        }
        ok := actions.DeleteMessage(m.mailbox, m.uid);
        if ok { return; }
      }
      return false;
    }

    /** takeIMAPAction, flag branch. */
    method TakeFlag(m: Message) returns (ok: bool)
      modifies this`log, actions
      ensures log == old(log) + [Acting(Flag)] && ServerFrame(Flag, old(actions.server), actions.server, m, actions.quarantine)
      ensures actions.faults >= old(actions.faults) && actions.failedChecks == old(actions.failedChecks)
      ensures actions.cutOff == old(actions.cutOff) && (!ok ==> actions.faults > old(actions.faults))
      ensures actions.lastMove == old(actions.lastMove) && actions.cancels >= old(actions.cancels)
      ensures !ok ==> actions.faults >= old(actions.faults) + 12 || actions.cancels > old(actions.cancels)
      ensures ok ==> From(m) in actions.server.flagged
    {
      log := log + [Acting(Flag)];
      for i := 0 to 4
        invariant log == old(log) + [Acting(Flag)]
        invariant ServerFrame(Flag, old(actions.server), actions.server, m, actions.quarantine)
        invariant actions.faults >= old(actions.faults) && actions.failedChecks == old(actions.failedChecks)
        invariant actions.cutOff == old(actions.cutOff)
        invariant i > 0 ==> actions.faults > old(actions.faults)
        invariant actions.lastMove == old(actions.lastMove) && actions.cancels >= old(actions.cancels)
        invariant actions.faults >= old(actions.faults) + 3 * i || actions.cancels > old(actions.cancels)
      {
        var cancelled: bool := *;
        if i > 0 && cancelled {
          actions.cancels := actions.cancels + 1;
          return false;
        }
        ok := actions.FlagMessage(m.mailbox, m.uid);
        if ok { return; }
      }
      return false;
    }

    // ----- Paths through process --------------------------------------------------------

    /** After a successful move: point the row at the message's new place. */
    method Follow(id: nat, m: Message, qUid: nat, auditDesync: bool, ghost a: View) returns (kept: bool)
      requires Good() && id in rows && rows[id].status == QUARANTINED && Keyed(rows[id], m)
      requires a.rows == rows && a.audits == audits && a.failedChecks <= actions.failedChecks && a.faults <= actions.faults
      requires a.cutOff <= actions.cutOff
      requires ImapActions.Valid(a.server) && MovedOrNot(a.server, actions.server, From(m), actions.quarantine)
      requires From(m) !in actions.server.messages
      requires qUid > 0 ==> From(m) in a.server.messages
      requires qUid > 0 ==> At(actions.server, Location(actions.quarantine, qUid), a.server.messages[From(m)])
      modifies this`rows, this`audits, this`dbFaults
      ensures Good() && dbFaults >= old(dbFaults) && rows.Keys == a.rows.Keys
      ensures OnlyRow(id, a, Now()) && rows[id].source == a.rows[id].source
      ensures OwnsKey(rows, id, m, actions.quarantine, qUid)
      ensures actions.quarantine != "" && dbFaults == old(dbFaults) && (qUid > 0 ==> PlaceFree(a.rows, m, actions.quarantine, qUid)) ==>
        QuarantineAgrees(rows[id], a.server, actions.server, m, actions.quarantine, qUid)
      // A row that does not follow its message is never silent about it, unless that write fails too.
      ensures !kept ==> rows == a.rows
      ensures !kept && auditDesync && audits != a.audits + [Audit(id, QuarDesync)] ==>
        dbFaults > old(dbFaults) + if qUid > 0 && !PlaceFree(a.rows, m, actions.quarantine, qUid) then 0 else 1
    {
      kept := UpdateQuarantineUID(id, m.account, qUid, actions.quarantine);
      if !kept && auditDesync { AddAudit(Audit(id, QuarDesync)); }
      if qUid > 0 && AtNewPlace(rows[id], m, actions.quarantine, qUid) {
        NewPlaceIsNotSource(rows[id], m, actions.quarantine, qUid);
      }
      if kept && actions.quarantine != "" {
        MovedAgrees(rows[id], a.server, actions.server, m, actions.quarantine, qUid);
      }
    }

    /** After a failed action: the row goes back to the inbox. */
    method GoBack(id: nat, m: Message, ghost a: View)
      requires Good() && id in rows && Keyed(rows[id], m)
      requires a.rows == rows && a.audits == audits && a.failedChecks <= actions.failedChecks && a.faults <= actions.faults
      requires a.cutOff <= actions.cutOff
      modifies this`rows, this`audits, this`dbFaults
      ensures Good() && dbFaults >= old(dbFaults) && rows.Keys == a.rows.Keys
      ensures OnlyRow(id, a, Now()) && rows[id].source == a.rows[id].source
      ensures OwnsKey(rows, id, m, actions.quarantine, 0)
      ensures dbFaults == old(dbFaults) && a.rows[id].mailbox == m.mailbox ==> RevertAgrees(id, rows[id], a.audits, audits, m)
    {
      Revert(id);
    }

    /** After the row `id` is committed as QUARANTINED at the source: move the message, then
        let the row follow it or go back. */
    method QuarantineRecorded(id: nat, c: Case, auditDesync: bool) returns (qUid: nat)
      requires Good() && id in rows && rows[id].status == QUARANTINED && Keyed(rows[id], c.m)
      requires !c.panic.AfterRow? && c.quarantine == actions.quarantine
      modifies this`rows, this`audits, this`dbFaults, this`log, actions
      ensures Good() && log == old(log) + [Acting(Quarantine)] && dbFaults >= old(dbFaults)
      ensures OnlyRow(id, old(Now()), Now()) && rows.Keys == old(rows).Keys && rows[id].source == old(rows)[id].source
      ensures MovedOrNot(old(actions.server), actions.server, From(c.m), c.quarantine)
      ensures OwnsKey(rows, id, c.m, c.quarantine, qUid)
      ensures if c.panic.DuringAction? then rows == old(rows) else qUid == CopyUid(Now())
      ensures qUid > 0 ==> !c.panic.DuringAction? && Location(c.quarantine, qUid) != From(c.m)
      ensures qUid > 0 ==> From(c.m) in old(actions.server.messages) && From(c.m) !in actions.server.messages
      ensures dbFaults == old(dbFaults) ==> Agreed(c, Quarantine, id, qUid, old(Now()), Now())
    {
      ghost var a := Now();
      var qMailbox, moved;
      qUid, qMailbox, moved := TakeQuarantine(c.m);
      if c.panic.DuringAction? { return 0; }
      if moved {
        var kept := Follow(id, c.m, qUid, auditDesync, a);
      } else {
        GoBack(id, c.m, a);
      }
    }

    /** The IMAP side of a live message whose row `id` is committed. */
    method ActOnVerdict(id: nat, d: Decision, c: Case, auditDesync: bool) returns (qUid: nat)
      requires Good() && id in rows && rows[id].status == StatusOf(d) && Keyed(rows[id], c.m)
      requires !d.Pass? && !c.panic.AfterRow? && c.quarantine == actions.quarantine
      modifies this`rows, this`audits, this`dbFaults, this`log, actions
      ensures Good() && log == old(log) + [Acting(d)] && dbFaults >= old(dbFaults)
      ensures OnlyRow(id, old(Now()), Now()) && rows.Keys == old(rows).Keys && rows[id].source == old(rows)[id].source
      ensures ServerFrame(d, old(actions.server), actions.server, c.m, c.quarantine)
      ensures OwnsKey(rows, id, c.m, c.quarantine, qUid)
      ensures c.panic.DuringAction? ==> rows == old(rows)
      ensures d.Quarantine? && !c.panic.DuringAction? ==> qUid == CopyUid(Now())
      ensures qUid > 0 ==> d.Quarantine? && !c.panic.DuringAction? && Location(c.quarantine, qUid) != From(c.m)
      ensures qUid > 0 ==> From(c.m) in old(actions.server.messages) && From(c.m) !in actions.server.messages
      ensures dbFaults == old(dbFaults) ==> Agreed(c, d, id, qUid, old(Now()), Now())
    {
      ghost var a := Now();
      qUid := 0;
      if d.Quarantine? {
        qUid := QuarantineRecorded(id, c, auditDesync);
      } else {
        var ok;
        if d.Flag? {
          ok := TakeFlag(c.m);
        } else {
          ok := TakeDelete(c.m);
        }
        if !ok && !c.panic.DuringAction? { GoBack(id, c.m, a); }
      }
    }

    /** After the row `id` is committed, where `a` was the view before: act, unless the run only
        observes or a panic strikes first. */
    method ActAfter(id: nat, d: Decision, c: Case, auditDesync: bool, ghost a: View) returns (qUid: nat, ghost work: seq<Event>)
      requires Good() && c.quarantine == actions.quarantine && id in rows && Now() == a.(rows := a.rows[id := rows[id]])
      requires Keyed(rows[id], c.m) && SoleKey(rows, id, c.m)
      requires rows[id].status == if c.source.Backfill? then INBOX else StatusOf(d)
      requires KnownAtSource(a.rows, c.m) ==> rows[id].mailbox == c.m.mailbox
      modifies this`rows, this`audits, this`dbFaults, this`log, actions
      ensures Good() && dbFaults >= old(dbFaults) && work != [] && log == old(log) + work[1..]
      ensures Done(c, d, id, qUid, work, a, Now()) && rows[id].source == old(rows)[id].source
      ensures dbFaults == old(dbFaults) ==> Agreed(c, d, id, qUid, a, Now())
    {
      ghost var b := Now();
      qUid, work := 0, [Committed];
      if c.source.Live? && !d.Pass? && !c.panic.AfterRow? {
        work := [Committed, Acting(d)];
        qUid := ActOnVerdict(id, d, c, auditDesync);
        RecordedAndActed(c, d, id, b.rows[id], qUid, a, b, Now());
      } else {
        RecordedOnly(c, d, id, b.rows[id], a, b);
      }
      if dbFaults == old(dbFaults) { AgreedSince(c, d, id, b.rows[id], qUid, a, b, Now()); }
    }

    /** Unparseable, panicking and blocklisted messages: a plain INSERT, then quarantine. */
    method RecordAndQuarantine(c: Case, auditDesync: bool)
      returns (ok: bool, ghost id: nat, ghost qUid: nat, ghost work: seq<Event>)
      requires Good() && c.quarantine == actions.quarantine
      modifies this`rows, this`nextRow, this`audits, this`dbFaults, this`log, actions
      ensures Good() && log == old(log) + work && dbFaults >= old(dbFaults)
      ensures Done(c, Quarantine, id, qUid, work, old(Now()), Now()) && id !in old(rows) && (ok <==> work != [])
      ensures work != [] ==> !KeyTaken(old(rows), c.m) && rows[id].source == c.source
      ensures dbFaults == old(dbFaults) ==> (work != [] <==> !KeyTaken(old(rows), c.m))
      ensures work != [] && dbFaults == old(dbFaults) ==> Agreed(c, Quarantine, id, qUid, old(Now()), Now())
    {
      ghost var a := Now();
      var rowId;
      ok, rowId := Create(c.m, if c.source.Backfill? then INBOX else QUARANTINED, c.source);
      id, qUid, work := rowId, 0, [];
      if ok {
        var u, w := ActAfter(rowId, Quarantine, c, auditDesync, a);
        qUid, work := u, w;
      }
    }

    /** A fully scanned message: upsert, then act. */
    method RecordThenAct(c: Case, d: Decision) returns (ok: bool, id: nat, qUid: nat, ghost work: seq<Event>)
      requires Good() && c.quarantine == actions.quarantine
      modifies this`rows, this`nextRow, this`audits, this`dbFaults, this`log, actions
      ensures Good() && log == old(log) + work && dbFaults >= old(dbFaults)
      ensures Done(c, d, id, qUid, work, old(Now()), Now()) && (ok <==> work != [])
      ensures id in rows && id !in old(rows) ==> rows[id].source == c.source
      ensures dbFaults == old(dbFaults) ==> work != [] && Agreed(c, d, id, qUid, old(Now()), Now())
    {
      ghost var a := Now();
      qUid, work := 0, [];
      ok, id := Upsert(c.m, if c.source.Backfill? then INBOX else StatusOf(d), c.source);
      if ok {
        qUid, work := ActAfter(id, d, c, true, a);
      }
    }

    /** The same, with the audit entry at the end, which a panic may prevent. */
    method RecordAndAct(c: Case, d: Decision)
      returns (ok: bool, ghost id: nat, ghost qUid: nat, ghost work: seq<Event>)
      requires Good() && c.quarantine == actions.quarantine
      modifies this`rows, this`nextRow, this`audits, this`dbFaults, this`log, actions
      ensures Good() && log == old(log) + work && dbFaults >= old(dbFaults)
      ensures Done(c, d, id, qUid, work, old(Now()), Now()) && (ok <==> work != [])
      ensures id in rows && id !in old(rows) ==> rows[id].source == c.source
      ensures dbFaults == old(dbFaults) ==> work != [] && Agreed(c, d, id, qUid, old(Now()), Now())
      ensures dbFaults == old(dbFaults) && c.panic.NoPanic? ==>
        audits != [] && audits[|audits| - 1] == Audit(id, if c.source.Backfill? then Backfilled else if d.Flag? then Decided(Pass) else Decided(d))
    {
      ghost var a := Now();
      var rowId, u;
      ghost var w;
      ok, rowId, u, w := RecordThenAct(c, d);
      id, qUid, work := rowId, u, w;
      var reached: bool := *;
      if ok && (c.panic.NoPanic? || (c.panic.AfterAction? && reached)) {
        ghost var e := Now();
        AddAudit(Audit(rowId, if c.source.Backfill? then Backfilled else if d.Flag? then Decided(Pass) else Decided(d)));
        MoreAudits(c, d, rowId, qUid, work, a, e, Now());
      }
    }

    /** The whitelist bypass: a CLEAN row and no IMAP action; its write error is ignored, and
        the row's source column is left at its default. */
    method RecordBypass(c: Case) returns (ghost id: nat, ghost work: seq<Event>)
      requires Good() && c.quarantine == actions.quarantine
      modifies this`rows, this`nextRow, this`dbFaults, this`log
      ensures Good() && log == old(log) + work && dbFaults >= old(dbFaults) && |work| <= 1
      ensures Done(c, Pass, id, 0, work, old(Now()), Now()) && id !in old(rows)
      ensures work != [] ==> rows[id] == NewRow(c.m, INBOX, Live)
      ensures dbFaults == old(dbFaults) ==> KeyTaken(rows, c.m) && (work != [] <==> !KeyTaken(old(rows), c.m))
      ensures work != [] ==> Agreed(c, Pass, id, 0, old(Now()), Now())
    {
      ghost var a := Now();
      var ok, rowId := Create(c.m, INBOX, Live);
      id, work := rowId, if ok then [Committed] else [];
      if ok {
        RecordedOnly(c, Pass, rowId, rows[rowId], a, Now());
      }
    }

    /** An unparseable or blocklisted message. */
    method HandleInsert(c: Case, f: Facts) returns (ok: bool, ghost id: nat, ghost qUid: nat, ghost work: seq<Event>)
      requires Good() && c.quarantine == actions.quarantine && c.panic == f.panic && !f.panic.BeforeRow?
      requires !f.parses || f.blocklisted
      modifies this`rows, this`nextRow, this`audits, this`dbFaults, this`log, actions
      ensures Good() && log == old(log) + work && dbFaults >= old(dbFaults) && (ok <==> work != [])
      ensures Handled(c, f, id, qUid, work, old(Now()), Now())
      ensures dbFaults == old(dbFaults) ==> HandledCleanly(c, f, id, qUid, work, old(Now()), Now())
    {
      ok, id, qUid, work := RecordAndQuarantine(c, !f.parses);
    }

    /** A whitelisted message that bypasses the scanners. */
    method HandleBypass(c: Case, f: Facts) returns (ghost id: nat, ghost work: seq<Event>)
      requires Good() && c.quarantine == actions.quarantine && c.panic == f.panic && Bypassed(f)
      modifies this`rows, this`nextRow, this`dbFaults, this`log
      ensures Good() && log == old(log) + work && dbFaults >= old(dbFaults)
      ensures Handled(c, f, id, 0, work, old(Now()), Now())
      ensures dbFaults == old(dbFaults) ==> HandledCleanly(c, f, id, 0, work, old(Now()), Now())
    {
      id, work := RecordBypass(c);
    }

    /** A message that is scanned. */
    method HandleScan(c: Case, f: Facts) returns (ok: bool, ghost id: nat, ghost qUid: nat, ghost work: seq<Event>)
      requires Good() && c.quarantine == actions.quarantine && c.panic == f.panic && !Inserts(f)
      modifies this`rows, this`nextRow, this`audits, this`dbFaults, this`log, actions
      ensures Good() && log == old(log) + work && dbFaults >= old(dbFaults) && (ok <==> work != [])
      ensures Handled(c, f, id, qUid, work, old(Now()), Now())
      ensures dbFaults == old(dbFaults) ==> HandledCleanly(c, f, id, qUid, work, old(Now()), Now())
    {
      ok, id, qUid, work := RecordAndAct(c, if f.whitelist.Listed? then Pass else f.verdict);
    }

    /** The branches of process between taking and returning the scan slot, unless a panic
        strikes before any row is written. `struck` says that a late panic strikes. */
    method Handle(c: Case, f: Facts) returns (struck: bool, ghost id: nat, ghost qUid: nat, ghost work: seq<Event>)
      requires Good() && c.quarantine == actions.quarantine && c.panic == f.panic && !f.panic.BeforeRow?
      modifies this`rows, this`nextRow, this`audits, this`dbFaults, this`log, actions
      ensures Good() && log == old(log) + work && dbFaults >= old(dbFaults)
      ensures struck <==> Late(f.panic) && (work != [] || Bypassed(f))
      ensures Handled(c, f, id, qUid, work, old(Now()), Now())
      ensures dbFaults == old(dbFaults) ==> HandledCleanly(c, f, id, qUid, work, old(Now()), Now())
    {
      var ok;
      if !f.parses || f.blocklisted {
        ok, id, qUid, work := HandleInsert(c, f);
      } else if f.whitelist == Listed(true) && f.authAligned {
        ok, qUid := true, 0;
        id, work := HandleBypass(c, f);
      } else {
        ok, id, qUid, work := HandleScan(c, f);
      }
      struck := ok && Late(f.panic);
    }

    /** The recover handler after a late panic: it inserts a second row for the source key, and
        quarantines again, exactly if that key has become free. */
    method Recover(c: Case, d: Decision, ghost id: nat, ghost qUid: nat, ghost work: seq<Event>, ghost a: View)
      returns (ghost r: Trace)
      requires Good() && c.quarantine == actions.quarantine && Late(c.panic) && ImapActions.Valid(a.server)
      requires Done(c, d, id, qUid, work, a, Now()) && (work == [] ==> d.Pass?)
      modifies this`rows, this`nextRow, this`audits, this`dbFaults, this`log, actions
      ensures r.id == id && r.newUID == qUid && r.work == work
      ensures Good() && log == old(log) + r.recovered && dbFaults >= old(dbFaults)
      ensures Recovered(c, r, a, old(Now()), Now())
      ensures dbFaults == old(dbFaults) ==> RecoveredCleanly(c, d, r, a, old(Now()), Now())
    {
      ghost var b := Now();
      if work != [] { KeyFreeExactly(c, d, id, qUid, work, a, b); }
      var ok;
      ghost var second: nat, newUID: nat, recovered: seq<Event>;
      ok, second, newUID, recovered := RecordAndQuarantine(c.(panic := NoPanic), true);
      r := Trace(id, second, qUid, work, recovered);
      HandlerAdds(id, second, a, b, Now());
      if recovered != [] {
        OneMoveInAll(c, d, id, qUid, work, a, b, actions.server);
        if qUid > 0 && Agreed(c, d, id, qUid, a, b) { AgreedStill(c, id, qUid, second, a, b, Now()); }
      }
    }

    /** A run with a panic before any row is written: the slot is returned, and the handler
        records the message and quarantines it. */
    method PanicFirst(c: Case, f: Facts) returns (ghost r: Trace)
      requires Good() && slots > 0 && c.quarantine == actions.quarantine && c.panic == f.panic && f.panic.BeforeRow?
      modifies this, actions
      ensures Good() && slots == old(slots) - 1 && dbFaults >= old(dbFaults)
      ensures log == old(log) + [SlotReturned] + r.recovered && r.work == [] && IsWork(r.recovered, Quarantine)
      ensures Observes(c, f, r, old(Now()), Now()) && Contained(c, f, r, old(Now()), Now()) && UsesCopyUid(f, r, Now())
      ensures dbFaults == old(dbFaults) ==> InAgreement(c, f, r, old(Now()), Now()) && FollowsFacts(c, f, r, old(Now()), Now())
    {
      ghost var a := Now();
      slots, log := slots - 1, log + [SlotReturned];
      ghost var id: nat, newUID: nat, recovered: seq<Event>;
      var ok;
      ok, id, newUID, recovered := RecordAndQuarantine(c, true);
      r := Trace(id, id, newUID, [], recovered);
      HandlerRun(c, f, id, newUID, recovered, a, Now());
      if dbFaults == old(dbFaults) { HandlerRunCleanly(c, f, id, newUID, recovered, a, Now()); }
    }

    /** After the branches and the return of the slot: the handler, if a late panic struck. */
    method Aftermath(c: Case, f: Facts, struck: bool, ghost id: nat, ghost newUID: nat, ghost work: seq<Event>, ghost a: View, ghost clean: bool)
      returns (ghost r: Trace)
      requires Good() && ImapActions.Valid(a.server) && c.quarantine == actions.quarantine && c.panic == f.panic && !f.panic.BeforeRow?
      requires Handled(c, f, id, newUID, work, a, Now()) && (clean ==> HandledCleanly(c, f, id, newUID, work, a, Now()))
      requires struck <==> Late(f.panic) && (work != [] || Bypassed(f))
      modifies this`rows, this`nextRow, this`audits, this`dbFaults, this`log, actions
      ensures Good() && dbFaults >= old(dbFaults) && log == old(log) + r.recovered
      ensures r.work == work && IsWork(r.recovered, Quarantine) && (f.panic.NoPanic? ==> r.recovered == [])
      ensures Observes(c, f, r, a, Now()) && Contained(c, f, r, a, Now())
      ensures SecondRowIsStale(c, f, r, Now()) && UsesCopyUid(f, r, Now())
      ensures clean && dbFaults == old(dbFaults) ==> InAgreement(c, f, r, a, Now()) && SecondRowExactly(c, f, r, Now())
      ensures clean && dbFaults == old(dbFaults) ==> FollowsFacts(c, f, r, a, Now()) && Audited(c, f, r, Now())
    {
      ghost var b := Now();
      if struck {
        r := Recover(c, DecisionOf(f), id, newUID, work, a);
        RecoveredRun(c, f, r, a, b, Now());
        if clean && dbFaults == old(dbFaults) { RecoveredRunCleanly(c, f, r, a, b, Now()); }
      } else {
        r := Trace(id, id, newUID, work, []);
        PlainRun(c, f, id, newUID, work, a, b);
        if clean { PlainRunCleanly(c, f, id, newUID, work, a, b); }
      }
    }

    /** Any other run: the branches, the slot, and what comes after. */
    method RunThrough(c: Case, f: Facts) returns (ghost r: Trace)
      requires Good() && slots > 0 && c.quarantine == actions.quarantine && c.panic == f.panic && !f.panic.BeforeRow?
      modifies this, actions
      ensures Good() && slots == old(slots) - 1 && dbFaults >= old(dbFaults)
      ensures log == old(log) + r.work + [SlotReturned] + r.recovered
      ensures IsWork(r.work, DecisionOf(f)) && IsWork(r.recovered, Quarantine) && (f.panic.NoPanic? ==> r.recovered == [])
      ensures Observes(c, f, r, old(Now()), Now()) && Contained(c, f, r, old(Now()), Now())
      ensures SecondRowIsStale(c, f, r, Now()) && UsesCopyUid(f, r, Now())
      ensures dbFaults == old(dbFaults) ==> InAgreement(c, f, r, old(Now()), Now()) && SecondRowExactly(c, f, r, Now())
      ensures dbFaults == old(dbFaults) ==> FollowsFacts(c, f, r, old(Now()), Now()) && Audited(c, f, r, Now())
    {
      ghost var a := Now();
      ghost var id: nat, newUID: nat, work: seq<Event>;
      var struck;
      struck, id, newUID, work := Handle(c, f);
      slots, log := slots - 1, log + [SlotReturned];
      r := Aftermath(c, f, struck, id, newUID, work, a, dbFaults == old(dbFaults));
    }

    /** process: take a scan slot or give up, handle the message, return the slot; a panic is
        recovered after the slot is returned. */
    method Process(m: Message, source: Source, f: Facts, cancelled: bool) returns (ghost r: Trace)
      requires Good() && slots <= maxSlots
      modifies this, actions
      ensures Good() && slots == old(slots) && dbFaults >= old(dbFaults)
      // One slot is taken and returned, and no IMAP command precedes a committed row.
      ensures cancelled || old(slots) == maxSlots ==> log == old(log) && Now() == old(Now())
      ensures !cancelled && old(slots) < maxSlots ==> log == old(log) + ([SlotTaken] + r.work + [SlotReturned] + r.recovered)
      ensures IsWork(r.work, DecisionOf(f)) && IsWork(r.recovered, Quarantine)
      ensures (f.panic.NoPanic? ==> r.recovered == []) && (f.panic.BeforeRow? ==> r.work == [])
      ensures old(log) <= log && CommitFirst(log[|old(log)|..])
      // Wherever a panic strikes, backfill only observes, everything else is left alone, and no
      // message is lost or duplicated unless the decision is to delete.
      ensures var c := Case(m, source, f.panic, actions.quarantine);
        !cancelled && old(slots) < maxSlots ==> Observes(c, f, r, old(Now()), Now()) && Contained(c, f, r, old(Now()), Now())
      ensures !DecisionOf(f).Delete? ==> Identities(actions.server) == Identities(old(actions.server))
      // Agreement, and what a late panic leaves.
      ensures var c := Case(m, source, f.panic, actions.quarantine);
        !cancelled && old(slots) < maxSlots && dbFaults == old(dbFaults) ==>
        InAgreement(c, f, r, old(Now()), Now()) && SecondRowExactly(c, f, r, Now())
      ensures var c := Case(m, source, f.panic, actions.quarantine);
        !cancelled && old(slots) < maxSlots && dbFaults == old(dbFaults) ==>
        FollowsFacts(c, f, r, old(Now()), Now()) && Audited(c, f, r, Now())
      ensures !cancelled && old(slots) < maxSlots ==> UsesCopyUid(f, r, Now())
      ensures var c := Case(m, source, f.panic, actions.quarantine);
        !cancelled && old(slots) < maxSlots ==> SecondRowIsStale(c, f, r, Now())
    {
      r := Trace(0, 0, 0, [], []);
      if cancelled || slots == maxSlots {
        assert log[|log|..] == [];
        return;
      }
      ghost var a := Now();
      var c := Case(m, source, f.panic, actions.quarantine);
      slots, log := slots + 1, log + [SlotTaken];
      assert Now() == a;
      if f.panic.BeforeRow? {
        r := PanicFirst(c, f);
      } else {
        r := RunThrough(c, f);
      }
      WorkCommitsFirst(r.work, DecisionOf(f), r.recovered);
      if !DecisionOf(f).Delete? { NothingLost(c, f, r, a, Now()); }
      Appended(old(log), r.work, [SlotReturned], r.recovered);
    }
  }
}
