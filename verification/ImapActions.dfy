/**
 IMAP mutations over a server that may carry out a command and still report an error. The
 server follows section 3.3 of RFC 6851 for MOVE (a UID that is not there is ignored),
 section 3 of RFC 4315 for COPYUID and section 2.3.1.1 of RFC 3501 for UIDs: a UID is never
 given out twice in a mailbox.
 */
module ImapActions {

  datatype Location = Location(mailbox: string, uid: nat)

  /** `messages` maps each location to the identity of the message there. */
  datatype Server = Server(messages: map<Location, nat>, uidNext: map<string, nat>, deleted: set<Location>, flagged: set<Location>)

  function Next(s: Server, mailbox: string): nat {
    if mailbox in s.uidNext then s.uidNext[mailbox] else 1
  }

  /** UIDs are positive and below UIDNEXT, and no message is in two places. */
  predicate Valid(s: Server) {
    && (forall l :: l in s.messages ==> 1 <= l.uid < Next(s, l.mailbox))
    && (forall k, l :: k in s.messages && l in s.messages && s.messages[k] == s.messages[l] ==> k == l)
    && (forall mailbox :: mailbox in s.uidNext ==> s.uidNext[mailbox] >= 1)
  }

  function Identities(s: Server): set<nat> {
    set l | l in s.messages :: s.messages[l]
  }

  /** MOVE of one UID: atomic, and the destination UID is one that was never used; `skip` lets
      the server leave a gap. */
  function Moved(s: Server, from: Location, to: string, skip: nat): Server {
    if from !in s.messages then s
    else
      var uid := Next(s, to) + skip;
      s.(messages := (s.messages - {from})[Location(to, uid) := s.messages[from]], uidNext := s.uidNext[to := uid + 1])
  }

  /** UID EXPUNGE of one UID removes it only if it carries \Deleted. */
  function Expunged(s: Server, l: Location): Server {
    if l in s.deleted then s.(messages := s.messages - {l}) else s
  }

  predicate At(s: Server, l: Location, message: nat) {
    l in s.messages && s.messages[l] == message
  }

  /** The message at `from` is now at the unused location `to`, and nothing else changed place. */
  predicate Relocated(s: Server, t: Server, from: Location, to: Location) {
    && from in s.messages && to !in s.messages
    && At(t, to, s.messages[from])
    && t.messages - {to} == s.messages - {from}
  }

  /** A MOVE loses nothing and duplicates nothing: the same messages exist afterwards, each in
      one place; the moved one is in the destination and every other one is where it was. */
  lemma MoveConserves(s: Server, from: Location, to: string, skip: nat)
    requires Valid(s)
    ensures var t := Moved(s, from, to, skip);
      && Valid(t)
      && Identities(t) == Identities(s)
      && from !in t.messages
      && (from in s.messages ==> Relocated(s, t, from, Location(to, Next(s, to) + skip)))
  {
    if from in s.messages {
      var t := Moved(s, from, to, skip);
      var there := Location(to, Next(s, to) + skip);
      assert there !in s.messages;
      forall m | m in Identities(s) ensures m in Identities(t) {
        var l :| l in s.messages && s.messages[l] == m;
        assert l == from || t.messages[l] == m;
        assert t.messages[there] == s.messages[from];
      }
      forall m | m in Identities(t) ensures m in Identities(s) {
        var l :| l in t.messages && t.messages[l] == m;
        assert l == there || s.messages[l] == m;
      }
    }
  }

  /** All that a sequence of MOVE attempts may have done: nothing, or one move. */
  ghost predicate MovedOrNot(s: Server, t: Server, from: Location, to: string) {
    t == s || exists skip: nat :: t == Moved(s, from, to, skip)
  }

  lemma MovedOrNotValid(s: Server, t: Server, from: Location, to: string)
    requires Valid(s) && MovedOrNot(s, t, from, to)
    ensures Valid(t) && Identities(t) == Identities(s)
    ensures from in t.messages ==> t == s
  {
    if t != s {
      var skip: nat :| t == Moved(s, from, to, skip);
      MoveConserves(s, from, to, skip);
    }
  }

  /** Attempting again after a move, known or not, changes nothing. */
  lemma MoveAgain(s: Server, t: Server, u: Server, from: Location, to: string)
    requires Valid(s) && MovedOrNot(s, t, from, to) && MovedOrNot(t, u, from, to)
    ensures MovedOrNot(s, u, from, to)
  {
    MovedOrNotValid(s, t, from, to);
  }

  /** A message that left its source by MOVE attempts is in the destination and nowhere else. */
  lemma LeftMeansRelocated(s: Server, t: Server, from: Location, to: string) returns (uid: nat)
    requires Valid(s) && MovedOrNot(s, t, from, to) && from in s.messages && from !in t.messages
    ensures Relocated(s, t, from, Location(to, uid))
    ensures forall other: nat :: At(t, Location(to, other), s.messages[from]) ==> other == uid
  {
    var skip: nat :| t == Moved(s, from, to, skip);
    MoveConserves(s, from, to, skip);
    uid := Next(s, to) + skip;
    forall other: nat | At(t, Location(to, other), s.messages[from]) ensures other == uid {
      assert t.messages[Location(to, other)] == t.messages[Location(to, uid)];
    }
  }

  /** All that a sequence of delete attempts on `l` may have done. */
  predicate DeletedOrNot(s: Server, t: Server, l: Location) {
    && t.uidNext == s.uidNext && t.flagged == s.flagged
    && (t.messages == s.messages || t.messages == s.messages - {l})
    && (t.deleted == s.deleted || t.deleted == s.deleted + {l})
  }

  datatype Fault = NoConnection | SelectRefused | CommandRefused | CutOffAfter | NoFault

  /** What came back for a MOVE: nothing usable, or success with a COPYUID (0 if it had none). */
  datatype Answer = NoAnswer | Answered(copyUid: nat)

  class Actions {
    var server: Server
    const quarantine: string
    var faults: nat        // commands that failed so far
    var failedChecks: nat  // existence checks among them
    var cancels: nat       // waits between attempts that were cancelled
    var lastMove: Answer   // the answer to the latest MOVE
    var cutOff: nat        // moves and expunges that were carried out and whose reply was lost

    constructor (server: Server, quarantine: string)
      ensures this.server == server && this.quarantine == quarantine && faults == failedChecks == cutOff == cancels == 0
    {
      this.server, this.quarantine, faults, failedChecks, cutOff := server, quarantine, 0, 0, 0;
      cancels, lastMove := 0, NoAnswer;
    }

    /** One connection, one MOVE. It may fail before or after the server acted, and success
        may come without a usable COPYUID. */
    method AttemptMove(mailbox: string, uid: nat) returns (ok: bool, copyUid: nat)
      requires Valid(server)
      modifies this`server, this`faults, this`cutOff, this`lastMove
      ensures Valid(server) && MovedOrNot(old(server), server, Location(mailbox, uid), quarantine)
      ensures lastMove == (if ok then Answered(copyUid) else NoAnswer) && (!ok ==> copyUid == 0)
      ensures faults == old(faults) + (if ok then 0 else 1) && cutOff >= old(cutOff)
      ensures !ok && Location(mailbox, uid) in old(server.messages) ==>
        (Location(mailbox, uid) !in server.messages <==> cutOff > old(cutOff))
      ensures ok ==> Location(mailbox, uid) !in server.messages
      ensures copyUid > 0 ==> ok && Location(mailbox, uid) in old(server.messages)
      ensures copyUid > 0 ==> At(server, Location(quarantine, copyUid), old(server.messages)[Location(mailbox, uid)])
    {
      var fault: Fault := *;
      var skip: nat, reported: bool := *, *;
      var from := Location(mailbox, uid);
      copyUid := 0;
      ok := fault.NoFault?;
      if !ok { faults := faults + 1; }
      if fault.CutOffAfter? { cutOff := cutOff + 1; }
      if fault.CutOffAfter? || fault.NoFault? {
        MoveConserves(server, from, quarantine, skip);
        if ok && reported && from in server.messages {
          copyUid := Next(server, quarantine) + skip;
        }
        server := Moved(server, from, quarantine, skip);
      }
      lastMove := if ok then Answered(copyUid) else NoAnswer;
    }

    /** MessageExists: a search that may itself fail. */
    method MessageExists(mailbox: string, uid: nat) returns (found: bool, ok: bool)
      modifies this`faults, this`failedChecks
      ensures ok ==> (found <==> Location(mailbox, uid) in server.messages)
      ensures faults == old(faults) + if ok then 0 else 1
      ensures failedChecks == old(failedChecks) + if ok then 0 else 1
    {
      var fault: Fault := *;
      ok := fault.NoFault?;
      if !ok { faults, failedChecks := faults + 1, failedChecks + 1; }
      found := ok && Location(mailbox, uid) in server.messages;
    }

    /** MoveToQuarantine: three attempts, then, if all failed, a look whether the message left
        the source anyway. Success means it left; a non-zero newUID is where it is now; an
        error means it is still there or the look itself failed, and a message that was there is
        gone after an error exactly if a move was cut off after it acted. The COPYUID of the
        attempt that succeeded is passed on, and no attempt is left out unless cancelled. */
    method MoveToQuarantine(mailbox: string, uid: nat) returns (newUID: nat, newMailbox: string, ok: bool)
      requires Valid(server)
      modifies this`server, this`faults, this`failedChecks, this`cutOff, this`cancels, this`lastMove
      ensures Valid(server) && MovedOrNot(old(server), server, Location(mailbox, uid), quarantine)
      ensures faults == old(faults) ==> ok
      ensures faults >= old(faults) && failedChecks >= old(failedChecks) && cutOff >= old(cutOff)
      ensures newUID == (if lastMove.Answered? then lastMove.copyUid else 0) && (lastMove.Answered? ==> ok)
      ensures cancels >= old(cancels) && (!ok ==> faults >= old(faults) + 3 || cancels > old(cancels))
      ensures newMailbox == if ok then quarantine else ""
      ensures ok ==> Location(mailbox, uid) !in server.messages
      ensures newUID > 0 ==> ok && Location(mailbox, uid) in old(server.messages)
      ensures newUID > 0 ==> At(server, Location(quarantine, newUID), old(server.messages)[Location(mailbox, uid)])
      ensures !ok && failedChecks == old(failedChecks) ==> Location(mailbox, uid) in server.messages && server == old(server)
      ensures !ok && Location(mailbox, uid) in old(server.messages) ==>
        (Location(mailbox, uid) !in server.messages <==> cutOff > old(cutOff))
    {
      var from := Location(mailbox, uid);
      for i := 0 to 3
        invariant Valid(server) && MovedOrNot(old(server), server, from, quarantine)
        invariant faults == old(faults) + i && failedChecks == old(failedChecks) && cutOff >= old(cutOff)
        invariant cancels == old(cancels) && (i > 0 ==> lastMove == NoAnswer)
        invariant from in old(server.messages) ==> (from !in server.messages <==> cutOff > old(cutOff))
      {
        ghost var before := server;
        var attempt, copyUid := AttemptMove(mailbox, uid);
        MoveAgain(old(server), before, server, from, quarantine);
        if attempt {
          MovedOrNotValid(old(server), before, from, quarantine);
          return copyUid, quarantine, true;
        }
        var cancelled: bool := *;
        if i < 2 && cancelled {
          cancels := cancels + 1;
          break;
        }
      }
      var stillThere, looked := MessageExists(mailbox, uid);
      if looked && !stillThere {
        return 0, quarantine, true;
      }
      MovedOrNotValid(old(server), server, from, quarantine);
      return 0, "", false;
    }

    /** DeleteMessage: three attempts of STORE \Deleted followed by UID EXPUNGE. A message that was
        there is gone after a reported failure exactly if an expunge was cut off after it acted. */
    method DeleteMessage(mailbox: string, uid: nat) returns (ok: bool)
      modifies this`server, this`faults, this`cutOff, this`cancels
      ensures cancels >= old(cancels) && (!ok ==> faults >= old(faults) + 3 || cancels > old(cancels))
      ensures faults >= old(faults) && (faults == old(faults) ==> ok) && cutOff >= old(cutOff)
      ensures DeletedOrNot(old(server), server, Location(mailbox, uid))
      ensures ok ==> Location(mailbox, uid) !in server.messages
      ensures !ok && Location(mailbox, uid) in old(server.messages) ==>
        (Location(mailbox, uid) !in server.messages <==> cutOff > old(cutOff))
    {
      var l := Location(mailbox, uid);
      for i := 0 to 3
        invariant DeletedOrNot(old(server), server, l) && faults == old(faults) + i && cancels == old(cancels) && cutOff >= old(cutOff)
        invariant l in old(server.messages) ==> (l !in server.messages <==> cutOff > old(cutOff))
      {
        var store: Fault, expunge: Fault := *, *;
        if store.CutOffAfter? || store.NoFault? {
          server := server.(deleted := server.deleted + {l});
        }
        if store.NoFault? && (expunge.CutOffAfter? || expunge.NoFault?) {
          server := Expunged(server, l);
          if expunge.NoFault? { return true; }
          cutOff := cutOff + 1;
        }
        faults := faults + 1;
        var cancelled: bool := *;
        if i < 2 && cancelled {
          cancels := cancels + 1;
          break;
        }
      }
      return false;
    }

    /** FlagMessage: three attempts of STORE \Flagged. */
    method FlagMessage(mailbox: string, uid: nat) returns (ok: bool)
      modifies this`server, this`faults, this`cancels
      ensures cancels >= old(cancels) && (!ok ==> faults >= old(faults) + 3 || cancels > old(cancels))
      ensures faults >= old(faults) && (faults == old(faults) ==> ok)
      ensures server == old(server) || server == old(server).(flagged := old(server).flagged + {Location(mailbox, uid)})
      ensures ok ==> Location(mailbox, uid) in server.flagged
    {
      for i := 0 to 3
        invariant server == old(server) || server == old(server).(flagged := old(server).flagged + {Location(mailbox, uid)})
        invariant faults == old(faults) + i && cancels == old(cancels)
      {
        var fault: Fault := *;
        if fault.CutOffAfter? || fault.NoFault? {
          server := server.(flagged := server.flagged + {Location(mailbox, uid)});
          if fault.NoFault? { return true; }
        }
        faults := faults + 1;
        var cancelled: bool := *;
        if i < 2 && cancelled {
          cancels := cancels + 1;
          break;
        }
      }
      return false;
    }
  }
}
