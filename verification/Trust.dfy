/** Whom Master lets in, over whole runs of the server: any number of connection attempts, any
    bytes from whoever connects, and any user actions in between. */
module Trust {
  import opened Common
  import opened NoisePrimitives
  import opened NoiseIk
  import opened Wire
  import opened TcpServer

  /** Holds at every point of a run. */
  ghost predicate Sane(s: Server) {
    && (s.activeChannel ==> s.pc.Greeting? || s.pc.Opening? || s.pc.InSession? || s.pc.Parting?)
    && (s.status.Connected? <==> (HoldsKeys(s.pc) && !s.pc.Reprompting? && !s.pc.Redeciding?) || s.pc.Leaving?)
    && (s.status.Connected? && !s.pc.Leaving? ==> s.status == Connected(s.pc.peer, s.pc.result.keys.recvKey))
    && (s.pc.Prompting? || s.pc.Deciding? ==> s.status == Pairing(s.pc.peer, Fingerprint(s.pc.key, Public(s.ownStatic))))
    && (s.pc.Reprompting? || s.pc.Redeciding? ==>
          s.pc.peer in s.kickedThisSession
          && s.status == Pairing(s.pc.peer, Fingerprint(s.pc.result.peerStatic, Public(s.ownStatic))))
    && (s.pc.Announcing? || s.pc.Greeting? || s.pc.Opening? || s.pc.InSession? ==> s.pc.peer !in s.kickedThisSession)
  }

  ghost predicate Starting(s: Server) {
    s.pc.Listening? && !s.activeChannel && s.status.Idle? && s.kickedThisSession == {}
  }

  ghost predicate IsRun(xs: seq<Server>, es: seq<Event>) {
    && |xs| == |es| + 1 && Starting(xs[0])
    && forall i {:trigger es[i]} | 0 <= i < |es| :: xs[i + 1] == Step(xs[i], es[i]).server
  }

  lemma ReadSane(s: Server, w: Word, ephemeral: nat)
    requires Sane(s)
    ensures var t := AfterRead(s, w, ephemeral).server; Sane(t) && t.ownStatic == s.ownStatic
  {
    hide Respond, Encode, Fingerprint;
  }

  lemma ProceedSane(s: Server)
    requires Sane(s)
    ensures var t := Proceed(s).server; Sane(t) && t.ownStatic == s.ownStatic
  {
    hide Fingerprint;
  }

  lemma StepSane(s: Server, t: Server, e: Event)
    requires Sane(s) && t == Step(s, e).server
    ensures Sane(t) && t.ownStatic == s.ownStatic
  {
    hide Respond, Encode, Decode, Fingerprint;
    match e
    case Arrive(cells, ephemeral) =>
      hide Proceed, Decide, Redecide, LeaveSession, AfterRead;
      ReadSane(s, Decode(Got(s.pc) + cells), ephemeral);
    case Continue =>
      hide Arrived, AfterRead, Proceed, Sane;
      ProceedSane(s);
    case _ => hide Arrived, AfterRead, Proceed;
  }

  lemma {:induction false} RunSane(xs: seq<Server>, es: seq<Event>, n: nat)
    requires IsRun(xs, es) && n < |xs|
    ensures Sane(xs[n]) && xs[n].ownStatic == xs[0].ownStatic
  {
    hide Sane, Step;
    if n == 0 {
      StartSane(xs[0]);
    } else {
      RunSane(xs, es, n - 1);
      assert xs[n] == Step(xs[n - 1], es[n - 1]).server;
      StepSane(xs[n - 1], xs[n], es[n - 1]);
    }
  }

  lemma StartSane(s: Server)
    requires Starting(s)
    ensures Sane(s)
  {
  }

  /** A shared channel always belongs to a connection the status line shows. */
  lemma ChannelMeansConnected(xs: seq<Server>, es: seq<Event>, n: nat)
    requires IsRun(xs, es) && n < |xs| && xs[n].activeChannel
    ensures xs[n].status.Connected? && HoldsKeys(xs[n].pc) && xs[n].status.peer == xs[n].pc.peer
  {
    RunSane(xs, es, n);
    hide IsRun;
  }

  // ------------------------------------------------------------------------------------
  // Approval
  // ------------------------------------------------------------------------------------

  /** The user approves, after this attempt cleared the old decision, while the screen shows the
      fingerprint of device `d`'s key `k`. */
  ghost predicate Approval(x: Server, e: Event, d: nat, k: Term) {
    e.Approve? && x.pc == Deciding(d, k) && x.status == Pairing(d, Fingerprint(k, Public(x.ownStatic)))
  }

  /** The same at the gate for a device that was kicked. */
  ghost predicate Reapproval(x: Server, e: Event, d: nat, k: Term) {
    e.Approve? && x.pc.Redeciding? && x.pc.peer == d && x.pc.result.peerStatic == k
    && x.status == Pairing(d, Fingerprint(k, Public(x.ownStatic)))
  }

  ghost predicate SameAttempt(xs: seq<Server>, a: nat, b: nat)
    requires b < |xs|
  {
    forall j | a <= j <= b :: !xs[j].pc.Listening?
  }

  /** The thread waits for the user. */
  predicate Waiting(pc: Pc) { pc.Deciding? || pc.Redeciding? }

  lemma ReadingIsNoWait(s: Server, w: Word, ephemeral: nat)
    requires ReadLen(s.pc) > 0
    ensures !Waiting(AfterRead(s, w, ephemeral).server.pc)
  {
    hide Respond, Fingerprint;
  }

  /** What a step can do to the decision the accept thread is waiting for. */
  lemma DecisionStep(s: Server, e: Event)
    ensures var t := Step(s, e).server;
            && (t.pc.Deciding? && t.pairingDecision.Approved? ==> s.pc == t.pc && (e.Approve? || s.pairingDecision.Approved?))
            && (t.pc.Redeciding? && t.pairingDecision.Approved? ==> s.pc == t.pc && (e.Approve? || s.pairingDecision.Approved?))
  {
    hide Respond, Encode, Decode, Fingerprint, AfterRead;
    match e
    case Arrive(cells, ephemeral) =>
      hide Proceed;
      if ReadLen(s.pc) > 0 { ReadingIsNoWait(s, Decode(Got(s.pc) + cells), ephemeral); }
    case Continue => hide Arrived;
    case _ => hide Arrived, Proceed;
  }

  /** A decision that stands at `Approved` was made during this very wait. */
  lemma {:induction false} ApprovedWhileWaiting(xs: seq<Server>, es: seq<Event>, n: nat) returns (p: nat)
    requires IsRun(xs, es) && n < |xs| && xs[n].pairingDecision.Approved? && (xs[n].pc.Deciding? || xs[n].pc.Redeciding?)
    ensures p < n && es[p].Approve? && xs[p].status == xs[n].status
    ensures forall j | p <= j <= n :: xs[j].pc == xs[n].pc
  {
    hide Step, Sane;
    if n == 0 {
      assert false;
    } else {
      assert xs[n] == Step(xs[n - 1], es[n - 1]).server;
      DecisionStep(xs[n - 1], es[n - 1]);
      RunSane(xs, es, n - 1);
      RunSane(xs, es, n);
      StatusOfWait(xs[n - 1], xs[n]);
      if es[n - 1].Approve? {
        p := n - 1;
      } else {
        p := ApprovedWhileWaiting(xs, es, n - 1);
      }
    }
  }

  lemma StatusOfWait(s: Server, t: Server)
    requires Sane(s) && Sane(t) && s.pc == t.pc && (s.pc.Deciding? || s.pc.Redeciding?) && s.ownStatic == t.ownStatic
    ensures s.status == t.status
  {
  }

  // ------------------------------------------------------------------------------------
  // The store of trusted devices
  // ------------------------------------------------------------------------------------

  lemma StoreStep(s: Server, e: Event, d: nat)
    ensures var t := Step(s, e).server;
            Lookup(t.knownPeers, d) == Lookup(s.knownPeers, d)
            || (Lookup(t.knownPeers, d) == None && e == Forget(d))
            || (s.pc.Deciding? && s.pc.peer == d && s.pairingDecision.Approved? && Lookup(t.knownPeers, d) == Some(s.pc.key))
  {
    hide Respond, Encode, Decode, Fingerprint;
    match e
    case Arrive(_, _) => hide Proceed, Decide, Redecide, LeaveSession;
    case Continue => hide Arrived, AfterRead;
    case _ => hide Arrived, AfterRead, Proceed;
  }

  /** Nothing enters the store but a key the user approved while looking at its fingerprint. */
  lemma {:induction false} StoreHoldsApprovedKeys(xs: seq<Server>, es: seq<Event>, n: nat, d: nat, k: Term)
    requires IsRun(xs, es) && n < |xs| && Lookup(xs[n].knownPeers, d) == Some(k)
    ensures Lookup(xs[0].knownPeers, d) == Some(k) || exists p: nat | p < n :: Approval(xs[p], es[p], d, k)
  {
    hide Step, Sane, Lookup;
    if n > 0 {
      assert xs[n] == Step(xs[n - 1], es[n - 1]).server;
      StoreStep(xs[n - 1], es[n - 1], d);
      if Lookup(xs[n - 1].knownPeers, d) == Some(k) {
        StoreHoldsApprovedKeys(xs, es, n - 1, d, k);
      } else {
        var p := ApprovedWhileWaiting(xs, es, n - 1);
        RunSane(xs, es, p);
        ApprovalAt(xs[p], es[p], d, k);
      }
    }
  }

  lemma ApprovalAt(x: Server, e: Event, d: nat, k: Term)
    requires Sane(x) && e.Approve? && x.pc == Deciding(d, k)
    ensures Approval(x, e, d, k)
  {
  }

  /** The accept thread acts on an approval of `k` for device `d`. */
  predicate Remembers(x: Server, e: Event, d: nat, k: Term) {
    e.Continue? && x.running && x.pc == Deciding(d, k) && x.pairingDecision.Approved?
  }

  /** The event is about device `d`'s entry in the store. */
  predicate Touches(x: Server, e: Event, d: nat) {
    e == Forget(d) || (x.pc.Deciding? && Remembers(x, e, d, x.pc.key))
  }

  /** What one event makes of the entry. */
  lemma EntryStep(s: Server, e: Event, d: nat)
    ensures var now := Lookup(Step(s, e).server.knownPeers, d);
            if e == Forget(d) then now == None
            else if s.pc.Deciding? && Remembers(s, e, d, s.pc.key) then now == Some(s.pc.key)
            else now == Lookup(s.knownPeers, d)
  {
    hide Respond, Encode, Decode, Fingerprint;
    match e
    case Arrive(_, _) => hide Proceed, Decide, Redecide, LeaveSession;
    case Continue => hide Arrived, AfterRead;
    case _ => hide Arrived, AfterRead, Proceed;
  }

  ghost predicate Untouched(xs: seq<Server>, es: seq<Event>, a: nat, n: nat, d: nat)
    requires n <= |es| < |xs|
  {
    forall q | a <= q < n :: !Touches(xs[q], es[q], d)
  }

  /** An approval is remembered, and stays until it is replaced or forgotten: the store maps `d` to `k`
      if and only if the last event on `d`'s entry was an approval of `k` acted on -- or there was
      none, and it did so from the beginning. */
  lemma {:induction false} StoreRemembersIff(xs: seq<Server>, es: seq<Event>, n: nat, d: nat, k: Term)
    requires IsRun(xs, es) && n < |xs|
    ensures Lookup(xs[n].knownPeers, d) == Some(k) <==>
              || (exists p: nat | p < n :: Remembers(xs[p], es[p], d, k) && Untouched(xs, es, p + 1, n, d))
              || (Lookup(xs[0].knownPeers, d) == Some(k) && Untouched(xs, es, 0, n, d))
  {
    hide Step, Lookup;
    if n > 0 {
      StoreRemembersIff(xs, es, n - 1, d, k);
      assert xs[n] == Step(xs[n - 1], es[n - 1]).server;
      EntryStep(xs[n - 1], es[n - 1], d);
      hide IsRun;
      if Touches(xs[n - 1], es[n - 1], d) {
        assert Untouched(xs, es, n, n, d);
      } else {
        hide Remembers, Touches;
        assert forall p: nat | p < n :: Untouched(xs, es, p, n, d) <==> Untouched(xs, es, p, n - 1, d);
        assert Untouched(xs, es, n, n, d) && Untouched(xs, es, n - 1, n - 1, d);
      }
    }
  }

  // ------------------------------------------------------------------------------------
  // Who gets connected
  // ------------------------------------------------------------------------------------

  /** This step of the run is where this attempt learned that `k` is to be trusted for `d`. */
  ghost predicate Trusts(x: Server, e: Event, y: Server, d: nat, k: Term) {
    (x.pc.ReadingId? && y.pc.ReadingFlag? && y.pc.peer == d && Lookup(x.knownPeers, d) == Some(k)) || Approval(x, e, d, k)
  }

  ghost predicate Trusted(xs: seq<Server>, es: seq<Event>, n: nat, d: nat, k: Term)
    requires |xs| == |es| + 1 && n < |xs|
  {
    exists l: nat | l < n :: Trusts(xs[l], es[l], xs[l + 1], d, k) && SameAttempt(xs, l, n)
  }

  /** The key the attempt at `pc` relies on, if it has one. */
  function KeyOf(pc: Pc): Option<Term> {
    match pc
    case ReadingFlag(_, trusted, _) => trusted
    case ReadingIk1(_, key, _) => Some(key)
    case _ => if HoldsKeys(pc) then Some(pc.result.peerStatic) else None
  }

  ghost predicate KeyComes(s: Server, t: Server) {
    || KeyOf(t.pc).None?
    || (KeyOf(s.pc) == KeyOf(t.pc) && s.pc.peer == t.pc.peer)
    || (s.pc.ReadingId? && t.pc.ReadingFlag? && Lookup(s.knownPeers, t.pc.peer) == KeyOf(t.pc))
    || (s.pc.Deciding? && s.pairingDecision.Approved? && s.pc == Deciding(t.pc.peer, KeyOf(t.pc).value))
  }

  lemma KeyRead(s: Server, w: Word, ephemeral: nat)
    ensures KeyComes(s, AfterRead(s, w, ephemeral).server)
  {
    hide Respond, Encode, Fingerprint, Lookup;
  }

  lemma KeyStep(s: Server, e: Event)
    ensures KeyComes(s, Step(s, e).server)
  {
    hide Respond, Encode, Decode, Fingerprint, Lookup;
    match e
    case Arrive(cells, ephemeral) =>
      hide Proceed, Decide, Redecide, LeaveSession, AfterRead;
      KeyRead(s, Decode(Got(s.pc) + cells), ephemeral);
    case Continue => hide Arrived, AfterRead;
    case _ => hide Arrived, AfterRead, Proceed;
  }

  lemma TrustedStays(xs: seq<Server>, es: seq<Event>, n: nat, d: nat, k: Term)
    requires |xs| == |es| + 1 && n + 1 < |xs| && !xs[n + 1].pc.Listening? && Trusted(xs, es, n, d, k)
    ensures Trusted(xs, es, n + 1, d, k)
  {
    hide Trusts;
    var l: nat :| l < n && Trusts(xs[l], es[l], xs[l + 1], d, k) && SameAttempt(xs, l, n);
    assert SameAttempt(xs, l, n + 1);
  }

  lemma ApprovalIsTrust(xs: seq<Server>, es: seq<Event>, n: nat, d: nat, k: Term)
    requires IsRun(xs, es) && n + 1 < |xs| && !xs[n + 1].pc.Listening?
    requires xs[n].pc == Deciding(d, k) && xs[n].pairingDecision.Approved?
    ensures Trusted(xs, es, n + 1, d, k)
  {
    hide Step, Sane;
    var p := ApprovedWhileWaiting(xs, es, n);
    RunSane(xs, es, p);
    ApprovalAt(xs[p], es[p], d, k);
    assert SameAttempt(xs, p, n + 1);
    assert Trusts(xs[p], es[p], xs[p + 1], d, k);
  }

  lemma {:induction false} KeyIsTrusted(xs: seq<Server>, es: seq<Event>, n: nat)
    requires IsRun(xs, es) && n < |xs| && KeyOf(xs[n].pc).Some?
    ensures KnowsPeer(xs[n].pc) && Trusted(xs, es, n, xs[n].pc.peer, KeyOf(xs[n].pc).value)
  {
    hide Step, Sane, KeyOf;
    KeyedIsBusy(xs[n].pc);
    if n == 0 {
      assert false;
    } else {
      var d, k := xs[n].pc.peer, KeyOf(xs[n].pc).value;
      assert xs[n] == Step(xs[n - 1], es[n - 1]).server;
      KeyStep(xs[n - 1], es[n - 1]);
      if KeyOf(xs[n - 1].pc) == Some(k) && (KeyedIsBusy(xs[n - 1].pc); xs[n - 1].pc.peer == d) {
        KeyIsTrusted(xs, es, n - 1);
        hide Trusted;
        TrustedStays(xs, es, n - 1, d, k);
      } else if xs[n - 1].pc == Deciding(d, k) && xs[n - 1].pairingDecision.Approved? {
        hide Trusted;
        ApprovalIsTrust(xs, es, n - 1, d, k);
      } else {
        assert Trusts(xs[n - 1], es[n - 1], xs[n - 1 + 1], d, k);
        assert SameAttempt(xs, n - 1, n);
      }
    }
  }

  lemma KeyedIsBusy(pc: Pc)
    requires KeyOf(pc).Some?
    ensures !pc.Listening? && KnowsPeer(pc)
  {
  }

  /** Master shows Connected for a device only on the strength of this attempt's own evidence:
      the store mapped the device to exactly the key it then proved to hold, or the user approved
      that key's fingerprint after the attempt had cleared any older decision. */
  lemma ConnectedIsTrusted(xs: seq<Server>, es: seq<Event>, n: nat)
    requires IsRun(xs, es) && n < |xs| && xs[n].status.Connected? && !xs[n].pc.Leaving?
    ensures HoldsKeys(xs[n].pc) && xs[n].status.peer == xs[n].pc.peer
    ensures Trusted(xs, es, n, xs[n].pc.peer, xs[n].pc.result.peerStatic)
  {
    RunSane(xs, es, n);
    hide IsRun, Trusted;
    assert KeyOf(xs[n].pc) == Some(xs[n].pc.result.peerStatic);
    KeyIsTrusted(xs, es, n);
  }

  /** So over a whole life of the server, every device ever shown as connected proved a key that
      was in the store from the beginning or that the user approved with its fingerprint shown. */
  lemma EveryConnectionWasApproved(xs: seq<Server>, es: seq<Event>, n: nat)
    requires IsRun(xs, es) && n < |xs| && xs[n].status.Connected? && !xs[n].pc.Leaving?
    ensures HoldsKeys(xs[n].pc)
    ensures var d, k := xs[n].pc.peer, xs[n].pc.result.peerStatic;
            Lookup(xs[0].knownPeers, d) == Some(k) || exists p: nat | p < n :: Approval(xs[p], es[p], d, k)
  {
    ConnectedIsTrusted(xs, es, n);
    hide IsRun, Lookup;
    var d, k := xs[n].pc.peer, xs[n].pc.result.peerStatic;
    var l: nat :| l < n && Trusts(xs[l], es[l], xs[l + 1], d, k) && SameAttempt(xs, l, n);
    if !Approval(xs[l], es[l], d, k) {
      StoreHoldsApprovedKeys(xs, es, l, d, k);
    }
  }

  // ------------------------------------------------------------------------------------
  // Kicking
  // ------------------------------------------------------------------------------------

  /** The session of device `d` ends here because the user asked for it. */
  ghost predicate Kicks(x: Server, y: Server, d: nat) {
    x.pc.InSession? && x.pc.peer == d && x.disconnectRequested && y.pc.Parting?
  }

  lemma KickedStep(s: Server, e: Event, d: nat)
    ensures var t := Step(s, e).server;
            && (d in t.kickedThisSession && d !in s.kickedThisSession ==> Kicks(s, t, d))
            && (d in s.kickedThisSession && d !in t.kickedThisSession ==>
                  s.pc.Redeciding? && s.pc.peer == d && s.pairingDecision.Approved? && t.pc.Announcing?)
            && (Kicks(s, t, d) ==> d in t.kickedThisSession)
  {
    hide Respond, Encode, Decode, Fingerprint;
    match e
    case Arrive(_, _) => hide Proceed, Decide, Redecide, LeaveSession;
    case Continue => hide Arrived, AfterRead;
    case _ => hide Arrived, AfterRead, Proceed;
  }

  lemma ReapprovalAt(x: Server, e: Event)
    requires Sane(x) && e.Approve? && x.pc.Redeciding?
    ensures Reapproval(x, e, x.pc.peer, x.pc.result.peerStatic)
  {
  }

  /** From a kick on, a device stays kicked until the user approves it at the gate. */
  lemma {:induction false} KickedUntilReapproved(xs: seq<Server>, es: seq<Event>, k: nat, n: nat, d: nat)
    requires IsRun(xs, es) && k < n < |xs| && Kicks(xs[k], xs[k + 1], d)
    ensures d in xs[n].kickedThisSession
            || exists p: nat, key | k < p < n :: Reapproval(xs[p], es[p], d, key)
  {
    hide Step, Sane, Kicks;
    assert xs[n] == Step(xs[n - 1], es[n - 1]).server;
    KickedStep(xs[n - 1], es[n - 1], d);
    if n - 1 > k {
      KickedUntilReapproved(xs, es, k, n - 1, d);
      if d in xs[n - 1].kickedThisSession && d !in xs[n].kickedThisSession {
        var p := ApprovedWhileWaiting(xs, es, n - 1);
        assert xs[k].pc.InSession? by { KickIsInSession(xs[k], xs[k + 1], d); }
        assert k < p;
        RunSane(xs, es, p);
        ReapprovalAt(xs[p], es[p]);
        assert Reapproval(xs[p], es[p], d, xs[p].pc.result.peerStatic);
      }
    }
  }

  lemma KickIsInSession(x: Server, y: Server, d: nat)
    requires Kicks(x, y, d)
    ensures x.pc.InSession?
  {
  }

  /** Being connected always starts with the announcement. */
  lemma ConnectedStartsAnnouncing(s: Server, e: Event)
    requires Sane(s) && !s.status.Connected? && Step(s, e).server.status.Connected?
    ensures Step(s, e).server.pc.Announcing?
  {
    hide Respond, Encode;
  }

  /** And it shows one peer for as long as it lasts. */
  lemma ConnectedStaysPut(s: Server, e: Event)
    requires Sane(s) && s.status.Connected? && Step(s, e).server.status.Connected?
    ensures Step(s, e).server.status == s.status
  {
    hide Respond, Encode, Decode, Fingerprint;
    match e
    case Arrive(_, _) => hide Proceed, Decide, Redecide, LeaveSession;
    case Continue => hide Arrived, AfterRead;
    case _ => hide Arrived, AfterRead, Proceed;
  }

  /** A device the user disconnected is not shown as connected again, once that connection is gone from
      the screen, before the user approves it again -- after the kick, and after the gate cleared
      any older decision. */
  lemma {:induction false} KickedNeedsApproval(xs: seq<Server>, es: seq<Event>, k: nat, m: nat, n: nat, d: nat)
    requires IsRun(xs, es) && k < m < n < |xs| && Kicks(xs[k], xs[k + 1], d)
    requires !xs[m].status.Connected? && xs[n].status.Connected? && xs[n].status.peer == d
    ensures exists p: nat, key | k < p < n :: Reapproval(xs[p], es[p], d, key)
  {
    hide Kicks, Sane, Step, Reapproval;
    RunSane(xs, es, n - 1);
    RunSane(xs, es, n);
    assert xs[n] == Step(xs[n - 1], es[n - 1]).server;
    hide IsRun;
    if xs[n - 1].status.Connected? {
      ConnectedStaysPut(xs[n - 1], es[n - 1]);
      KickedNeedsApproval(xs, es, k, m, n - 1, d);
    } else {
      ConnectedStartsAnnouncing(xs[n - 1], es[n - 1]);
      AnnouncedIsNotKicked(xs[n]);
      KickedUntilReapproved(xs, es, k, n, d);
    }
  }

  lemma AnnouncedIsNotKicked(s: Server)
    requires Sane(s) && s.pc.Announcing?
    ensures s.status.Connected? && s.status.peer !in s.kickedThisSession
  {
  }

  // ------------------------------------------------------------------------------------
  // What the server says in a session
  // ------------------------------------------------------------------------------------

  /** The gate turns the device away. */
  predicate TurnsAway(x: Server, y: Server) { x.pc.Redeciding? && y.pc.Listening? }

  /** The server's own session messages: it opens with its audio port, and says goodbye exactly to a
      device it kicks or turns away at the gate. Everything else is what other threads send. Each
      frame bears the next number. */
  lemma WhatTheServerSays(s: Server, e: Event)
    ensures var out := Step(s, e);
            var opens, parts := s.pc.Greeting? && e.Continue?, TurnsAway(s, out.server) || exists d: nat :: Kicks(s, out.server, d);
            forall w: Word | w.SessionFrame? :: w in out.sent <==>
              w.nonce == s.sendNonce && ((opens && w.frame == AudioPort) || (parts && w.frame == GoAway)
                                         || (s.activeChannel && e == Send(w.frame)))
  {
    hide Respond, Encode, Decode, Fingerprint;
    var out := Step(s, e);
    assert s.pc.InSession? && s.disconnectRequested && out.server.pc.Parting? ==> Kicks(s, out.server, s.pc.peer);
    match e
    case Arrive(_, _) => hide Proceed, Decide, Redecide, LeaveSession;
    case Continue => hide Arrived, AfterRead;
    case _ => hide Arrived, AfterRead, Proceed;
  }

  // ------------------------------------------------------------------------------------
  // When a disconnect is obeyed
  // ------------------------------------------------------------------------------------

  /** From the announcement of device `d` on, Connected shows up to point `n`. */
  ghost predicate Shows(xs: seq<Server>, es: seq<Event>, a: nat, n: nat, d: nat) {
    && IsRun(xs, es) && a < n < |xs| && xs[a].pc.Announcing? && xs[a].pc.peer == d
    && forall j | a <= j < n :: xs[j].status.Connected?
  }

  /** Disconnect was pressed between `a` and `n`, and the server was in the session loop then. */
  ghost predicate PressedInSession(xs: seq<Server>, es: seq<Event>, a: nat, n: nat)
    requires n <= |es| < |xs|
  {
    exists p: nat | a <= p < n :: es[p].Disconnect? && xs[p].pc.InSession?
  }

  /** Where a connection to `d` stands, given whether it was asked to end from inside its session. */
  ghost predicate Standing(x: Server, d: nat, pressed: bool) {
    match x.pc
    case Announcing(peer, _) => peer == d && d !in x.kickedThisSession && !pressed
    case Greeting(peer, _) => peer == d && d !in x.kickedThisSession && !pressed
    case Opening(peer, _) => peer == d && d !in x.kickedThisSession && !pressed
    case InSession(peer, _) => peer == d && d !in x.kickedThisSession && x.disconnectRequested == pressed
    case Parting(peer, _) => peer == d && (d in x.kickedThisSession <==> pressed)
    case Leaving => d in x.kickedThisSession <==> pressed
    case Listening => d in x.kickedThisSession <==> pressed
    case _ => false
  }

  lemma StandingStep(s: Server, e: Event, d: nat, pressed: bool)
    requires Sane(s) && s.status.Connected? && Standing(s, d, pressed)
    ensures Standing(Step(s, e).server, d, pressed || (e.Disconnect? && s.pc.InSession?))
  {
    hide Respond, Encode, Decode, Fingerprint;
    match e
    case Arrive(_, _) => hide Proceed, Decide, Redecide, LeaveSession, AfterRead;
    case Continue => hide Arrived, AfterRead, Decide, Redecide;
    case _ => hide Arrived, AfterRead, Proceed;
  }

  lemma {:induction false} StandingWhileShown(xs: seq<Server>, es: seq<Event>, a: nat, n: nat, d: nat)
    requires Shows(xs, es, a, n, d)
    ensures Standing(xs[n], d, PressedInSession(xs, es, a, n))
  {
    hide Sane, Step, Standing;
    RunSane(xs, es, n - 1);
    assert xs[n] == Step(xs[n - 1], es[n - 1]).server;
    if n == a + 1 {
      StandingAtFirst(xs[a], d);
      assert !PressedInSession(xs, es, a, a);
    } else {
      StandingWhileShown(xs, es, a, n - 1, d);
    }
    StandingStep(xs[n - 1], es[n - 1], d, PressedInSession(xs, es, a, n - 1));
    assert PressedInSession(xs, es, a, n) <==>
           PressedInSession(xs, es, a, n - 1) || (es[n - 1].Disconnect? && xs[n - 1].pc.InSession?);
  }

  lemma StandingAtFirst(x: Server, d: nat)
    requires Sane(x) && x.pc.Announcing? && x.pc.peer == d
    ensures Standing(x, d, false)
  {
  }

  predicate Over(pc: Pc) { pc.Parting? || pc.Leaving? || pc.Listening? }

  /** Exactly when a connection ends in a kick: when Disconnect is pressed while the server is in
      the session loop. Connected shows before and after that, and a press there kicks nobody. */
  lemma KickedIffAskedInSession(xs: seq<Server>, es: seq<Event>, a: nat, n: nat, d: nat)
    requires Shows(xs, es, a, n, d) && Over(xs[n].pc)
    ensures d in xs[n].kickedThisSession <==> PressedInSession(xs, es, a, n)
  {
    StandingWhileShown(xs, es, a, n, d);
    hide Shows, PressedInSession;
  }

  /** Press by press. A Disconnect that is the only one while Connected shows finds the accept
      thread at one of six places; in the session loop it kicks the device, at the other five --
      three before, two after -- it does not. */
  lemma DisconnectPressDecides(xs: seq<Server>, es: seq<Event>, a: nat, n: nat, d: nat, p: nat)
    requires Shows(xs, es, a, n, d) && Over(xs[n].pc)
    requires a <= p < n && es[p].Disconnect? && forall q | a <= q < n && es[q].Disconnect? :: q == p
    ensures xs[p].pc.Announcing? || xs[p].pc.Greeting? || xs[p].pc.Opening? || xs[p].pc.InSession?
            || xs[p].pc.Parting? || xs[p].pc.Leaving?
    ensures d in xs[n].kickedThisSession <==> xs[p].pc.InSession?
  {
    RunSane(xs, es, p);
    KickedIffAskedInSession(xs, es, a, n, d);
    hide IsRun;
  }

  /** Too early: Connected already shows, and the flag is still to be cleared. */
  lemma EarlyDisconnectIsLost(s: Server, peer: nat, result: IkResult)
    requires s.running && s.pc == Opening(peer, result) && s.status == Connected(peer, result.keys.recvKey)
    ensures var asked := Step(s, Disconnect).server;
            var open := Step(asked, Continue).server;
            asked.disconnectRequested && open.pc.InSession? && !open.disconnectRequested && Step(open, Continue).server == open
  {
  }

  /** Too late: Connected still shows, and the flag has been looked at for the last time. */
  lemma LateDisconnectIsLost(s: Server, peer: nat, result: IkResult)
    requires s.pc == InSession(peer, result) && s.status == Connected(peer, result.keys.recvKey)
    requires !s.disconnectRequested && peer !in s.kickedThisSession
    ensures var parting := Step(s, SessionEnds).server;
            var asked := Step(parting, Disconnect).server;
            var gone := Step(Step(asked, Continue).server, Continue).server;
            asked.status.Connected? && asked.disconnectRequested && gone.pc.Listening? && peer !in gone.kickedThisSession
  {
  }
}
