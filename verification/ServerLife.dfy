/** What the accept thread does and when it does it, over whole runs: how each of its waits ends, which
    press of the user counts, and how the server stops. */
module ServerLife {
  import opened Common
  import opened NoisePrimitives
  import opened NoiseIk
  import opened Wire
  import opened TcpServer
  import opened Trust

  // ------------------------------------------------------------------------------------
  // The user's decision
  // ------------------------------------------------------------------------------------

  /** The press at `p` is the last one, and was made during the wait that is on at `n`. */
  ghost predicate Stands(xs: seq<Server>, es: seq<Event>, p: nat, n: nat)
    requires n <= |es| < |xs|
  {
    && p < n && (es[p].Approve? || es[p].Reject?)
    && (forall j | p <= j <= n :: xs[j].pc == xs[n].pc)
    && forall q | p < q < n :: !es[q].Approve? && !es[q].Reject?
  }

  lemma PressStep(s: Server, e: Event)
    requires Waiting(Step(s, e).server.pc)
    ensures var t := Step(s, e).server;
            if t.pc == s.pc then
              t.pairingDecision == if e.Approve? then Approved else if e.Reject? then Rejected else s.pairingDecision
            else t.pairingDecision.Pending? && !e.Approve? && !e.Reject?
  {
    hide Respond, Encode, Decode, Fingerprint, AfterRead;
    match e
    case Arrive(cells, ephemeral) =>
      hide Proceed;
      if ReadLen(s.pc) > 0 { ReadingIsNoWait(s, Decode(Got(s.pc) + cells), ephemeral); }
    case Continue => hide Arrived, Decide, LeaveSession;
    case _ => hide Arrived, Proceed;
  }

  /** What the accept thread finds while it waits is the user's last press of this very wait: an earlier
      one never counts, and a later one replaces it. */
  lemma {:induction false} LastPressCounts(xs: seq<Server>, es: seq<Event>, n: nat)
    requires IsRun(xs, es) && n < |xs| && Waiting(xs[n].pc)
    ensures xs[n].pairingDecision.Approved? <==> exists p: nat :: Stands(xs, es, p, n) && es[p].Approve?
    ensures xs[n].pairingDecision.Rejected? <==> exists p: nat :: Stands(xs, es, p, n) && es[p].Reject?
  {
    hide Step;
    if n == 0 {
      assert false;
    } else {
      assert xs[n] == Step(xs[n - 1], es[n - 1]).server;
      PressStep(xs[n - 1], es[n - 1]);
      hide IsRun;
      if xs[n - 1].pc == xs[n].pc {
        LastPressCounts(xs, es, n - 1) by { hide *; }
        PressesGrow(xs, es, n);
      } else {
        assert forall p: nat :: !Stands(xs, es, p, n);
      }
    }
  }

  lemma PressesGrow(xs: seq<Server>, es: seq<Event>, n: nat)
    requires 0 < n <= |es| < |xs| && xs[n - 1].pc == xs[n].pc
    ensures if es[n - 1].Approve? || es[n - 1].Reject? then forall p: nat :: Stands(xs, es, p, n) <==> p == n - 1
            else forall p: nat :: Stands(xs, es, p, n) <==> Stands(xs, es, p, n - 1)
  {
  }

  /** Exactly when and how the wait for a first pairing ends: with the approval sent and remembered, if
      the thread finds one while the server runs; otherwise -- a rejection, the time running out,
      a shutdown -- with the refusal sent and the connection closed. */
  lemma PairingEnds(s: Server, e: Event)
    requires s.pc.Deciding?
    ensures var out := Step(s, e);
            var looks := e.Continue? && (!s.running || !s.pairingDecision.Pending?);
            if !looks && !e.ApprovalTimesOut? then out.server.pc == s.pc && (out.sent == [] || e.Send?)
            else if e.Continue? && s.running && s.pairingDecision.Approved? then
              out.sent == [Decision(true)] && out.server.pc.ReadingIk1? && out.server.pc.peer == s.pc.peer
              && Lookup(out.server.knownPeers, s.pc.peer) == Some(s.pc.key)
            else out.sent == [Decision(false)] && out.server.pc.Listening? && out.server.status.Idle?
  {
    hide AfterRead;
  }

  /** The same at the gate: approved, the device is connected and no longer kicked; otherwise it is told
      to go away, on the channel it already has. */
  lemma GateEnds(s: Server, e: Event)
    requires s.pc.Redeciding?
    ensures var out := Step(s, e);
            var looks := e.Continue? && (!s.running || !s.pairingDecision.Pending?);
            if !looks && !e.ApprovalTimesOut? then out.server.pc == s.pc && (out.sent == [] || e.Send?)
            else if e.Continue? && s.running && s.pairingDecision.Approved? then
              out.sent == [] && out.server.pc.Announcing? && out.server.status.Connected? && s.pc.peer !in out.server.kickedThisSession
            else out.sent == [SessionFrame(s.sendNonce, GoAway)] && out.server.pc.Listening? && out.server.status.Idle?
  {
    hide AfterRead;
  }

  /** A known device skips the pairing exactly if it says, in so many bytes, that it does not need it:
      anything else read as its flag asks for one. */
  lemma OnlyNoSkipsPairing(s: Server, w: Word, ephemeral: nat)
    requires s.pc.ReadingFlag?
    ensures var t := AfterRead(s, w, ephemeral).server;
            && (t.pc.ReadingIk1? <==> s.pc.trusted.Some? && w == PairingFlag(false))
            && (t.pc.ReadingKey? <==> !t.pc.ReadingIk1?)
            && (t.pc.ReadingIk1? ==> Some(t.pc.key) == s.pc.trusted)
  {
    hide Respond, Fingerprint;
  }

  // ------------------------------------------------------------------------------------
  // The shared channel
  // ------------------------------------------------------------------------------------

  lemma ChannelStep(s: Server, e: Event)
    requires Sane(s) && (s.activeChannel <==> s.pc.Greeting? || s.pc.Opening? || s.pc.InSession? || s.pc.Parting?)
    ensures var t := Step(s, e).server; t.activeChannel <==> t.pc.Greeting? || t.pc.Opening? || t.pc.InSession? || t.pc.Parting?
  {
    hide Respond, Encode, Decode, Fingerprint;
    match e
    case Arrive(_, _) => hide Proceed, Decide, Redecide, LeaveSession;
    case Continue => hide Arrived, AfterRead;
    case _ => hide Arrived, AfterRead, Proceed;
  }

  /** Other threads can send exactly from right after the announcement until the session is over. */
  lemma {:induction false} ChannelIff(xs: seq<Server>, es: seq<Event>, n: nat)
    requires IsRun(xs, es) && n < |xs|
    ensures xs[n].activeChannel <==> xs[n].pc.Greeting? || xs[n].pc.Opening? || xs[n].pc.InSession? || xs[n].pc.Parting?
  {
    hide Step, Sane;
    if n > 0 {
      ChannelIff(xs, es, n - 1);
      RunSane(xs, es, n - 1);
      assert xs[n] == Step(xs[n - 1], es[n - 1]).server;
      ChannelStep(xs[n - 1], es[n - 1]);
    }
  }

  // ------------------------------------------------------------------------------------
  // Coming, going and stopping
  // ------------------------------------------------------------------------------------

  lemma RunningStep(s: Server, e: Event)
    ensures Step(s, e).server.running == (s.running && !e.Shutdown?)
  {
    hide Respond, Encode, Decode, Fingerprint;
    match e
    case Arrive(_, _) => hide Proceed, Decide, Redecide, LeaveSession;
    case Continue => hide Arrived, AfterRead;
    case _ => hide Arrived, AfterRead, Proceed;
  }

  lemma {:induction false} RunsUntilShutdown(xs: seq<Server>, es: seq<Event>, n: nat)
    requires IsRun(xs, es) && n < |xs|
    ensures xs[n].running <==> xs[0].running && forall p | 0 <= p < n :: !es[p].Shutdown?
  {
    hide Step;
    if n > 0 {
      RunsUntilShutdown(xs, es, n - 1);
      assert xs[n] == Step(xs[n - 1], es[n - 1]).server;
      RunningStep(xs[n - 1], es[n - 1]);
    }
  }

  /** A connection begins exactly when one is accepted by a server that listens and runs, with the
      server's own id. */
  lemma BeginsWithOwnId(s: Server, e: Event)
    requires s.pc.Listening?
    ensures var out := Step(s, e);
            if e.Accept? && s.running then out.server.pc == ReadingId([]) && out.sent == [DeviceId(s.id)]
            else out.server.pc.Listening? && (out.sent == [] || e.Send?)
  {
    hide AfterRead;
  }

  /** A read that fails closes the connection, and so do these three: a session that ends, is asked to end,
      or finds the server stopped. Nothing else ends a session. */
  lemma HowItLeaves(s: Server, e: Event)
    ensures ReadLen(s.pc) > 0 && e.ReadFails? ==>
              var t := Step(s, e).server; t.pc.Listening? && t.status.Idle? && Step(s, e).sent == []
    ensures s.pc.InSession? ==>
              (Step(s, e).server.pc.Parting? <==>
                 e.SessionEnds? || (e.Continue? && (!s.running || s.disconnectRequested)))
              && (Step(s, e).server.pc == s.pc || Step(s, e).server.pc.Parting?)
    ensures s.pc.Parting? && e.Continue? ==> Step(s, e).server.pc.Leaving? && !Step(s, e).server.activeChannel
    ensures s.pc.Leaving? && e.Continue? ==> Step(s, e).server.pc.Listening? && Step(s, e).server.status.Idle?
  {
    hide AfterRead;
  }

  /** How many own steps the accept thread of a stopped server still takes, reads aside. */
  function StepsLeft(pc: Pc): nat {
    match pc
    case Prompting(_, _) => 2
    case Deciding(_, _) => 1
    case Reprompting(_, _) => 2
    case Redeciding(_, _) => 1
    case Announcing(_, _) => 6
    case Greeting(_, _) => 5
    case Opening(_, _) => 4
    case InSession(_, _) => 3
    case Parting(_, _) => 2
    case Leaving => 1
    case _ => 0
  }

  lemma StoppedStep(s: Server, e: Event)
    requires !s.running
    ensures var t := Step(s, e).server;
            && (s.pc.Listening? ==> t.pc.Listening?)
            && (StepsLeft(s.pc) > 0 && e.Continue? ==> StepsLeft(t.pc) < StepsLeft(s.pc))
            && (StepsLeft(s.pc) > 0 ==> StepsLeft(t.pc) <= StepsLeft(s.pc) && ReadLen(t.pc) == 0)
            && (ReadLen(s.pc) > 0 && e.ReadFails? ==> t.pc.Listening?)
            && (StepsLeft(s.pc) == 0 && ReadLen(s.pc) == 0 ==> s.pc.Listening?)
  {
    hide Respond, Encode, Decode, Fingerprint;
    match e
    case Arrive(_, _) => hide Proceed, Decide, Redecide, LeaveSession;
    case Continue => hide Arrived, AfterRead;
    case _ => hide Arrived, AfterRead, Proceed;
  }

  /** The thread's own steps among the events from `a` to `n`. */
  function OwnSteps(es: seq<Event>, a: nat, n: nat): nat
    requires a <= n <= |es|
    decreases n
  {
    if n == a then 0 else OwnSteps(es, a, n - 1) + if es[n - 1].Continue? then 1 else 0
  }

  /** A server told to stop does stop: whatever it was doing past its reads is over after at most six of
      its own steps, whatever the user and the peer do meanwhile; a read ends it at the latest when it
      fails; and then nothing starts it again. */
  lemma {:induction false} ShutdownStops(xs: seq<Server>, es: seq<Event>, a: nat, n: nat)
    requires IsRun(xs, es) && a <= n < |xs| && !xs[a].running
    ensures xs[a].pc.Listening? ==> xs[n].pc.Listening?
    ensures ReadLen(xs[a].pc) == 0 && OwnSteps(es, a, n) >= 6 ==> xs[n].pc.Listening?
  {
    StoppedBound(xs, es, a, n);
    hide IsRun;
    StoppedIsListening(xs[n].pc);
  }

  lemma StoppedIsListening(pc: Pc)
    ensures StepsLeft(pc) <= 6
    ensures StepsLeft(pc) == 0 && ReadLen(pc) == 0 ==> pc.Listening?
  {
  }

  lemma {:induction false} StoppedBound(xs: seq<Server>, es: seq<Event>, a: nat, n: nat)
    requires IsRun(xs, es) && a <= n < |xs| && !xs[a].running
    ensures !xs[n].running && (xs[a].pc.Listening? ==> xs[n].pc.Listening?)
    ensures ReadLen(xs[a].pc) == 0 ==>
              ReadLen(xs[n].pc) == 0 && (StepsLeft(xs[n].pc) == 0 || StepsLeft(xs[n].pc) + OwnSteps(es, a, n) <= 6)
  {
    hide Step, StepsLeft, ReadLen;
    if n == a {
      StoppedIsListening(xs[a].pc);
    } else {
      StoppedBound(xs, es, a, n - 1);
      assert xs[n] == Step(xs[n - 1], es[n - 1]).server;
      RunningStep(xs[n - 1], es[n - 1]);
      StoppedStep(xs[n - 1], es[n - 1]);
      if xs[n].pc.Listening? { NoReadWhenListening(xs[n].pc); }
    }
  }

  lemma NoReadWhenListening(pc: Pc)
    requires pc.Listening?
    ensures StepsLeft(pc) == 0 && ReadLen(pc) == 0
  {
  }
}
