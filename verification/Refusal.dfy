/** One attempt and the loop around it: what the way an attempt went means for the attempts after it. */
module Refusal {
  import opened Handshake
  import opened HandshakeAgreement
  import opened Reconnect
  import C = TcpClient

  /** Attempt `k` of the loop went as the whole attempt `ws`, to its end. */
  ghost predicate Went(attempts: nat -> Attempt, k: nat, ws: seq<World>, es: seq<WorldEvent>) {
    && IsAttempt(ws, es) && ws[|es|].client.pc.Ended? && attempts(k).outcome == ws[|es|].client.pc.outcome
  }

  /** After a refusal Slave does not knock again: whatever the schedule, the refused attempt is the
      loop's last. One that had been in session is followed, if at all, after the initial backoff, and
      any other after the wait its streak has come to. */
  lemma RefusalIsFinal(log: seq<Record>, giveUp: nat, t0: nat, attempts: nat -> Attempt, k: nat,
                       ws: seq<World>, es: seq<WorldEvent>)
    requires OnSchedule(log, giveUp, t0) && Happened(log, attempts) && k < |log| && Went(attempts, k, ws, es)
    ensures Refused(ws[|es|]) ==> k == |log| - 1
    ensures k < |log| - 1 ==>
              log[k].waited == if WasInSession(ws, |es|) then INITIAL_BACKOFF else Wait(Streak(log, k))
  {
    EndsAsItWent(ws, es, |es|);
    hide IsAttempt, Refused, WasInSession;
    assert log[k].outcome == attempts(k).outcome;
    if k < |log| - 1 { assert Spaced(log, giveUp, t0, k); }
  }
}
