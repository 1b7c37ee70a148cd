/**
  * What the privileged helper of a desktop does is a run of the joint model: each of its calls can be played there,
  * effect by effect, from whatever world the call begins in, once the command it carries out was sent.
  */
module HelperRuns {
  import opened Base
  import opened Deadline
  import opened Joint

  /** The joint steps of these successive states of one desktop. */
  function StepsOf(host: nat, desks: seq<D.Desk>): (r: seq<Step>)
    ensures |r| == |desks|
  {
    if desks == [] then [] else StepsOf(host, desks[..|desks| - 1]) + [Desktop(host, desks[|desks| - 1])]
  }

  /**
    * What a call relies on is there: the command is in hand, the revoke was sent, the login was accepted. A call that
    * carries out no command and accepts no login relies on nothing.
    */
  ghost predicate Granted(w: World, host: nat, duty: D.Warrants) {
    duty.issues <= InHand(w, host) && duty.revokes <= RevokedAt(w, host) && duty.logins <= LoginsAt(w, host)
  }

  // One effect of the helper, in whatever state the rest of the world is.
  lemma EffectIsEnabled(w: World, host: nat, s: D.Desk, t: D.Desk, duty: D.Warrants)
    requires host in w.desks && w.desks[host] == s && Granted(w, host, duty)
    requires D.Legal(s, t) && D.Backed(s, t, duty)
    ensures Enabled(w, Desktop(host, t)) && Take(w, Desktop(host, t)) == Moved(w, host, t)
  {
  }

  // The world after such effects: only the desktop moved, and what was active on it is remembered.
  ghost predicate OnlyMoved(w: World, t: World, host: nat, desk: D.Desk) {
    t == w.(desks := w.desks[host := desk], activated := t.activated)
  }

  lemma StillGranted(w: World, t: World, host: nat, desk: D.Desk, duty: D.Warrants)
    requires Granted(w, host, duty) && OnlyMoved(w, t, host, desk)
    ensures Granted(t, host, duty)
  {
    assert InHand(t, host) == InHand(w, host) && RevokedAt(t, host) == RevokedAt(w, host);
    assert LoginsAt(t, host) == LoginsAt(w, host);
  }

  /** Any stretch of any history is a run of desktop steps, in any world that is where the stretch begins. */
  lemma {:induction false} HistoryIsJoint(w: World, host: nat, h: seq<D.Desk>, k: nat, duty: D.Warrants)
    requires D.History(h) && k < |h| && D.Warranted(h, k, duty) && Granted(w, host, duty)
    requires host in w.desks && w.desks[host] == h[k]
    ensures OnlyMoved(w, Play(w, StepsOf(host, h[k + 1..])), host, h[|h| - 1])
    decreases |h|
  {
    if |h| == k + 1 {
      assert w.desks[host := h[k]] == w.desks;
    } else {
      var front, last := h[..|h| - 1], h[|h| - 1];
      HistoryIsJoint(w, host, front, k, duty);
      var t := Play(w, StepsOf(host, front[k + 1..]));
      assert h[k + 1..][..|h[k + 1..]| - 1] == front[k + 1..];
      PlayOneMore(w, StepsOf(host, front[k + 1..]), Desktop(host, last));
      StillGranted(w, t, host, front[|front| - 1], duty);
      EffectIsEnabled(t, host, front[|front| - 1], last, duty);
    }
  }

  /**
    * Whatever the running call of a helper has done since it began is a run of desktop steps, from any world in which
    * the desktop is as the call found it and what the call relies on is there.
    */
  lemma HelperIsJoint(w: World, host: nat, helper: R.Runtime)
    requires helper.Sound() && Granted(w, host, helper.duty)
    requires host in w.desks && w.desks[host] == helper.trace[helper.start]
    ensures OnlyMoved(w, Play(w, StepsOf(host, helper.trace[helper.start + 1..])), host, helper.disk)
  {
    HistoryIsJoint(w, host, helper.trace, helper.start, helper.duty);
  }

  /** An issue relies on a command that was sent to the desktop and is taken up before its deadline. */
  lemma IssueIsGranted(w: World, host: nat, id: Id, now: int, length: nat, configured: Option<int>)
    requires SentTo(w.keys, w.issued, host, id)
    requires R.Asked(DeadlineOf(w.issued[id].expires), length, now, configured)
    ensures Enabled(w, TakeUp(host, id, now))
    ensures Granted(Take(w, TakeUp(host, id, now)), host, R.IssueDuty(id, DeadlineOf(w.issued[id].expires)))
  {
    var t := Take(w, TakeUp(host, id, now));
    assert (host, id) in t.running;
    assert (id, DeadlineOf(w.issued[id].expires)) in InHand(t, host);
  }

  /** A revoke relies on a command that was sent to the desktop. */
  lemma RevokeIsGranted(w: World, host: nat, pin: string, id: Id)
    requires Behind(w.keys, pin, host) && (pin, id) in w.revokes
    ensures Granted(w, host, R.RevokeDuty(id))
  {
    assert id in RevokedAt(w, host);
  }

  /** A revoke that the helper carried out is acknowledged, under whichever pin of the desktop it was sent to. */
  lemma RevokeIsAcknowledged(w: World, host: nat, pin: string, id: Id)
    requires host in w.desks && Behind(w.keys, pin, host) && (pin, id) in w.revokes
    requires D.RevokeAcknowledged(w.desks[host], id)
    ensures Enabled(w, Acknowledge(pin, id)) && (pin, id) in Take(w, Acknowledge(pin, id)).acks
  {
  }

  /** A desktop whose host key is replaced is behind both pins from then on, as it was. */
  lemma NewKeyKeepsTheDesk(w: World, host: nat, former: string, pin: string)
    requires host in w.desks && Behind(w.keys, former, host) && pin !in w.keys
    ensures var t := Take(w, NewKey(host, pin));
      t.desks == w.desks && Behind(t.keys, former, host) && Behind(t.keys, pin, host)
      && forall id :: SentTo(w.keys, w.issued, host, id) ==> SentTo(t.keys, t.issued, host, id)
  {
  }

  /** A login relies on the pending record it finds. */
  lemma LoginIsGranted(w: World, host: nat, now: int)
    requires host in w.desks && R.NotDue(w.desks[host], now)
    ensures var id := w.desks[host].record.value.id;
      Enabled(w, Login(host, id, now)) && Granted(Take(w, Login(host, id, now)), host, R.LoginDuty(id, now))
  {
    var id := w.desks[host].record.value.id;
    assert (host, id, now) in Take(w, Login(host, id, now)).logins;
    assert (id, now) in LoginsAt(Take(w, Login(host, id, now)), host);
  }

  /** The effect a helper has just made was an enabled joint step, whatever else happened since its call began. */
  lemma LastEffectWasEnabled(w: World, host: nat, helper: R.Runtime)
    requires helper.Sound() && |helper.trace| > helper.start + 1 && Granted(w, host, helper.duty)
    requires host in w.desks && w.desks[host] == helper.trace[|helper.trace| - 2]
    ensures Enabled(w, Desktop(host, helper.disk))
  {
    var n := |helper.trace| - 1;
    helper.TraceIsWarranted(n);
    EffectIsEnabled(w, host, helper.trace[n - 1], helper.trace[n], helper.duty);
  }
}
