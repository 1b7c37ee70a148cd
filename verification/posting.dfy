/**
  * The event queue of a desktop and the webhook of the server together: however often and whenever the events at the
  * head of the queue are posted, the tables end as if each published event had been posted once, in order.
  */
module Posting {
  import opened Base
  import opened Tables
  import opened Webhook
  import opened Delivery
  import opened Joint

  /** The event at a position of the log, posted once, at this time. */
  function PostOf(e: O.Event, time: int): Event {
    Event(EventReport(e).0, EventReport(e).1, time, [])
  }

  /** Positions of a log of this length. */
  predicate InLog(d: seq<nat>, size: nat) {
    forall i | 0 <= i < |d| :: d[i] < size
  }

  /** The tables after posting the events at these positions of the log, each at its time. */
  ghost function Posted(db: Db, token: string, log: seq<O.Event>, d: seq<nat>, times: seq<int>): Db
    requires |times| == |d| && InLog(d, |log|)
  {
    if d == [] then db
    else
      var n := |d| - 1;
      Once(Posted(db, token, log, d[..n], times[..n]), token, PostOf(log[d[n]], times[n]))
  }

  /** The times at which positions were posted for the first time. */
  ghost function Firsts(d: seq<nat>, times: seq<int>): (r: seq<int>)
    requires |times| == |d|
    ensures |r| == |O.Collapse(d)|
  {
    if d == [] then []
    else
      var n := |d| - 1;
      var front := Firsts(d[..n], times[..n]);
      if n > 0 && d[n] == d[n - 1] then front else front + [times[n]]
  }

  lemma {:induction false} CollapseInLog(d: seq<nat>, size: nat)
    requires InLog(d, size)
    ensures InLog(O.Collapse(d), size)
    ensures d != [] ==> O.Collapse(d) != [] && O.Collapse(d)[|O.Collapse(d)| - 1] == d[|d| - 1]
    decreases |d|
  {
    if d != [] {
      CollapseInLog(d[..|d| - 1], size);
    }
  }

  lemma {:induction false} PostedKeepsOwner(db: Db, token: string, log: seq<O.Event>, d: seq<nat>, times: seq<int>)
    requires |times| == |d| && InLog(d, |log|) && OneOwner(db, token)
    ensures OneOwner(Posted(db, token, log, d, times), token)
    decreases |d|
  {
    if d != [] {
      var n := |d| - 1;
      PostedKeepsOwner(db, token, log, d[..n], times[..n]);
      var e := PostOf(log[d[n]], times[n]);
      DeliverTwice(Posted(db, token, log, d[..n], times[..n]), token, e.ep, e.report, e.first, e.first);
    }
  }

  // Posting the last position of `c` again changes nothing.
  lemma RepeatedLast(db: Db, token: string, log: seq<O.Event>, c: seq<nat>, firsts: seq<int>, many: Db, time: int)
    requires |firsts| == |c| && c != [] && InLog(c, |log|) && OneOwner(db, token)
    requires Similar(many, Posted(db, token, log, c, firsts))
    ensures Similar(Once(many, token, PostOf(log[c[|c| - 1]], time)), Posted(db, token, log, c, firsts))
  {
    var k := |c| - 1;
    var before := Posted(db, token, log, c[..k], firsts[..k]);
    var e := PostOf(log[c[k]], firsts[k]);
    assert Posted(db, token, log, c, firsts) == Once(before, token, e);
    PostedKeepsOwner(db, token, log, c[..k], firsts[..k]);
    RepeatChangesNothing(before, token, e, many, time);
  }

  // Posting the same event at the same time to similar tables.
  lemma NextPosted(a: Db, b: Db, token: string, e: Event)
    requires OneOwner(a, token) && Similar(a, b)
    ensures Similar(Once(a, token, e), Once(b, token, e))
  {
    DeliverRespectsSimilar(a, b, token, e.ep, e.report, e.first);
  }

  /** The tables do not depend on repeats: posting each position once, at its first time, leaves the same. */
  lemma {:induction false} RepeatsCollapse(db: Db, token: string, log: seq<O.Event>, d: seq<nat>, times: seq<int>)
    requires |times| == |d| && InLog(d, |log|) && OneOwner(db, token)
    ensures InLog(O.Collapse(d), |log|)
    ensures Similar(Posted(db, token, log, d, times), Posted(db, token, log, O.Collapse(d), Firsts(d, times)))
    decreases |d|
  {
    CollapseInLog(d, |log|);
    if d != [] {
      var n := |d| - 1;
      var many := Posted(db, token, log, d[..n], times[..n]);
      RepeatsCollapse(db, token, log, d[..n], times[..n]);
      PostedKeepsOwner(db, token, log, d[..n], times[..n]);
      CollapsedStep(db, token, log, d, times, many);
    }
  }

  // One more post, given that the posts before it collapse.
  lemma CollapsedStep(db: Db, token: string, log: seq<O.Event>, d: seq<nat>, times: seq<int>, many: Db)
    requires |times| == |d| && d != [] && InLog(d, |log|) && OneOwner(db, token) && OneOwner(many, token)
    requires var front, before := d[..|d| - 1], times[..|d| - 1];
      InLog(O.Collapse(front), |log|) && Similar(many, Posted(db, token, log, O.Collapse(front), Firsts(front, before)))
    ensures InLog(O.Collapse(d), |log|)
    ensures Similar(Once(many, token, PostOf(log[d[|d| - 1]], times[|d| - 1])),
                    Posted(db, token, log, O.Collapse(d), Firsts(d, times)))
  {
    var n := |d| - 1;
    var c, firsts := O.Collapse(d[..n]), Firsts(d[..n], times[..n]);
    if n > 0 && d[n] == d[n - 1] {
      CollapseInLog(d[..n], |log|);
      RepeatedLast(db, token, log, c, firsts, many, times[n]);
    } else {
      NextPosted(many, Posted(db, token, log, c, firsts), token, PostOf(log[d[n]], times[n]));
      PostedOneMore(db, token, log, c, firsts, d[n], times[n]);
    }
  }

  lemma PostedOneMore(db: Db, token: string, log: seq<O.Event>, c: seq<nat>, times: seq<int>, last: nat, time: int)
    requires |times| == |c| && InLog(c, |log|) && last < |log|
    ensures InLog(c + [last], |log|)
    ensures Posted(db, token, log, c + [last], times + [time])
            == Once(Posted(db, token, log, c, times), token, PostOf(log[last], time))
  {
    assert (c + [last])[..|c|] == c && (times + [time])[..|c|] == times;
  }

  /** Each event of the log once, in order, at these times. */
  function InOrder(log: seq<O.Event>, times: seq<int>): (r: seq<Event>)
    requires |times| == |log|
    ensures |r| == |log|
  {
    seq(|log|, i requires 0 <= i < |log| => PostOf(log[i], times[i]))
  }

  lemma {:induction false} ExactlyOnceOneMore(db: Db, token: string, events: seq<Event>, last: Event)
    ensures ExactlyOnce(db, token, events + [last]) == Once(ExactlyOnce(db, token, events), token, last)
    decreases |events|
  {
    if events == [] {
      assert (events + [last])[1..] == [];
      assert ExactlyOnce(Once(db, token, last), token, []) == Once(db, token, last);
    } else {
      assert (events + [last])[1..] == events[1..] + [last];
      ExactlyOnceOneMore(Once(db, token, events[0]), token, events[1..], last);
    }
  }

  lemma {:induction false} PositionsInOrder(db: Db, token: string, log: seq<O.Event>, c: seq<nat>, times: seq<int>)
    requires |times| == |c| <= |log| && forall i | 0 <= i < |c| :: c[i] == i
    ensures Posted(db, token, log, c, times) == ExactlyOnce(db, token, InOrder(log[..|c|], times))
    decreases |c|
  {
    if c != [] {
      var n := |c| - 1;
      PositionsInOrder(db, token, log, c[..n], times[..n]);
      var last := PostOf(log[n], times[n]);
      assert InOrder(log[..|c|], times) == InOrder(log[..n], times[..n]) + [last];
      ExactlyOnceOneMore(db, token, InOrder(log[..n], times[..n]), last);
    }
  }

  /**
    * Whatever an outbox has delivered so far, at whatever times, has left the tables as if the oldest events it ever
    * published, those of the removed files and at most one more, had been posted once each, in order, at the times of
    * their first deliveries.
    */
  lemma OutboxPostsExactlyOnce(box: O.Outbox, db: Db, token: string, times: seq<int>)
    requires box.Valid() && OneOwner(db, token) && |times| == |box.delivered|
    ensures InLog(box.delivered, |box.log|)
    ensures var firsts := Firsts(box.delivered, times);
      && |box.gone| <= |firsts| <= |box.gone| + 1 && |firsts| <= |box.log|
      && Similar(Posted(db, token, box.log, box.delivered, times),
                 ExactlyOnce(db, token, InOrder(box.log[..|firsts|], firsts)))
  {
    box.DeliveredThenRemaining();
    var k: nat :| |box.gone| <= k <= |box.gone| + 1 && k <= |box.log| && O.Staircase(box.delivered, k);
    O.StaircaseCollapses(box.delivered, k);
    StaircaseInLog(box.delivered, k);
    RepeatsCollapse(db, token, box.log, box.delivered, times);
    PositionsInOrder(db, token, box.log, O.Collapse(box.delivered), Firsts(box.delivered, times));
  }

  lemma {:induction false} StaircaseInLog(d: seq<nat>, k: nat)
    requires O.Staircase(d, k)
    ensures InLog(d, k)
    decreases |d|
  {
    if d != [] {
      var front := d[..|d| - 1];
      StaircaseInLog(front, if O.Staircase(front, k) then k else k - 1);
    }
  }
}
