/** Feed: one-to-many delivery. Send works on a prefix of the list of select cases while
    subscriptions come and go; each step below is one region between lock operations or
    one choice of a select. A channel may be subscribed several times, so that subscriptions
    are counted. */
module Feeds {

  /** The case that receives removal requests, or the one that sends to a channel. */
  datatype Case = RemoveSub | SendTo(channel: nat)

  /** find: the index of a case, or -1. */
  method Find(cs: seq<Case>, c: Case) returns (index: int)
    ensures -1 <= index < |cs|
    ensures index == -1 <==> c !in cs
    ensures index >= 0 ==> cs[index] == c && c !in cs[..index]
  {
    for i := 0 to |cs|
      invariant c !in cs[..i]
    {
      if cs[i] == c {
        return i;
      }
    }
    return -1;
  }

  /** delete: the list without the case at an index. */
  function Delete(cs: seq<Case>, index: nat): seq<Case>
    requires index < |cs|
  {
    cs[..index] + cs[index + 1..]
  }

  /** deactivate: swaps a case with the last of the prefix. */
  function Deactivate(cs: seq<Case>, active: nat, index: nat): seq<Case>
    requires index < active <= |cs|
  {
    cs[index := cs[active - 1]][active - 1 := cs[index]]
  }

  /** How often each case is listed. */
  function Bag(s: seq<Case>): multiset<Case> {
    multiset(s)
  }

  lemma BagConcat(s: seq<Case>, t: seq<Case>)
    ensures Bag(s + t) == Bag(s) + Bag(t)
  {
  }

  lemma BagOne(c: Case)
    ensures Bag([c]) == multiset{c}
  {
  }

  lemma BagNone()
    ensures Bag([]) == multiset{}
  {
  }

  lemma BagHas(s: seq<Case>, c: Case)
    ensures c in Bag(s) <==> c in s
  {
  }

  lemma BagMiddle(s: seq<Case>, c: Case, t: seq<Case>)
    ensures Bag(s + [c] + t) == Bag(s + t) + multiset{c} && Bag(s + [c] + t) - multiset{c} == Bag(s + t)
  {
    hide Bag;
    BagConcat(s + [c], t);
    BagConcat(s, [c]);
    BagConcat(s, t);
    BagOne(c);
  }

  lemma DeleteCase(cs: seq<Case>, index: nat)
    requires index < |cs|
    ensures Bag(cs) == Bag(Delete(cs, index)) + multiset{cs[index]}
  {
    hide Bag;
    assert cs == cs[..index] + [cs[index]] + cs[index + 1..];
    BagMiddle(cs[..index], cs[index], cs[index + 1..]);
  }

  /** Deleting a case of a part leaves what lies before and behind it alone. */
  lemma DeletePart(cs: seq<Case>, lo: nat, hi: nat, index: nat)
    requires lo <= index < hi <= |cs|
    ensures Bag(cs[lo..hi]) == Bag(Delete(cs, index)[lo..hi - 1]) + multiset{cs[index]}
    ensures Delete(cs, index)[..lo] == cs[..lo] && Delete(cs, index)[hi - 1..] == cs[hi..]
  {
    hide Bag;
    DeleteCase(cs[lo..hi], index - lo);
    assert Delete(cs, index)[lo..hi - 1] == Delete(cs[lo..hi], index - lo);
  }

  /** The case moves from the prefix to the delivered part; any other stays where it was. */
  lemma DeactivateCase(cs: seq<Case>, active: nat, index: nat, lo: nat)
    requires lo <= index < active <= |cs|
    ensures var d := Deactivate(cs, active, index);
            && d[..lo] == cs[..lo] && Bag(d[lo..]) == Bag(cs[lo..])
            && Bag(cs[lo..active]) == Bag(d[lo..active - 1]) + multiset{cs[index]}
            && d[active - 1] == cs[index] && d[active..] == cs[active..]
  {
    hide Bag;
    var d := Deactivate(cs, active, index);
    DeactivatePart(cs, active, index, lo);
    assert d[lo..] == d[lo..active - 1] + [cs[index]] + cs[active..];
    assert cs[lo..] == cs[lo..active] + cs[active..];
    BagConcat(cs[lo..active], cs[active..]);
    BagConcat(d[lo..active - 1] + [cs[index]], cs[active..]);
    BagConcat(d[lo..active - 1], [cs[index]]);
    BagOne(cs[index]);
  }

  lemma DeactivatePart(cs: seq<Case>, active: nat, index: nat, lo: nat)
    requires lo <= index < active <= |cs|
    ensures Bag(cs[lo..active]) == Bag(Deactivate(cs, active, index)[lo..active - 1]) + multiset{cs[index]}
  {
    hide Bag;
    var d, c, last := Deactivate(cs, active, index), cs[index], cs[active - 1];
    if index == active - 1 {
      assert cs[lo..active] == d[lo..active - 1] + [c];
      BagConcat(d[lo..active - 1], [c]);
      BagOne(c);
    } else {
      var s, t := cs[lo..index], cs[index + 1..active - 1];
      assert cs[lo..active] == s + [c] + (t + [last]) && d[lo..active - 1] == s + [last] + t;
      BagMiddle(s, c, t + [last]);
      BagMiddle(s, last, t);
      assert s + (t + [last]) == s + t + [last];
      BagConcat(s + t, [last]);
      BagOne(last);
    }
  }

  /** Where a Send stands: the send lock is free, it is taken, the fast path is about to
      try a case, or the cases have been handed to a select. */
  datatype Phase = Idle | Locked | Trying(next: nat) | Selecting

  /** What one Send did: its audience, the deliveries in order, those removed before
      their turn, and the number it returned. */
  datatype Report = Report(audience: multiset<Case>, sent: seq<Case>, dropped: multiset<Case>, nsent: nat)

  /** Every subscription of the audience was sent the value exactly once unless removed before. */
  ghost predicate Exact(r: Report) {
    Bag(r.sent) + r.dropped == r.audience && r.nsent == |r.sent|
  }

  /** A Send in progress: the prefix of the cases is what remains to be served. */
  ghost predicate Progress(cs: seq<Case>, active: nat, r: Report) {
    1 <= active <= |cs| && r.nsent == |r.sent| && Bag(r.sent) + r.dropped + Bag(cs[1..active]) == r.audience
  }

  /** The cases after the first and the inbox are the live subscriptions. */
  ghost predicate Lists(cs: seq<Case>, inbox: seq<Case>, live: multiset<Case>) {
    |cs| >= 1 && cs[0] == RemoveSub && RemoveSub !in live && Bag(cs[1..]) + Bag(inbox) == live
  }

  lemma ListsAdd(cs: seq<Case>, inbox: seq<Case>, live: multiset<Case>, c: Case)
    requires Lists(cs, inbox, live) && c != RemoveSub
    ensures Lists(cs, inbox + [c], live + multiset{c}) && Bag(inbox + [c]) == Bag(inbox) + multiset{c}
  {
    hide Bag;
    BagConcat(inbox, [c]);
    BagOne(c);
  }

  lemma ListsDropNew(cs: seq<Case>, inbox: seq<Case>, live: multiset<Case>, index: nat)
    requires Lists(cs, inbox, live) && index < |inbox|
    ensures Lists(cs, Delete(inbox, index), live - multiset{inbox[index]}) && Bag(Delete(inbox, index)) == Bag(inbox) - multiset{inbox[index]}
  {
    hide Bag;
    DeleteCase(inbox, index);
  }

  lemma ListsDrop(cs: seq<Case>, inbox: seq<Case>, live: multiset<Case>, index: nat)
    requires Lists(cs, inbox, live) && 0 < index < |cs|
    ensures Lists(Delete(cs, index), inbox, live - multiset{cs[index]}) && Bag(Delete(cs, index)[1..]) == Bag(cs[1..]) - multiset{cs[index]}
  {
    hide Bag;
    DeletePart(cs, 1, |cs|, index);
    assert cs[1..|cs|] == cs[1..] && Delete(cs, index)[1..|cs| - 1] == Delete(cs, index)[1..];
  }

  lemma ListsCollect(cs: seq<Case>, inbox: seq<Case>, live: multiset<Case>)
    requires Lists(cs, inbox, live)
    ensures Lists(cs + inbox, [], live) && Bag((cs + inbox)[1..]) == live && Bag(cs[1..]) <= live && |cs| >= 1
  {
    hide Bag;
    assert (cs + inbox)[1..] == cs[1..] + inbox;
    BagConcat(cs[1..], inbox);
    BagNone();
  }

  lemma ListsDeactivate(cs: seq<Case>, inbox: seq<Case>, live: multiset<Case>, active: nat, index: nat)
    requires Lists(cs, inbox, live) && 0 < index < active <= |cs|
    ensures Lists(Deactivate(cs, active, index), inbox, live) && |Deactivate(cs, active, index)| == |cs| && Bag(Deactivate(cs, active, index)[1..]) == Bag(cs[1..])
  {
    hide Bag;
    DeactivateCase(cs, active, index, 1);
  }

  /** Who may leave and is not in the inbox has a case. */
  lemma ListsLeave(cs: seq<Case>, inbox: seq<Case>, live: multiset<Case>, removing: multiset<Case>, c: Case)
    requires Lists(cs, inbox, live) && removing <= Bag(cs[1..]) && removing[c] < live[c] && c !in inbox
    ensures removing + multiset{c} <= Bag(cs[1..])
  {
    BagHas(inbox, c);
  }

  lemma ListsFound(cs: seq<Case>, inbox: seq<Case>, live: multiset<Case>, c: Case)
    requires Lists(cs, inbox, live) && c in Bag(cs[1..])
    ensures c != RemoveSub && c in cs && cs[0] == RemoveSub
  {
    BagHas(cs[1..], c);
  }

  /** The prefix holds just those still to be served. */
  lemma PrefixIsLeft(cs: seq<Case>, active: nat, r: Report)
    requires Progress(cs, active, r)
    ensures Bag(cs[1..active]) == Left(r) && r.nsent == |r.sent| && 1 <= active <= |cs|
    ensures forall index :: 0 < index < active ==> cs[index] in Left(r)
    ensures active == 1 ==> Left(r) == multiset{} && Exact(r)
  {
    hide Bag;
    forall index | 0 < index < active ensures cs[index] in Bag(cs[1..active]) {
      assert cs[index] == cs[1..active][index - 1];
      BagHas(cs[1..active], cs[index]);
    }
    BagNone();
    assert cs[1..1] == [];
  }

  lemma ProgressStart(cs: seq<Case>)
    requires |cs| >= 1
    ensures Progress(cs, |cs|, Report(Bag(cs[1..]), [], multiset{}, 0)) && cs[1..|cs|] == cs[1..] && Bag([]) == multiset{}
  {
    BagNone();
    assert cs[1..|cs|] == cs[1..];
  }

  lemma ProgressSent(cs: seq<Case>, active: nat, index: nat, r: Report)
    requires Progress(cs, active, r) && 0 < index < active
    ensures Progress(Deactivate(cs, active, index), active - 1, Sent(r, cs[index]))
  {
    hide Bag;
    DeactivateCase(cs, active, index, 1);
    BagConcat(r.sent, [cs[index]]);
    BagOne(cs[index]);
  }

  lemma DeleteLength(cs: seq<Case>, active: nat, index: nat)
    requires 0 < index < |cs| && 1 < active <= |cs|
    ensures |Delete(cs, index)| == |cs| - 1 && 1 <= (if index < active then active - 1 else active) <= |Delete(cs, index)|
  {
  }

  /** A removal during Send, whether the case is still to be served or not. */
  lemma ProgressWithout(cs: seq<Case>, active: nat, index: nat, r: Report)
    requires Progress(cs, active, r) && 0 < index < |cs| && cs[0] != cs[index] && cs[index] !in cs[..index]
    ensures var active' := if index < active then active - 1 else active;
            && Progress(Delete(cs, index), active', Without(r, cs[index]))
            && Bag(Delete(cs, index)[1..active']) == Left(Without(r, cs[index])) && Without(r, cs[index]).nsent == r.nsent
  {
    hide Bag;
    PrefixIsLeft(cs, active, r);
    FoundInPrefix(cs, active, cs[index], index);
    if index < active {
      DeletePart(cs, 1, active, index);
    } else {
      assert Delete(cs, index)[1..active] == cs[1..active];
    }
  }

  /** A case that takes the value, or that does not, is no longer among those untried. */
  lemma NextTried(cs: seq<Case>, active: nat, next: nat)
    requires next < active <= |cs|
    ensures cs[next] in Bag(cs[next..active])
    ensures Bag(Deactivate(cs, active, next)[next..active - 1]) == Bag(cs[next..active]) - multiset{cs[next]}
    ensures Bag(cs[next + 1..active]) == Bag(cs[next..active]) - multiset{cs[next]}
  {
    hide Bag;
    DeactivateCase(cs, active, next, next);
    assert cs[next..active] == [cs[next]] + cs[next + 1..active];
    BagConcat([cs[next]], cs[next + 1..active]);
    BagOne(cs[next]);
  }

  /** A channel is in the prefix just if its first case is. */
  lemma FoundInPrefix(cs: seq<Case>, active: nat, c: Case, index: int)
    requires 1 <= active <= |cs| && -1 <= index < |cs| && cs[0] != c
    requires if index == -1 then c !in cs else cs[index] == c && c !in cs[..index]
    ensures c in Bag(cs[1..active]) <==> 0 < index < active
  {
    BagHas(cs[1..active], c);
    hide Bag;
    assert forall i :: 0 <= i < index ==> cs[i] == cs[..index][i];
    if 0 < index < active {
      assert cs[1..active][index - 1] == c;
    }
  }

  lemma InPrefix(cs: seq<Case>, inbox: seq<Case>, live: multiset<Case>, active: nat, c: Case, index: int)
    requires Lists(cs, inbox, live) && 1 <= active <= |cs| && -1 <= index < |cs|
    requires if index == -1 then c !in cs else cs[index] == c && c !in cs[..index]
    ensures c in Bag(cs[1..active]) <==> 0 < index < active
  {
    hide Bag;
    if c != RemoveSub {
      FoundInPrefix(cs, active, c, index);
    } else {
      assert index < 1;
      assert cs[1..] == cs[1..active] + cs[active..];
      BagConcat(cs[1..active], cs[active..]);
    }
  }

  /** The numbers that Sends have returned. */
  function Counts(reports: seq<Report>): seq<nat> {
    seq(|reports|, i requires 0 <= i < |reports| => |reports[i].sent|)
  }

  // What a feed does, without cases, inbox and prefix.

  /** Where a Send stands: none has the lock, one has it, one goes through those it has not
      tried in this round, or one waits for any of those it has still to serve. */
  datatype Stage = Free | Taken | Serving(report: Report, untried: multiset<Case>) | Waiting(report: Report)

  /** The subscriptions, those of them not yet known to a Send, those about to leave, the
      Send at work, and the Sends that have returned. */
  datatype World = World(live: multiset<Case>, recent: multiset<Case>, leaving: multiset<Case>, stage: Stage, done: seq<Report>)

  datatype Step =
    | Join(c: Case) | Leave(c: Case) | LeaveIdle(c: Case)
    | Begin | Gather | Attempt(ready: bool) | Chosen(c: Case) | LeaveSending(c: Case)

  /** Those a Send has still to serve. */
  function Left(r: Report): multiset<Case> {
    r.audience - Bag(r.sent) - r.dropped
  }

  function Sent(r: Report, c: Case): Report {
    r.(sent := r.sent + [c], nsent := r.nsent + 1)
  }

  /** A subscription that leaves is no longer waited for, if it still was. */
  function Without(r: Report, c: Case): Report {
    if c in Left(r) then r.(dropped := r.dropped + multiset{c}) else r
  }

  /** What a step does, and whether it does anything. */
  ghost predicate Next(w: World, step: Step, w': World) {
    match step
    case Join(c) =>
      w' == if c.SendTo? then w.(live := w.live + multiset{c}, recent := w.recent + multiset{c}) else w
    case Leave(c) =>
      w' == if w.live[c] <= w.leaving[c] then w
            else if c in w.recent then w.(live := w.live - multiset{c}, recent := w.recent - multiset{c})
            else w.(leaving := w.leaving + multiset{c})
    case LeaveIdle(c) =>
      w' == if c in w.leaving && w.stage.Free? then w.(live := w.live - multiset{c}, leaving := w.leaving - multiset{c}) else w
    case Begin =>
      w' == if w.stage.Free? then w.(stage := Taken) else w
    case Gather =>
      w' == if w.stage.Taken? then w.(recent := multiset{}, stage := Serving(Report(w.live, [], multiset{}, 0), w.live)) else w
    case Attempt(ready) =>
      if !w.stage.Serving? then w' == w else
        var r, untried := w.stage.report, w.stage.untried;
        if untried != multiset{} then
          exists c :: c in untried && w' == w.(stage := Serving(if ready then Sent(r, c) else r, untried - multiset{c}))
        else w' == if Left(r) == multiset{} then w.(stage := Free, done := w.done + [r]) else w.(stage := Waiting(r))
    case Chosen(c) =>
      w' == if w.stage.Waiting? && c in Left(w.stage.report)
            then w.(stage := Serving(Sent(w.stage.report, c), Left(Sent(w.stage.report, c)))) else w
    case LeaveSending(c) =>
      w' == if c in w.leaving && w.stage.Waiting?
            then var r := Without(w.stage.report, c);
                 w.(live := w.live - multiset{c}, leaving := w.leaving - multiset{c}, stage := Serving(r, Left(r)))
            else w
  }

  /** Steps for which it is not the time. */
  lemma Skips(w: World, c: Case, ready: bool)
    ensures !c.SendTo? ==> Next(w, Join(c), w)
    ensures w.live[c] <= w.leaving[c] ==> Next(w, Leave(c), w)
    ensures !(c in w.leaving && w.stage.Free?) ==> Next(w, LeaveIdle(c), w)
    ensures !w.stage.Free? ==> Next(w, Begin, w)
    ensures !w.stage.Taken? ==> Next(w, Gather, w)
    ensures !w.stage.Serving? ==> Next(w, Attempt(ready), w)
    ensures !w.stage.Waiting? ==> Next(w, Chosen(c), w)
    ensures !(c in w.leaving && w.stage.Waiting?) ==> Next(w, LeaveSending(c), w)
  {
    hide Left;
  }

  /** `trace` leads through the steps. */
  ghost predicate Follows(trace: seq<World>, steps: seq<Step>) {
    |trace| == |steps| + 1 && forall i :: 0 <= i < |steps| ==> Next(trace[i], steps[i], trace[i + 1])
  }

  /** Step `i` begins to serve just those subscribed at that moment. */
  ghost predicate Began(trace: seq<World>, steps: seq<Step>, i: nat, r: Report) {
    i < |steps| && i < |trace| && steps[i] == Gather && trace[i].stage.Taken? && r.audience == trace[i].live
  }

  /** Step `j` takes out a subscription that a Send waits for. */
  ghost predicate Quits(trace: seq<World>, steps: seq<Step>, j: nat, c: Case) {
    && j < |steps| && j < |trace| && steps[j] == LeaveSending(c) && c in trace[j].leaving
    && trace[j].stage.Waiting? && c in Left(trace[j].stage.report)
  }

  /** How often a subscription to channel `c` was taken out of a Send in the steps from `i` to `n`. */
  ghost function Quitted(trace: seq<World>, steps: seq<Step>, i: nat, n: nat, c: Case): nat {
    if n <= i then 0 else Quitted(trace, steps, i, n - 1, c) + if Quits(trace, steps, n - 1, c) then 1 else 0
  }

  /** Whoever was not served although subscribed when it began has left while it waited. */
  ghost predicate Excused(trace: seq<World>, steps: seq<Step>, i: nat, n: nat, r: Report) {
    forall c :: r.dropped[c] == Quitted(trace, steps, i + 1, n, c)
  }

  /** The number of Sends that have begun to serve. */
  ghost function Begun(trace: seq<World>, steps: seq<Step>, n: nat): nat
    requires n <= |steps| && n <= |trace|
  {
    if n == 0 then 0 else Begun(trace, steps, n - 1) + if steps[n - 1] == Gather && trace[n - 1].stage.Taken? then 1 else 0
  }

  ghost predicate Busy(w: World) {
    w.stage.Serving? || w.stage.Waiting?
  }

  /** The report of a Send that began with step `i` and goes on or ended before step `n`. */
  ghost predicate HonestSince(trace: seq<World>, steps: seq<Step>, i: nat, n: nat, r: Report) {
    i < n && Began(trace, steps, i, r) && Excused(trace, steps, i, n, r)
  }

  /** What a report says of its audience at step `n` of a run. */
  ghost predicate Honest(trace: seq<World>, steps: seq<Step>, n: nat, r: Report) {
    exists i: nat, k: nat :: k <= n && HonestSince(trace, steps, i, k, r)
  }

  /** A step ends a Send, begins one, or carries it on. */
  lemma StepReports(w: World, step: Step, w': World)
    requires Next(w, step, w')
    ensures w'.done == if Busy(w) && !Busy(w') then w.done + [w.stage.report] else w.done
    ensures Busy(w) ==> !(step == Gather && w.stage.Taken?)
    ensures !Busy(w) ==> (Busy(w') <==> step == Gather && w.stage.Taken?)
    ensures !Busy(w) && Busy(w') ==> w'.stage.report.audience == w.live && w'.stage.report.dropped == multiset{}
    ensures Busy(w) ==> var r := w.stage.report; var r' := if Busy(w') then w'.stage.report else r;
              && r'.audience == r.audience
              && r'.dropped == if step.LeaveSending? && step.c in w.leaving && w.stage.Waiting? && step.c in Left(r)
                               then r.dropped + multiset{step.c} else r.dropped
  {
    hide Left;
  }

  lemma GoesOn(trace: seq<World>, steps: seq<Step>, i: nat, n: nat, r: Report, r': Report)
    requires n < |steps| && n < |trace| && HonestSince(trace, steps, i, n, r) && Busy(trace[n]) && trace[n].stage.report == r && r'.audience == r.audience
    requires r'.dropped == if steps[n].LeaveSending? && steps[n].c in trace[n].leaving && trace[n].stage.Waiting? && steps[n].c in Left(r)
                           then r.dropped + multiset{steps[n].c} else r.dropped
    ensures HonestSince(trace, steps, i, n + 1, r')
  {
    forall c ensures r'.dropped[c] == Quitted(trace, steps, i + 1, n + 1, c) {
      assert r.dropped[c] == Quitted(trace, steps, i + 1, n, c);
    }
  }

  /** At any point of any run that starts between Sends: every Send that has begun has
      returned, except for the one at work; its audience was everyone subscribed when it began;
      and those of them that it did not serve are exactly those taken out while it waited for
      them. */
  lemma {:induction false} AudienceWasLive(trace: seq<World>, steps: seq<Step>, n: nat)
    requires Follows(trace, steps) && n <= |steps| && !Busy(trace[0])
    ensures |trace[n].done| == |trace[0].done| + Begun(trace, steps, n) - if Busy(trace[n]) then 1 else 0
    ensures trace[0].done <= trace[n].done
    ensures forall k :: |trace[0].done| <= k < |trace[n].done| ==> Honest(trace, steps, n, trace[n].done[k])
    ensures Busy(trace[n]) ==> exists i: nat :: HonestSince(trace, steps, i, n, trace[n].stage.report)
  {
    hide Next, HonestSince;
    if n > 0 {
      var m := n - 1;
      AudienceWasLive(trace, steps, m);
      assert Next(trace[m], steps[m], trace[m + 1]);
      StepReports(trace[m], steps[m], trace[n]);
      if Busy(trace[m]) {
        var i: nat :| HonestSince(trace, steps, i, m, trace[m].stage.report);
        GoesOn(trace, steps, i, m, trace[m].stage.report, if Busy(trace[n]) then trace[n].stage.report else trace[m].stage.report);
      } else if Busy(trace[n]) {
        BeginsHonest(trace, steps, m, trace[n].stage.report);
      }
      forall k | |trace[0].done| <= k < |trace[n].done| ensures Honest(trace, steps, n, trace[n].done[k]) {
        if k < |trace[m].done| {
          assert Honest(trace, steps, m, trace[m].done[k]);
        }
      }
    }
  }

  lemma BeginsHonest(trace: seq<World>, steps: seq<Step>, n: nat, r: Report)
    requires n < |steps| && Began(trace, steps, n, r) && r.dropped == multiset{}
    ensures HonestSince(trace, steps, n, n + 1, r)
  {
  }

  class Feed {
    var inbox: seq<Case>
    var sendCases: seq<Case>
    var phase: Phase
    var active: nat
    var nsent: nat
    var live: multiset<Case>      // subscriptions handed out and not yet gone
    var removing: multiset<Case>  // those whose removal waits for Send or its lock
    ghost var current: Report
    ghost var log: seq<Report>

    ghost predicate Valid()
      reads this
    {
      && Lists(sendCases, inbox, live) && removing <= Bag(sendCases[1..])
      && (forall i :: 0 <= i < |log| ==> Exact(log[i]))
      && ((phase.Trying? || phase.Selecting?) ==>
            1 <= active <= |sendCases| && Progress(sendCases, active, current) && nsent == current.nsent)
      && (phase.Trying? ==> 1 <= phase.next <= active) && (phase.Selecting? ==> active > 1)
    }

    /** What the cases, the inbox and the prefix stand for. */
    ghost function W(): World
      requires Valid()
      reads this
    {
      World(live, Bag(inbox), removing, match phase
        case Idle => Free
        case Locked => Taken
        case Trying(next) => Serving(current, Bag(sendCases[next..active]))
        case Selecting => Waiting(current), log)
    }

    constructor ()
      ensures Valid() && W() == World(multiset{}, multiset{}, multiset{}, Free, [])
    {
      inbox, sendCases, phase, active, nsent := [], [RemoveSub], Idle, 1, 0;
      live, removing, current, log := multiset{}, multiset{}, Report(multiset{}, [], multiset{}, 0), [];
    }

    /** Subscribe: the channel goes to the inbox, whether it is subscribed already or not. */
    method Subscribe(c: Case)
      requires Valid() && c.SendTo?
      modifies `inbox, `live
      ensures Valid() && Next(old(W()), Join(c), W())
    {
      hide Bag, Progress, Lists, Exact;
      ListsAdd(sendCases, inbox, live, c);
      inbox := inbox + [c];
      live := live + multiset{c};
    }

    /** remove, first part: a channel still in the inbox is deleted there and then. */
    method RemoveNew(c: Case) returns (done: bool)
      requires Valid() && removing[c] < live[c]
      modifies `inbox, `live, `removing
      ensures Valid() && Next(old(W()), Leave(c), W()) && (done <==> c in old(inbox))
    {
      hide Bag, Progress, Lists, Exact;
      BagHas(inbox, c);
      var index := Find(inbox, c);
      done := index != -1;
      if done {
        ListsDropNew(sendCases, inbox, live, index);
        inbox := Delete(inbox, index);
        live := live - multiset{c};
      } else {
        ListsLeave(sendCases, inbox, live, removing, c);
        removing := removing + multiset{c};
      }
    }

    /** remove, second part, when no Send is in progress. */
    method RemoveIdle(c: Case)
      requires Valid() && c in removing && phase.Idle?
      modifies `sendCases, `live, `removing
      ensures Valid() && Next(old(W()), LeaveIdle(c), W())
    {
      hide Bag, Progress, Lists, Exact;
      var index := DeleteFound(c);
    }

    /** Deletes the first case of a channel that is being removed; it is always found. */
    method DeleteFound(c: Case) returns (index: nat)
      requires Lists(sendCases, inbox, live) && removing <= Bag(sendCases[1..]) && c in removing
      modifies `sendCases, `live, `removing
      ensures 0 < index < |old(sendCases)| && old(sendCases)[index] == c && c !in old(sendCases)[..index] && c != RemoveSub
      ensures sendCases == Delete(old(sendCases), index)
      ensures Lists(sendCases, inbox, live) && removing <= Bag(sendCases[1..])
      ensures live == old(live) - multiset{c} && removing == old(removing) - multiset{c}
    {
      hide Bag, Lists;
      ListsFound(sendCases, inbox, live, c);
      index := Find(sendCases, c);
      ListsDrop(sendCases, inbox, live, index);
      sendCases := Delete(sendCases, index);
      live := live - multiset{c};
      removing := removing - multiset{c};
    }

    /** Send takes the send lock. */
    method Lock()
      requires Valid() && phase.Idle?
      modifies `phase
      ensures Valid() && Next(old(W()), Begin, W())
    {
      phase := Locked;
    }

    /** Send adds the inbox to the cases; its audience is everyone subscribed by now. */
    method Collect()
      requires Valid() && phase.Locked?
      modifies `phase, `sendCases, `inbox, `active, `nsent, `current
      ensures Valid() && Next(old(W()), Gather, W())
    {
      hide Bag, Lists, Progress, Exact;
      ListsCollect(sendCases, inbox, live);
      sendCases := sendCases + inbox;
      inbox := [];
      ProgressStart(sendCases);
      active, nsent, phase := |sendCases|, 0, Trying(1);
      current := Report(live, [], multiset{}, 0);
    }

    /** One delivery: the case is counted and swapped out of the prefix. */
    method Deliver(index: nat)
      requires Valid() && (phase.Selecting? || phase == Trying(index)) && 0 < index < active
      modifies `sendCases, `active, `nsent, `current, `phase
      ensures Valid() && sendCases == Deactivate(old(sendCases), old(active), index) && active == old(active) - 1
      ensures phase == Trying(if old(phase).Trying? then old(phase).next else 1)
      ensures current == Sent(old(current), old(sendCases)[index]) && old(sendCases)[index] in Left(old(current))
    {
      hide Bag, Lists, Progress, Exact, Deactivate;
      ListsDeactivate(sendCases, inbox, live, active, index);
      ProgressSent(sendCases, active, index, current);
      PrefixIsLeft(sendCases, active, current);
      current := Sent(current, sendCases[index]);
      sendCases := Deactivate(sendCases, active, index);
      active := active - 1;
      nsent := nsent + 1;
      phase := Trying(if phase.Trying? then phase.next else 1);
    }

    /** The fast path comes to the next case, given whether the channel can take the value. */
    method TryCase(ready: bool)
      requires Valid() && phase.Trying? && phase.next < active
      modifies `sendCases, `active, `nsent, `current, `phase
      ensures Valid() && phase.Trying? && Next(old(W()), Attempt(ready), W())
    {
      hide Bag, Lists, Progress, Exact, Deactivate;
      var next := phase.next;
      ghost var c := sendCases[next];
      NextTried(sendCases, active, next);
      if ready {
        Deliver(next);
      } else {
        phase := Trying(next + 1);
      }
      assert W() == old(W()).(stage := Serving(if ready then Sent(old(current), c) else old(current), old(W()).stage.untried - multiset{c}));
    }

    /** One iteration of the fast path. At the end of the prefix Send returns if nobody is
        left and selects otherwise. */
    method Try(ready: bool) returns (counts: seq<nat>)
      requires Valid() && phase.Trying?
      modifies `sendCases, `active, `nsent, `current, `phase, `log
      ensures Valid() && Next(old(W()), Attempt(ready), W())
      ensures log == old(log) + (if phase.Idle? then [current] else []) && counts == Counts(log[|old(log)|..])
    {
      hide Bag, Lists, Progress, Exact;
      counts := [];
      if phase.next < active {
        TryCase(ready);
      } else {
        PrefixIsLeft(sendCases, active, current);
        assert sendCases[active..active] == [];
        BagNone();
        if active == 1 {
          log := log + [current];
          phase := Idle;
          counts := [nsent];
        } else {
          assert sendCases[1] in Left(current);
          phase := Selecting;
        }
      }
    }

    /** Send's select receives a removal request. */
    method SelectRemove(c: Case)
      requires Valid() && phase.Selecting? && c in removing
      modifies `sendCases, `active, `current, `phase, `live, `removing
      ensures Valid() && Next(old(W()), LeaveSending(c), W())
    {
      hide Bag, Lists, Progress, Exact, Left, Without, Delete;
      ghost var cs := sendCases;
      ListsFound(cs, inbox, live, c);
      var index := DeleteFound(c);
      ProgressWithout(cs, active, index, current);
      DeleteLength(cs, active, index);
      current := Without(current, c);
      if index < active {
        active := active - 1;
      }
      phase := Trying(1);
    }

    /** Takes a step if the locks and channels permit it; what a Send returns is handed on. */
    method Take(step: Step) returns (counts: seq<nat>)
      requires Valid()
      modifies this
      ensures Valid() && Next(old(W()), step, W())
      ensures old(log) <= log && counts == Counts(log[|old(log)|..])
    {
      hide Bag, Lists, Progress, Exact, Left, Next;
      counts := [];
      Skips(W(), if step.Begin? || step.Gather? || step.Attempt? then RemoveSub else step.c, step.Attempt? && step.ready);
      match step {
        case Join(c) => if c.SendTo? { Subscribe(c); }
        case Leave(c) => if removing[c] < live[c] { var _ := RemoveNew(c); }
        case LeaveIdle(c) => if c in removing && phase.Idle? { RemoveIdle(c); }
        case Begin => if phase.Idle? { Lock(); }
        case Gather => if phase.Locked? { Collect(); }
        case Attempt(ready) => if phase.Trying? { counts := Try(ready); }
        case Chosen(c) => if phase.Selecting? { Choose(c); }
        case LeaveSending(c) => if c in removing && phase.Selecting? { SelectRemove(c); }
      }
    }

    /** Send's select delivers to one of those it waits for. */
    method Choose(c: Case)
      requires Valid() && phase.Selecting?
      modifies `sendCases, `active, `nsent, `current, `phase
      ensures Valid() && Next(old(W()), Chosen(c), W())
    {
      hide Bag, Lists, Progress, Exact, Deactivate;
      PrefixIsLeft(sendCases, active, current);
      var index := Find(sendCases, c);
      InPrefix(sendCases, inbox, live, active, c, index);
      if 0 < index < active {
        Deliver(index);
        PrefixIsLeft(sendCases, active, current);
      }
    }
  }

  /** Every interleaving: what cases, inbox and prefix stand for goes through exactly these
      steps, and the Sends return the numbers of their deliveries, each exactly once to each
      of its audience that had not left. */
  method Run(feed: Feed, steps: seq<Step>) returns (counts: seq<nat>, ghost trace: seq<World>)
    requires feed.Valid()
    modifies feed
    ensures feed.Valid() && Follows(trace, steps) && trace[0] == old(feed.W()) && trace[|steps|] == feed.W()
    ensures old(feed.log) <= feed.log && counts == Counts(feed.log[|old(feed.log)|..])
    ensures forall i :: 0 <= i < |feed.log| ==> Exact(feed.log[i])
  {
    hide Bag, Lists, Progress, Exact, Next;
    counts, trace := [], [feed.W()];
    for i := 0 to |steps|
      invariant feed.Valid() && old(feed.log) <= feed.log && counts == Counts(feed.log[|old(feed.log)|..])
      invariant |trace| == i + 1 && trace[0] == old(feed.W()) && trace[i] == feed.W()
      invariant forall k :: 0 <= k < i ==> Next(trace[k], steps[k], trace[k + 1])
    {
      ghost var log := feed.log;
      var more := feed.Take(steps[i]);
      assert feed.log[|old(feed.log)|..] == log[|old(feed.log)|..] + feed.log[|log|..];
      counts := counts + more;
      trace := trace + [feed.W()];
    }
  }
}
