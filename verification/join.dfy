/** Join reconciliation (`join_groups`): walk a block of groups in order, skip
    those whose canonical id is already subscribed, try to join the rest, and
    tally the outcome. The remote is replaced by the sequence of replies it
    gives to the join calls, consumed one per attempted group. */
module Join {
  import opened Groups

  /** The remote's answer to one `groups.join` call: success, a declared API
      error with its message, or any other exception. */
  datatype Reply = Ok | ApiError(message: string) | OtherError

  /** What the run records for one group. A failure says whether a log line is
      written and the pause that follows it, in multiples of the request delay. */
  datatype Step = Skipped | Joined | Failed(logged: bool, pause: nat)

  /** The message of the declared error whose log line is suppressed. */
  const AlreadyMember: string := "Access denied: you are already in this community"

  /** `p` occurs somewhere in `s` (Python's `p in s`). */
  predicate Contains(s: string, p: string)
    decreases |s|
  {
    p <= s || (|s| > 0 && Contains(s[1..], p))
  }

  /** The record of an attempted join: only success joins; every error is a
      failure, never a skip; a failure pauses 2 units after a declared error and
      3 after any other; only the already-member message goes unlogged. */
  function Judge(reply: Reply): (s: Step)
    ensures !s.Skipped?
    ensures s.Joined? <==> reply.Ok?
    ensures s.Failed? ==> s.pause >= 2
    ensures s.Failed? && !s.logged <==> reply.ApiError? && Contains(reply.message, AlreadyMember)
  {
    match reply
    case Ok => Joined
    case ApiError(m) => Failed(!Contains(m, AlreadyMember), 2)
    case OtherError => Failed(true, 3)
  }

  /** The state of a run: the subscription set, the three counters, the failure
      lines, the per-group records, and how many replies have been consumed. */
  datatype Tally = Tally(subs: set<int>, success: nat, failed: nat, skipped: nat,
                         failedLines: seq<string>, steps: seq<Step>, used: nat)

  /** One iteration of the loop of `join_groups`. */
  function Visit(t: Tally, g: Group, replies: seq<Reply>): Tally
    requires t.used < |replies|
  {
    var gid := Canon(g.id);
    if gid in t.subs then
      t.(skipped := t.skipped + 1, steps := t.steps + [Skipped])
    else
      var s := Judge(replies[t.used]);
      var t' := t.(used := t.used + 1, steps := t.steps + [s]);
      if s.Joined? then t'.(subs := t.subs + {gid}, success := t.success + 1)
      else t'.(failed := t.failed + 1, failedLines := t.failedLines + [FailureLine(g.name, gid)])
  }

  function Joins(steps: seq<Step>): nat
  {
    if |steps| == 0 then 0 else Joins(steps[..|steps| - 1]) + (if steps[|steps| - 1].Joined? then 1 else 0)
  }

  function Skips(steps: seq<Step>): nat
  {
    if |steps| == 0 then 0 else Skips(steps[..|steps| - 1]) + (if steps[|steps| - 1].Skipped? then 1 else 0)
  }

  function Failures(steps: seq<Step>): nat
  {
    if |steps| == 0 then 0 else Failures(steps[..|steps| - 1]) + (if steps[|steps| - 1].Failed? then 1 else 0)
  }

  /** The failure line of every failed group, in input order. */
  function FailureLines(groups: seq<Group>, steps: seq<Step>): seq<string>
    requires |steps| == |groups|
  {
    if |groups| == 0 then []
    else
      var n := |groups| - 1;
      FailureLines(groups[..n], steps[..n])
      + (if steps[n].Failed? then [FailureLine(groups[n].name, Canon(groups[n].id))] else [])
  }

  /** `join_groups` over a block. Every group gets exactly one record; the
      counters count the records and add up to the block size; there is one
      failure line per failure, in order; one reply is consumed per attempted
      group; the subscription set only grows. */
  function JoinGroups(groups: seq<Group>, subs: set<int>, replies: seq<Reply>): (t: Tally)
    requires |groups| <= |replies|
    ensures |t.steps| == |groups|
    ensures t.success + t.failed + t.skipped == |groups|
    ensures |t.failedLines| == t.failed
    ensures t.used == t.success + t.failed
    ensures subs <= t.subs
    decreases |groups|
  {
    if |groups| == 0 then Tally(subs, 0, 0, 0, [], [], 0)
    else
      var n := |groups| - 1;
      var t := JoinGroups(groups[..n], subs, replies);
      var t' := Visit(t, groups[n], replies);
      assert t'.steps[..n] == t.steps;
      t'
  }

  /** The three counters count the per-group records. */
  lemma {:induction false} CountersCountSteps(groups: seq<Group>, subs: set<int>, replies: seq<Reply>)
    requires |groups| <= |replies|
    ensures var t := JoinGroups(groups, subs, replies);
            t.success == Joins(t.steps) && t.failed == Failures(t.steps) && t.skipped == Skips(t.steps)
    decreases |groups|
  {
    if |groups| > 0 {
      var n := |groups| - 1;
      var front := groups[..n];
      CountersCountSteps(front, subs, replies);
      var p := JoinGroups(front, subs, replies);
      VisitFacts(p, groups[n], replies);
      var t := JoinGroups(groups, subs, replies);
      assert t == Visit(p, groups[n], replies);
      var s := t.steps[n];
      assert t.steps == p.steps + [s];
      CountsAppend(p.steps, s);
      assert t.success == p.success + (if s.Joined? then 1 else 0);
      assert t.failed == p.failed + (if s.Failed? then 1 else 0);
      assert t.skipped == p.skipped + (if s.Skipped? then 1 else 0);
    }
  }

  /** Appending one record adds one to the count of its kind only. */
  lemma CountsAppend(steps: seq<Step>, s: Step)
    ensures Joins(steps + [s]) == Joins(steps) + (if s.Joined? then 1 else 0)
    ensures Failures(steps + [s]) == Failures(steps) + (if s.Failed? then 1 else 0)
    ensures Skips(steps + [s]) == Skips(steps) + (if s.Skipped? then 1 else 0)
  {
    assert (steps + [s])[..|steps|] == steps;
  }

  /** The failure list holds the line of every failed group and nothing else, in input order. */
  lemma {:induction false} FailedLinesInOrder(groups: seq<Group>, subs: set<int>, replies: seq<Reply>)
    requires |groups| <= |replies|
    ensures JoinGroups(groups, subs, replies).failedLines == FailureLines(groups, JoinGroups(groups, subs, replies).steps)
    decreases |groups|
  {
    if |groups| > 0 {
      var n := |groups| - 1;
      var front := groups[..n];
      FailedLinesInOrder(front, subs, replies);
      var p := JoinGroups(front, subs, replies);
      var t := JoinGroups(groups, subs, replies);
      VisitFacts(p, groups[n], replies);
      assert t.steps[..n] == p.steps;
    }
  }

  /** One visit appends the group's record; only a success grows the set; only an attempt uses a reply. */
  lemma VisitFacts(t: Tally, g: Group, replies: seq<Reply>)
    requires t.used < |replies|
    ensures var v := Visit(t, g, replies);
            var s := if Canon(g.id) in t.subs then Skipped else Judge(replies[t.used]);
            && v.steps == t.steps + [s]
            && v.subs == (if s.Joined? then t.subs + {Canon(g.id)} else t.subs)
            && v.success == t.success + (if s.Joined? then 1 else 0)
            && v.failed == t.failed + (if s.Failed? then 1 else 0)
            && v.skipped == t.skipped + (if s.Skipped? then 1 else 0)
            && v.failedLines == t.failedLines + (if s.Failed? then [FailureLine(g.name, Canon(g.id))] else [])
  {
  }

  /** The state after the first `i` groups is the state the (i+1)-th group is judged on. */
  lemma NextGroup(groups: seq<Group>, subs: set<int>, replies: seq<Reply>, i: nat)
    requires i < |groups| <= |replies|
    ensures JoinGroups(groups[..i + 1], subs, replies)
         == Visit(JoinGroups(groups[..i], subs, replies), groups[i], replies)
  {
    assert groups[..i + 1][..i] == groups[..i];
  }

  /** Processing more groups keeps the records made so far. */
  lemma {:induction false} PrefixSteps(groups: seq<Group>, subs: set<int>, replies: seq<Reply>, i: nat)
    requires i <= |groups| <= |replies|
    ensures JoinGroups(groups[..i], subs, replies).steps == JoinGroups(groups, subs, replies).steps[..i]
    decreases |groups| - i
  {
    if i == |groups| {
      assert groups[..i] == groups;
    } else {
      var n := |groups| - 1;
      var front := groups[..n];
      PrefixSteps(front, subs, replies, i);
      assert front[..i] == groups[..i];
      var p := JoinGroups(front, subs, replies);
      var t := JoinGroups(groups, subs, replies);
      assert t == Visit(p, groups[n], replies);
      VisitFacts(p, groups[n], replies);
      assert t.steps[..i] == p.steps[..i];
    }
  }

  /** Processing more groups never shrinks the set. */
  lemma {:induction false} PrefixSubs(groups: seq<Group>, subs: set<int>, replies: seq<Reply>, i: nat)
    requires i <= |groups| <= |replies|
    ensures JoinGroups(groups[..i], subs, replies).subs <= JoinGroups(groups, subs, replies).subs
    decreases |groups| - i
  {
    if i == |groups| {
      assert groups[..i] == groups;
    } else {
      var n := |groups| - 1;
      var front := groups[..n];
      PrefixSubs(front, subs, replies, i);
      assert front[..i] == groups[..i];
      var p := JoinGroups(front, subs, replies);
      var t := JoinGroups(groups, subs, replies);
      assert t == Visit(p, groups[n], replies);
      assert p.subs <= t.subs;
    }
  }

  /** The record of group `i` and the set after it, in terms of the state the
      groups before it left: skipped when its canonical id is in the set,
      otherwise judged on the next unused reply and added to the set on success. */
  lemma StepAt(groups: seq<Group>, subs: set<int>, replies: seq<Reply>, i: nat)
    requires i < |groups| <= |replies|
    ensures var p := JoinGroups(groups[..i], subs, replies);
            var s := JoinGroups(groups, subs, replies).steps[i];
            && p.used < |replies|
            && s == (if Canon(groups[i].id) in p.subs then Skipped else Judge(replies[p.used]))
            && JoinGroups(groups[..i + 1], subs, replies).subs
               == (if s.Joined? then p.subs + {Canon(groups[i].id)} else p.subs)
  {
    var p := JoinGroups(groups[..i], subs, replies);
    var q := JoinGroups(groups[..i + 1], subs, replies);
    NextGroup(groups, subs, replies, i);
    VisitFacts(p, groups[i], replies);
    PrefixSteps(groups, subs, replies, i + 1);
    assert q.steps[i] == JoinGroups(groups, subs, replies).steps[i];
  }

  /** Group `i` is skipped exactly when its canonical id is already in the set when its turn comes. */
  lemma SkipRule(groups: seq<Group>, subs: set<int>, replies: seq<Reply>, i: nat)
    requires i < |groups| <= |replies|
    ensures JoinGroups(groups, subs, replies).steps[i].Skipped?
        <==> Canon(groups[i].id) in JoinGroups(groups[..i], subs, replies).subs
  {
    StepAt(groups, subs, replies, i);
  }

  /** An attempted group is judged on the next unused reply: the one after as
      many replies as there were attempts before it. */
  lemma ReplyOrder(groups: seq<Group>, subs: set<int>, replies: seq<Reply>, i: nat)
    requires i < |groups| <= |replies|
    requires !JoinGroups(groups, subs, replies).steps[i].Skipped?
    ensures var before := JoinGroups(groups, subs, replies).steps[..i];
            Joins(before) + Failures(before) < |replies| &&
            JoinGroups(groups, subs, replies).steps[i] == Judge(replies[Joins(before) + Failures(before)])
  {
    StepAt(groups, subs, replies, i);
    PrefixSteps(groups, subs, replies, i);
    CountersCountSteps(groups[..i], subs, replies);
  }

  /** The set after the first `i` groups is contained in the set after the first `j >= i`. */
  lemma SubsMonotone(groups: seq<Group>, subs: set<int>, replies: seq<Reply>, i: nat, j: nat)
    requires i <= j <= |groups| <= |replies|
    ensures JoinGroups(groups[..i], subs, replies).subs <= JoinGroups(groups[..j], subs, replies).subs
  {
    PrefixSubs(groups[..j], subs, replies, i);
    assert groups[..j][..i] == groups[..i];
  }

  /** A successful join puts the canonical id into the set. */
  lemma JoinedAdds(groups: seq<Group>, subs: set<int>, replies: seq<Reply>, i: nat)
    requires i < |groups| <= |replies|
    requires JoinGroups(groups, subs, replies).steps[i].Joined?
    ensures Canon(groups[i].id) in JoinGroups(groups[..i + 1], subs, replies).subs
  {
    StepAt(groups, subs, replies, i);
  }

  /** The final set is the initial one plus exactly the canonical ids of the successful joins. */
  lemma {:induction false} SubsGained(groups: seq<Group>, subs: set<int>, replies: seq<Reply>)
    requires |groups| <= |replies|
    ensures forall x :: x in JoinGroups(groups, subs, replies).subs <==>
      x in subs || exists i :: 0 <= i < |groups| && JoinGroups(groups, subs, replies).steps[i].Joined? && Canon(groups[i].id) == x
    decreases |groups|
  {
    if |groups| > 0 {
      var n := |groups| - 1;
      var t := JoinGroups(groups, subs, replies);
      var p := JoinGroups(groups[..n], subs, replies);
      SubsGained(groups[..n], subs, replies);
      assert t.steps[..n] == p.steps;
      forall x | x in t.subs
        ensures x in subs || exists i :: 0 <= i < |groups| && t.steps[i].Joined? && Canon(groups[i].id) == x
      {
        if x !in p.subs {
          assert t.steps[n].Joined? && Canon(groups[n].id) == x;
        }
      }
    }
  }

  /** A canonical id that occurs twice in a block is joined at most once: after
      a success every later occurrence is skipped. */
  lemma JoinedOnce(groups: seq<Group>, subs: set<int>, replies: seq<Reply>, i: nat, j: nat)
    requires i < j < |groups| <= |replies|
    requires Canon(groups[i].id) == Canon(groups[j].id)
    requires JoinGroups(groups, subs, replies).steps[i].Joined?
    ensures JoinGroups(groups, subs, replies).steps[j].Skipped?
  {
    JoinedAdds(groups, subs, replies, i);
    SubsMonotone(groups, subs, replies, i + 1, j);
    SkipRule(groups, subs, replies, j);
  }

  /** A failure never adds the group to the set at its turn. */
  lemma FailureAddsNothing(groups: seq<Group>, subs: set<int>, replies: seq<Reply>, i: nat)
    requires i < |groups| <= |replies|
    requires JoinGroups(groups, subs, replies).steps[i].Failed?
    ensures JoinGroups(groups[..i + 1], subs, replies).subs == JoinGroups(groups[..i], subs, replies).subs
    ensures Canon(groups[i].id) !in JoinGroups(groups[..i + 1], subs, replies).subs
  {
    StepAt(groups, subs, replies, i);
  }

  /** A group that was joined or skipped ends the run with its canonical id in the set. */
  lemma KeptInSet(groups: seq<Group>, subs: set<int>, replies: seq<Reply>, i: nat)
    requires i < |groups| <= |replies|
    requires !JoinGroups(groups, subs, replies).steps[i].Failed?
    ensures Canon(groups[i].id) in JoinGroups(groups, subs, replies).subs
  {
    var n := |groups|;
    assert groups[..n] == groups;
    if JoinGroups(groups, subs, replies).steps[i].Joined? {
      JoinedAdds(groups, subs, replies, i);
      SubsMonotone(groups, subs, replies, i + 1, n);
    } else {
      SkipRule(groups, subs, replies, i);
      SubsMonotone(groups, subs, replies, i, n);
    }
  }

  /** Running the same block again with the set the first run left skips
      every group the first run joined or skipped. */
  lemma Rerun(groups: seq<Group>, subs: set<int>, first: seq<Reply>, second: seq<Reply>, i: nat)
    requires i < |groups| <= |first| && |groups| <= |second|
    requires !JoinGroups(groups, subs, first).steps[i].Failed?
    ensures JoinGroups(groups, JoinGroups(groups, subs, first).subs, second).steps[i].Skipped?
  {
    var t1 := JoinGroups(groups, subs, first);
    KeptInSet(groups, subs, first, i);
    assert Canon(groups[i].id) in JoinGroups(groups[..i], t1.subs, second).subs;
    SkipRule(groups, t1.subs, second, i);
  }

  lemma {:induction false} JoinsBoundedByFailures(a: seq<Step>, b: seq<Step>)
    requires |a| == |b|
    requires forall i :: 0 <= i < |b| && b[i].Joined? ==> a[i].Failed?
    ensures Joins(b) <= Failures(a)
    decreases |a|
  {
    if |a| > 0 {
      var n := |a| - 1;
      JoinsBoundedByFailures(a[..n], b[..n]);
    }
  }

  /** In the second run only groups that failed in the first can be joined. */
  lemma RerunJoinsOnlyFailed(groups: seq<Group>, subs: set<int>, first: seq<Reply>, second: seq<Reply>)
    requires |groups| <= |first| && |groups| <= |second|
    ensures var t1 := JoinGroups(groups, subs, first);
            var t2 := JoinGroups(groups, t1.subs, second);
            forall i :: 0 <= i < |groups| && t2.steps[i].Joined? ==> t1.steps[i].Failed?
  {
    var t1 := JoinGroups(groups, subs, first);
    var t2 := JoinGroups(groups, t1.subs, second);
    forall i | 0 <= i < |groups| && t2.steps[i].Joined?
      ensures t1.steps[i].Failed?
    {
      if !t1.steps[i].Failed? {
        Rerun(groups, subs, first, second, i);
      }
    }
  }

  /** Hence the second run joins no more groups than the first one failed. */
  lemma RerunCount(groups: seq<Group>, subs: set<int>, first: seq<Reply>, second: seq<Reply>)
    requires |groups| <= |first| && |groups| <= |second|
    ensures JoinGroups(groups, JoinGroups(groups, subs, first).subs, second).success
         <= JoinGroups(groups, subs, first).failed
  {
    var t1 := JoinGroups(groups, subs, first);
    var t2 := JoinGroups(groups, t1.subs, second);
    CountersCountSteps(groups, subs, first);
    CountersCountSteps(groups, t1.subs, second);
    RerunJoinsOnlyFailed(groups, subs, first, second);
    JoinsBoundedByFailures(t1.steps, t2.steps);
  }

  /** The example block: `[{1,"A"}, {-2,"B"}, {3,"C"}]` with the set `{2}`. */
  lemma ExampleBlock(r1: Reply, r2: Reply, r3: Reply)
    requires r1.Ok? && r2.Ok?
    ensures var t := JoinGroups([Group(1, "A"), Group(-2, "B"), Group(3, "C")], {2}, [r1, r2, r3]);
            t.steps == [Joined, Skipped, Joined] && t.success == 2 && t.skipped == 1 && t.failed == 0
  {
    var gs := [Group(1, "A"), Group(-2, "B"), Group(3, "C")];
    var rs := [r1, r2, r3];
    assert gs[..2][..1] == gs[..1] && gs[..1][..0] == [] && gs[..3] == gs;
    var t1 := JoinGroups(gs[..1], {2}, rs);
    assert t1 == Visit(JoinGroups([], {2}, rs), gs[0], rs);
    assert t1.steps == [Joined] && t1.subs == {2, 1} && t1.used == 1;
    var t2 := JoinGroups(gs[..2], {2}, rs);
    assert t2 == Visit(t1, gs[1], rs);
    assert t2.steps == [Joined, Skipped] && t2.used == 1;
    var t3 := JoinGroups(gs, {2}, rs);
    assert t3 == Visit(t2, gs[2], rs);
  }

  /** Pauses grow with the severity of the error; a success pauses not at all. */
  lemma BackoffOrdering(message: string)
    ensures Judge(ApiError(message)).pause < Judge(OtherError).pause
    ensures Judge(Ok).Joined?
  {
  }
}
