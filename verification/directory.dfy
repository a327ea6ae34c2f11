/** The three collections of the program built on the two paging loops: open
    communities to the groups file (`get_all_groups`), closed ones as text lines
    (`get_closed`), and the ids the account is subscribed to (`get_current_subs`). */
module Directory {
  import opened Groups
  import opened Paging

  /** `[f(x) for x in xs if keep(x)]`: the loops of both collections append, in
      input order, one value for every entry the test keeps. */
  function Keep<A, B>(xs: seq<A>, keep: A -> bool, f: A -> B): (r: seq<B>)
    ensures |r| <= |xs|
  {
    if |xs| == 0 then []
    else (if keep(xs[0]) then [f(xs[0])] else []) + Keep(xs[1..], keep, f)
  }

  /** Keeping from two runs of entries keeps from the first, then from the
      second: the output keeps the input order and its repetitions. */
  lemma {:induction false} KeepAppend<A, B>(xs: seq<A>, ys: seq<A>, keep: A -> bool, f: A -> B)
    ensures Keep(xs + ys, keep, f) == Keep(xs, keep, f) + Keep(ys, keep, f)
    decreases |xs|
  {
    if |xs| == 0 {
      assert xs + ys == ys;
    } else {
      var h := if keep(xs[0]) then [f(xs[0])] else [];
      calc {
        Keep(xs + ys, keep, f);
        { assert (xs + ys)[0] == xs[0]; }
        h + Keep((xs + ys)[1..], keep, f);
        { assert (xs + ys)[1..] == xs[1..] + ys; }
        h + Keep(xs[1..] + ys, keep, f);
        { KeepAppend(xs[1..], ys, keep, f); }
        h + (Keep(xs[1..], keep, f) + Keep(ys, keep, f));
        h + Keep(xs[1..], keep, f) + Keep(ys, keep, f);
        Keep(xs, keep, f) + Keep(ys, keep, f);
      }
    }
  }

  /** A value is kept iff it is the image of an entry the test keeps. */
  lemma {:induction false} KeepMembers<A, B>(xs: seq<A>, keep: A -> bool, f: A -> B)
    ensures forall x :: x in xs && keep(x) ==> f(x) in Keep(xs, keep, f)
    ensures forall y :: y in Keep(xs, keep, f) ==> exists x :: x in xs && keep(x) && f(x) == y
    decreases |xs|
  {
    if |xs| > 0 {
      KeepMembers(xs[1..], keep, f);
      assert forall x :: x in xs ==> x == xs[0] || x in xs[1..];
    }
  }

  /** Records of the open entries, in order. */
  function OpenGroups(xs: seq<RawGroup>): seq<Group>
  {
    Keep(xs, IsOpen, ToGroup)
  }

  /** Lines of the closed entries, in order. */
  function ClosedLines(xs: seq<RawGroup>): seq<string>
  {
    Keep(xs, IsClosed, ClosedLine)
  }

  /** An entry's record is in the open list iff the entry is open. */
  lemma OpenGroupsMembers(xs: seq<RawGroup>)
    ensures forall x :: x in xs && IsOpen(x) ==> ToGroup(x) in OpenGroups(xs)
    ensures forall g :: g in OpenGroups(xs) ==> exists x :: x in xs && IsOpen(x) && ToGroup(x) == g
  {
    KeepMembers(xs, IsOpen, ToGroup);
  }

  /** An entry's line is in the closed list iff the entry is closed or deactivated. */
  lemma ClosedLinesMembers(xs: seq<RawGroup>)
    ensures forall x :: x in xs && IsClosed(x) ==> ClosedLine(x) in ClosedLines(xs)
    ensures forall l :: l in ClosedLines(xs) ==> exists x :: x in xs && IsClosed(x) && ClosedLine(x) == l
  {
    KeepMembers(xs, IsClosed, ClosedLine);
  }

  /** The open list of two runs of entries is the open list of the first
      followed by that of the second: records keep the input order, and an
      entry listed twice in the input is listed twice in the file. */
  lemma OpenGroupsAppend(xs: seq<RawGroup>, ys: seq<RawGroup>)
    ensures OpenGroups(xs + ys) == OpenGroups(xs) + OpenGroups(ys)
  {
    KeepAppend(xs, ys, IsOpen, ToGroup);
  }

  /** The closed lines of two runs of entries, likewise in input order. */
  lemma ClosedLinesAppend(xs: seq<RawGroup>, ys: seq<RawGroup>)
    ensures ClosedLines(xs + ys) == ClosedLines(xs) + ClosedLines(ys)
  {
    KeepAppend(xs, ys, IsClosed, ClosedLine);
  }

  /** Number of entries that carry neither `is_closed` nor a deactivation reason. */
  function Unclassified(xs: seq<RawGroup>): nat
  {
    if |xs| == 0 then 0
    else (if !IsOpen(xs[0]) && !IsClosed(xs[0]) then 1 else 0) + Unclassified(xs[1..])
  }

  /** `get_all_groups`: every open entry of every page read is written, and nothing else. */
  function GetAllGroups(remote: seq<Page<RawGroup>>): (r: seq<Group>)
    ensures forall x :: x in Collect(remote).items && IsOpen(x) ==> ToGroup(x) in r
    ensures forall g :: g in r ==> exists x :: x in Collect(remote).items && IsOpen(x) && ToGroup(x) == g
  {
    OpenGroupsMembers(Collect(remote).items);
    OpenGroups(Collect(remote).items)
  }

  /** `get_closed`: every closed or deactivated entry of every page read gets a line, and nothing else. */
  function GetClosed(remote: seq<Page<RawGroup>>): (r: seq<string>)
    ensures forall x :: x in Collect(remote).items && IsClosed(x) ==> ClosedLine(x) in r
    ensures forall l :: l in r ==> exists x :: x in Collect(remote).items && IsClosed(x) && ClosedLine(x) == l
  {
    ClosedLinesMembers(Collect(remote).items);
    ClosedLines(Collect(remote).items)
  }

  /** The groups file and the closed file grow page by page: the entries of
      response `k` add their records and lines after those of earlier responses. */
  lemma FilesByPage(remote: seq<Page<RawGroup>>, k: nat)
    ensures OpenGroups(Received(remote, k + 1))
         == OpenGroups(Received(remote, k)) + OpenGroups(ItemsOf(PageAt(remote, k)))
    ensures ClosedLines(Received(remote, k + 1))
         == ClosedLines(Received(remote, k)) + ClosedLines(ItemsOf(PageAt(remote, k)))
  {
    OpenGroupsAppend(Received(remote, k), ItemsOf(PageAt(remote, k)));
    ClosedLinesAppend(Received(remote, k), ItemsOf(PageAt(remote, k)));
  }

  /** `get_current_subs`: the absolute value of every item received, and only those. */
  function GetCurrentSubs(remote: seq<Page<int>>): (r: set<nat>)
    ensures forall x :: x in Received(remote, |Subscriptions(remote).offsets|) ==> Canon(x) in r
    ensures forall y :: y in r ==> exists x :: x in Received(remote, |Subscriptions(remote).offsets|) && Canon(x) == y
  {
    Subscriptions(remote).ids
  }

  /** Every entry lands in exactly one of: the open list, the closed list, neither. */
  lemma {:induction false} ClassificationPartition(xs: seq<RawGroup>)
    ensures |OpenGroups(xs)| + |ClosedLines(xs)| + Unclassified(xs) == |xs|
    decreases |xs|
  {
    if |xs| > 0 {
      Classification(xs[0]);
      ClassificationPartition(xs[1..]);
    }
  }
}
