/** The two pagination rules of the program, with the remote service replaced
    by the finite sequence of responses it gives, indexed by call number. A
    call past the end of that sequence is answered with an empty page; this is
    the model's convention, and it makes both loops terminate.

    - `Collect` is the loop of `get_all_groups` and `get_closed`: it stops after
      three consecutive empty pages or at the first failed call.
    - `Subscriptions` is the loop of `get_current_subs`: it stops at the first
      page shorter than the requested size or at the first failed call. */
module Paging {
  import opened Groups

  /** Items requested per call (`count=1000`); the offset advances by this much. */
  const PageSize: nat := 1000

  /** Consecutive empty pages after which the open/closed collection gives up. */
  const EmptyLimit: nat := 3

  /** One response: the page's `items` (an absent `items` reads as empty), or an exception. */
  datatype Page<T> = Items(items: seq<T>) | Fault

  function PageAt<T>(remote: seq<Page<T>>, k: nat): Page<T>
  {
    if k < |remote| then remote[k] else Items([])
  }

  function ItemsOf<T>(p: Page<T>): seq<T>
  {
    if p.Items? then p.items else []
  }

  /** All items of the first `n` responses, in call order. */
  function Received<T>(remote: seq<Page<T>>, n: nat): seq<T>
  {
    if n == 0 then [] else Received(remote, n - 1) + ItemsOf(PageAt(remote, n - 1))
  }

  predicate EmptyAt<T>(remote: seq<Page<T>>, k: nat)
  {
    PageAt(remote, k).Items? && |PageAt(remote, k).items| == 0
  }

  /** Call `k` returned the third of three consecutive empty pages. */
  predicate ThirdEmptyAt<T>(remote: seq<Page<T>>, k: nat)
  {
    k >= 2 && EmptyAt(remote, k - 2) && EmptyAt(remote, k - 1) && EmptyAt(remote, k)
  }

  /** The empty-page counter before call `k`: empty responses directly preceding it. */
  function EmptyRun<T>(remote: seq<Page<T>>, k: nat): nat
  {
    if k == 0 || !EmptyAt(remote, k - 1) then 0 else 1 + EmptyRun(remote, k - 1)
  }

  datatype Stop = ThreeEmpty | Error

  /** Outcome of an open/closed collection: the items accumulated, the offset
      of every request made, and why the loop ended. */
  datatype Crawl<T> = Crawl(items: seq<T>, offsets: seq<nat>, stop: Stop)

  /** The `n` requests were made at offsets 0, 1000, 2000, ... */
  ghost predicate Offsets(offsets: seq<nat>, n: nat)
  {
    |offsets| == n && forall i :: 0 <= i < n ==> offsets[i] == PageSize * i
  }

  /** Neither stop condition held at any of the first `n` calls. */
  ghost predicate RanOn<T>(remote: seq<Page<T>>, n: nat)
  {
    forall i :: 0 <= i < n ==> !PageAt(remote, i).Fault? && !ThirdEmptyAt(remote, i)
  }

  lemma OffsetsStep(offsets: seq<nat>, k: nat)
    requires Offsets(offsets, k)
    ensures Offsets(offsets + [PageSize * k], k + 1)
  {
  }

  lemma RanOnStep<T>(remote: seq<Page<T>>, k: nat)
    requires RanOn(remote, k)
    requires !PageAt(remote, k).Fault? && !ThirdEmptyAt(remote, k)
    ensures RanOn(remote, k + 1)
  {
  }

  /** The loop from call `k` on, with the request offset, the empty-page
      counter, the items so far and the offsets requested so far. */
  function CollectFrom<T>(remote: seq<Page<T>>, k: nat, offset: nat, empty: nat, acc: seq<T>, offsets: seq<nat>): (r: Crawl<T>)
    requires empty < EmptyLimit
    ensures |r.offsets| > |offsets|
    decreases if k < |remote| then |remote| - k else 0, EmptyLimit - empty
  {
    var sent := offsets + [offset];
    match PageAt(remote, k)
    case Fault => Crawl(acc, sent, Error)
    case Items(xs) =>
      if |xs| == 0 then
        if empty + 1 >= EmptyLimit then Crawl(acc, sent, ThreeEmpty)
        else CollectFrom(remote, k + 1, offset + PageSize, empty + 1, acc, sent)
      else CollectFrom(remote, k + 1, offset + PageSize, 0, acc + xs, sent)
  }

  /** The k-th request goes to offset 1000*k, after empty and non-empty pages alike. */
  lemma {:induction false} CollectOffsets<T>(remote: seq<Page<T>>, k: nat, offset: nat, empty: nat, acc: seq<T>, offsets: seq<nat>)
    requires offset == PageSize * k && Offsets(offsets, k)
    requires empty < EmptyLimit
    ensures var r := CollectFrom(remote, k, offset, empty, acc, offsets);
            |r.offsets| > k && Offsets(r.offsets, |r.offsets|)
    decreases if k < |remote| then |remote| - k else 0, EmptyLimit - empty
  {
    OffsetsStep(offsets, k);
    var page := PageAt(remote, k);
    if page.Items? {
      var xs := page.items;
      if |xs| == 0 {
        if empty + 1 < EmptyLimit {
          CollectOffsets(remote, k + 1, offset + PageSize, empty + 1, acc, offsets + [offset]);
        }
      } else {
        CollectOffsets(remote, k + 1, offset + PageSize, 0, acc + xs, offsets + [offset]);
      }
    }
  }

  /** The items collected are those of every response received, in order. */
  lemma {:induction false} CollectItems<T>(remote: seq<Page<T>>, k: nat, offset: nat, empty: nat, acc: seq<T>, offsets: seq<nat>)
    requires |offsets| == k && acc == Received(remote, k)
    requires empty < EmptyLimit
    ensures var r := CollectFrom(remote, k, offset, empty, acc, offsets);
            r.items == Received(remote, |r.offsets|)
    decreases if k < |remote| then |remote| - k else 0, EmptyLimit - empty
  {
    var page := PageAt(remote, k);
    if page.Items? {
      var xs := page.items;
      assert Received(remote, k + 1) == acc + xs;
      if |xs| == 0 {
        if empty + 1 < EmptyLimit {
          CollectItems(remote, k + 1, offset + PageSize, empty + 1, acc, offsets + [offset]);
        }
      } else {
        CollectItems(remote, k + 1, offset + PageSize, 0, acc + xs, offsets + [offset]);
      }
    }
  }

  /** The loop ends at the first call that fails or completes three consecutive
      empty pages, and at no earlier call. */
  lemma {:induction false} CollectStops<T>(remote: seq<Page<T>>, k: nat, offset: nat, empty: nat, acc: seq<T>, offsets: seq<nat>)
    requires |offsets| == k
    requires empty == EmptyRun(remote, k) && empty < EmptyLimit
    requires RanOn(remote, k)
    ensures var r := CollectFrom(remote, k, offset, empty, acc, offsets);
            && RanOn(remote, |r.offsets| - 1)
            && (r.stop == Error <==> PageAt(remote, |r.offsets| - 1).Fault?)
            && (r.stop == ThreeEmpty <==> ThirdEmptyAt(remote, |r.offsets| - 1))
    decreases if k < |remote| then |remote| - k else 0, EmptyLimit - empty
  {
    var page := PageAt(remote, k);
    if page.Items? {
      var xs := page.items;
      if |xs| == 0 {
        ThirdEmptyRun(remote, k);
        if empty + 1 < EmptyLimit {
          RanOnStep(remote, k);
          CollectStops(remote, k + 1, offset + PageSize, empty + 1, acc, offsets + [offset]);
        }
      } else {
        RanOnStep(remote, k);
        CollectStops(remote, k + 1, offset + PageSize, 0, acc + xs, offsets + [offset]);
      }
    }
  }

  /** The paging loop of `get_all_groups` and `get_closed`. With `n` requests
      made: the k-th went to offset 1000*k; the items are those of all `n`
      responses in order, so a failed call keeps what came before it; no
      earlier call failed or completed three consecutive empty pages, and the
      last one did exactly one of the two. */
  function Collect<T>(remote: seq<Page<T>>): (r: Crawl<T>)
    ensures |r.offsets| > 0 && Offsets(r.offsets, |r.offsets|)
    ensures r.items == Received(remote, |r.offsets|)
    ensures RanOn(remote, |r.offsets| - 1)
    ensures r.stop == Error <==> PageAt(remote, |r.offsets| - 1).Fault?
    ensures r.stop == ThreeEmpty <==> ThirdEmptyAt(remote, |r.offsets| - 1)
  {
    CollectOffsets(remote, 0, 0, 0, [], []);
    CollectItems(remote, 0, 0, 0, [], []);
    CollectStops(remote, 0, 0, 0, [], []);
    CollectFrom(remote, 0, 0, 0, [], [])
  }

  /** Outcome of the subscription sweep: canonical ids gathered, offsets requested. */
  datatype Sweep = Sweep(ids: set<nat>, offsets: seq<nat>)

  function CanonSet(xs: seq<int>): set<nat>
  {
    set x | x in xs :: Canon(x)
  }

  /** Call `k` returned a page at least as long as requested. */
  predicate FullAt(remote: seq<Page<int>>, k: nat)
  {
    PageAt(remote, k).Items? && |PageAt(remote, k).items| >= PageSize
  }

  function SubscriptionsFrom(remote: seq<Page<int>>, k: nat, offset: nat, acc: set<nat>, offsets: seq<nat>): (r: Sweep)
    requires offset == PageSize * k && Offsets(offsets, k)
    requires acc == CanonSet(Received(remote, k))
    requires forall i :: 0 <= i < k ==> FullAt(remote, i)
    ensures |r.offsets| > k && Offsets(r.offsets, |r.offsets|)
    ensures r.ids == CanonSet(Received(remote, |r.offsets|))
    ensures forall i :: 0 <= i < |r.offsets| - 1 ==> FullAt(remote, i)
    ensures !FullAt(remote, |r.offsets| - 1)
    decreases |remote| - k
  {
    match PageAt(remote, k)
    case Fault => Sweep(acc, offsets + [offset])
    case Items(xs) =>
      var ids := acc + CanonSet(xs);
      assert ids == CanonSet(Received(remote, k) + xs);
      if |xs| < PageSize then Sweep(ids, offsets + [offset])
      else SubscriptionsFrom(remote, k + 1, offset + PageSize, ids, offsets + [offset])
  }

  /** The paging loop of `get_current_subs`. With `n` requests made: the k-th
      went to offset 1000*k; every response before the last was a full page and
      the last was short or failed; the ids are the absolute values of every
      item received, the short last page included. */
  function Subscriptions(remote: seq<Page<int>>): (r: Sweep)
    ensures |r.offsets| > 0 && Offsets(r.offsets, |r.offsets|)
    ensures r.ids == CanonSet(Received(remote, |r.offsets|))
    ensures forall i :: 0 <= i < |r.offsets| - 1 ==> FullAt(remote, i)
    ensures !FullAt(remote, |r.offsets| - 1)
  {
    SubscriptionsFrom(remote, 0, 0, {}, [])
  }

  /** On an empty page the counter reaches the limit exactly at the third consecutive empty page. */
  lemma ThirdEmptyRun<T>(remote: seq<Page<T>>, k: nat)
    requires EmptyAt(remote, k)
    ensures ThirdEmptyAt(remote, k) <==> EmptyRun(remote, k) >= 2
  {
    if k >= 1 && EmptyAt(remote, k - 1) {
      assert EmptyRun(remote, k) == 1 + EmptyRun(remote, k - 1);
      if k >= 2 && EmptyAt(remote, k - 2) {
        assert EmptyRun(remote, k - 1) == 1 + EmptyRun(remote, k - 2);
      }
    }
  }

  lemma {:induction false} ReceivedPrefix<T>(remote: seq<Page<T>>, m: nat, n: nat)
    requires m <= n
    ensures Received(remote, m) <= Received(remote, n)
    decreases n - m
  {
    if m < n {
      ReceivedPrefix(remote, m, n - 1);
    }
  }

  /** Two empty pages followed by data do not end the collection: the data is kept. */
  lemma TwoEmptyPagesThenData<T>(remote: seq<Page<T>>)
    requires EmptyAt(remote, 0) && EmptyAt(remote, 1)
    requires PageAt(remote, 2).Items? && |PageAt(remote, 2).items| > 0
    ensures |Collect(remote).offsets| > 3
    ensures PageAt(remote, 2).items <= Collect(remote).items
  {
    var r := Collect(remote);
    var n := |r.offsets|;
    assert n - 1 != 0 && n - 1 != 1 && n - 1 != 2 by {
      assert !PageAt(remote, 0).Fault? && !ThirdEmptyAt(remote, 0);
      assert !PageAt(remote, 1).Fault? && !ThirdEmptyAt(remote, 1);
      assert !PageAt(remote, 2).Fault? && !ThirdEmptyAt(remote, 2);
    }
    ReceivedPrefix(remote, 3, n);
    assert Received(remote, 2) == [] by {
      assert Received(remote, 1) == Received(remote, 0) + ItemsOf(PageAt(remote, 0)) == [];
    }
    assert Received(remote, 3) == PageAt(remote, 2).items;
  }

  /** Three empty pages at offsets 0, 1000 and 2000 end the collection with nothing. */
  lemma ThreeEmptyPagesStop<T>(remote: seq<Page<T>>)
    requires EmptyAt(remote, 0) && EmptyAt(remote, 1) && EmptyAt(remote, 2)
    ensures Collect(remote).offsets == [0, 1000, 2000]
    ensures Collect(remote).items == []
    ensures Collect(remote).stop == ThreeEmpty
  {
    var r := Collect(remote);
    var n := |r.offsets|;
    assert ThirdEmptyAt(remote, 2);
    assert n == 3;
    assert Received(remote, 1) == Received(remote, 0) + ItemsOf(PageAt(remote, 0)) == [];
    assert Received(remote, 2) == [];
  }

  /** A failed call ends the collection and keeps everything received before it. */
  lemma FaultKeepsPartial<T>(remote: seq<Page<T>>)
    requires Collect(remote).stop == Error
    ensures Collect(remote).items == Received(remote, |Collect(remote).offsets| - 1)
  {
  }
}
