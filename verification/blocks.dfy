/** Block selection in the subscribe operation: the groups file is cut into
    blocks of 1000 records and the operator picks one by index. */
module Blocks {
  import opened Options

  const BlockSize: nat := 1000

  /** `len // 1000 + (1 if len % 1000 != 0 else 0)`: the ceiling of `n / 1000`. */
  function TotalBlocks(n: nat): (b: nat)
    ensures b * BlockSize >= n
    ensures b > 0 ==> (b - 1) * BlockSize < n
  {
    n / BlockSize + (if n % BlockSize != 0 then 1 else 0)
  }

  /** Python's slice `xs[lo:hi]` for non-negative bounds: both are clamped to the length. */
  function Slice<T>(xs: seq<T>, lo: nat, hi: nat): (r: seq<T>)
    ensures lo <= hi <= |xs| ==> r == xs[lo..hi]
    ensures |xs| <= lo ==> r == []
    ensures lo <= |xs| <= hi ==> r == xs[lo..]
  {
    var h := if hi < |xs| then hi else |xs|;
    var l := if lo < h then lo else h;
    xs[l..h]
  }

  datatype BlockError = InvalidBlock

  /** The block with index `b`: refused unless `0 <= b < TotalBlocks`; otherwise
      the records from `1000*b` on, at most 1000 of them and at least one. */
  function SelectBlock<T>(items: seq<T>, b: int): (r: Result<seq<T>, BlockError>)
    ensures r.Success? <==> 0 <= b < TotalBlocks(|items|)
    ensures r.Success? ==> 1 <= |r.value| <= BlockSize && b * BlockSize + |r.value| <= |items|
    ensures r.Success? ==> forall k :: 0 <= k < |r.value| ==> r.value[k] == items[b * BlockSize + k]
    ensures r.Success? && |r.value| < BlockSize ==> b * BlockSize + |r.value| == |items|
  {
    if b < 0 || b >= TotalBlocks(|items|) then Failure(InvalidBlock)
    else Success(Slice(items, b * BlockSize, (b + 1) * BlockSize))
  }

  /** Blocks `0 .. k-1` laid end to end. */
  function FirstBlocks<T>(items: seq<T>, k: nat): seq<T>
  {
    if k == 0 then [] else FirstBlocks(items, k - 1) + Slice(items, (k - 1) * BlockSize, k * BlockSize)
  }

  lemma {:induction false} FirstBlocksPrefix<T>(items: seq<T>, k: nat)
    ensures k * BlockSize <= |items| ==> FirstBlocks(items, k) == items[..k * BlockSize]
    ensures k * BlockSize > |items| ==> FirstBlocks(items, k) == items
  {
    if k > 0 {
      FirstBlocksPrefix(items, k - 1);
    }
  }

  /** The blocks together are the whole list, in order, each record once. */
  lemma BlocksPartition<T>(items: seq<T>)
    ensures FirstBlocks(items, TotalBlocks(|items|)) == items
  {
    var b := TotalBlocks(|items|);
    FirstBlocksPrefix(items, b);
    if b * BlockSize == |items| {
      assert items[..b * BlockSize] == items;
    }
  }

  /** Record `i` sits in block `i / 1000` at position `i % 1000`. */
  lemma BlockOfIndex<T>(items: seq<T>, i: nat)
    requires i < |items|
    ensures SelectBlock(items, i / BlockSize).Success?
    ensures SelectBlock(items, i / BlockSize).value[i % BlockSize] == items[i]
  {
    var b := i / BlockSize;
    assert b * BlockSize + i % BlockSize == i;
  }
}
