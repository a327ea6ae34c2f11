/** The subscription cache file (`load_cache` / `save_cache`). The file is
    modelled by the integer array it holds; JSON text is not modelled. */
module Cache {

  /** The cache file: absent, or present holding an array of ids. */
  datatype CacheFile = Missing | Present(ids: seq<int>)

  /** `load_cache`: the set of the stored ids; a missing file gives the empty set. */
  function LoadCache(file: CacheFile): (s: set<int>)
    ensures file.Missing? ==> s == {}
    ensures file.Present? ==> forall x :: x in s <==> x in file.ids
  {
    match file
    case Missing => {}
    case Present(ids) => set x | x in ids
  }

  predicate IsLeast(m: int, s: set<int>)
  {
    m in s && forall y :: y in s ==> m <= y
  }

  lemma {:induction false} LeastExists(s: set<int>)
    requires s != {}
    ensures exists m :: IsLeast(m, s)
    decreases |s|
  {
    assert (forall y :: y !in s) ==> s == {};
    var x :| x in s;
    var rest := s - {x};
    if rest != {} {
      LeastExists(rest);
      var m :| IsLeast(m, rest);
      var least := if x < m then x else m;
      forall y | y in s
        ensures least <= y
      {
        if y != x {
          assert y in rest;
        }
      }
      assert IsLeast(least, s);
    } else {
      assert forall y :: y in s ==> y == x || y in rest;
      assert IsLeast(x, s);
    }
  }

  function Least(s: set<int>): (m: int)
    requires s != {}
    ensures IsLeast(m, s)
  {
    LeastExists(s);
    var m :| IsLeast(m, s);
    m
  }

  predicate StrictlyAscending(xs: seq<int>)
  {
    forall i, j :: 0 <= i < j < |xs| ==> xs[i] < xs[j]
  }

  /** `save_cache`: the ids in ascending order, each once. */
  function SaveCache(data: set<int>): (r: seq<int>)
    ensures StrictlyAscending(r)
    ensures forall x :: x in r <==> x in data
    ensures |r| == |data|
    decreases |data|
  {
    if data == {} then []
    else
      var m := Least(data);
      [m] + SaveCache(data - {m})
  }

  /** Loading what was saved gives back the same set. */
  lemma LoadSave(data: set<int>)
    ensures LoadCache(Present(SaveCache(data))) == data
  {
  }

  /** Two ascending arrays with the same ids are the same array. */
  lemma {:induction false} AscendingUnique(a: seq<int>, b: seq<int>)
    requires StrictlyAscending(a) && StrictlyAscending(b)
    requires forall x :: x in a <==> x in b
    ensures a == b
    decreases |a|
  {
    assert |a| > 0 ==> a[0] in a;
    assert |b| > 0 ==> b[0] in b;
    if |a| > 0 && |b| > 0 {
      assert a[0] == b[0] by {
        assert a[0] in a && b[0] in b;
      }
      assert forall x :: x in a[1..] <==> x in b[1..] by {
        forall x
          ensures x in a[1..] <==> x in b[1..]
        {
          if x in a[1..] {
            assert x in b && x != b[0];
          }
          if x in b[1..] {
            assert x in a && x != a[0];
          }
        }
      }
      AscendingUnique(a[1..], b[1..]);
    }
  }

  /** The saved form depends only on the set, and a file in that form is
      written back unchanged after a load. */
  lemma SaveLoad(ids: seq<int>)
    requires StrictlyAscending(ids)
    ensures SaveCache(LoadCache(Present(ids))) == ids
  {
    AscendingUnique(SaveCache(LoadCache(Present(ids))), ids);
  }
}
