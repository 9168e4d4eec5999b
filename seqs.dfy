/** The JavaScript array operations the application builds its state updates from:
    `find`, `filter`, `map` that swaps matching elements, and `filter` by index. */
module Seqs {
  import opened Common

  /** `s.filter(p)`: the elements satisfying `p`, in their original order. */
  function Filter<T>(s: seq<T>, p: T -> bool): (r: seq<T>)
    ensures |r| <= |s|
    ensures forall i :: 0 <= i < |r| ==> r[i] in s && p(r[i])
    ensures forall i :: 0 <= i < |s| && p(s[i]) ==> s[i] in r
  {
    if s == [] then [] else (if p(s[0]) then [s[0]] else []) + Filter(s[1..], p)
  }

  /** Filtering a concatenation filters each part and keeps them in order, so
      `Filter` keeps the relative order of the elements it retains. */
  lemma {:induction false} FilterAppend<T>(a: seq<T>, b: seq<T>, p: T -> bool)
    ensures Filter(a + b, p) == Filter(a, p) + Filter(b, p)
  {
    if a == [] {
      assert a + b == b;
    } else {
      assert (a + b)[1..] == a[1..] + b;
      FilterAppend(a[1..], b, p);
    }
  }

  /** Nothing is dropped exactly when every element satisfies the predicate. */
  lemma {:induction false} FilterKeepsAll<T>(s: seq<T>, p: T -> bool)
    ensures |Filter(s, p)| == |s| <==> forall i :: 0 <= i < |s| ==> p(s[i])
    ensures (forall i :: 0 <= i < |s| ==> p(s[i])) ==> Filter(s, p) == s
  {
    if s != [] {
      FilterKeepsAll(s[1..], p);
      if forall i :: 0 <= i < |s| ==> p(s[i]) {
        assert forall i :: 0 <= i < |s[1..]| ==> p(s[1..][i]) by {
          forall i | 0 <= i < |s[1..]| ensures p(s[1..][i]) { assert s[1..][i] == s[i + 1]; }
        }
      } else if p(s[0]) {
        var j :| 0 <= j < |s| && !p(s[j]);
        assert s[1..][j - 1] == s[j];
      }
    }
  }

  /** `s.map(x => matches(x) ? y : x)`: each matching element is replaced by `y`. */
  function ReplaceWhere<T>(s: seq<T>, matches: T -> bool, y: T): (r: seq<T>)
    ensures |r| == |s|
    ensures forall i :: 0 <= i < |s| ==> r[i] == (if matches(s[i]) then y else s[i])
  {
    if s == [] then [] else [if matches(s[0]) then y else s[0]] + ReplaceWhere(s[1..], matches, y)
  }

  /** With no matching element the replacement changes nothing. */
  lemma ReplaceWithoutMatch<T>(s: seq<T>, matches: T -> bool, y: T)
    requires forall i :: 0 <= i < |s| ==> !matches(s[i])
    ensures ReplaceWhere(s, matches, y) == s
  {
  }

  /** `s.filter((_, i) => i !== k)`: drop the element at index `k`. */
  function RemoveIndex<T>(s: seq<T>, k: int): (r: seq<T>)
    ensures 0 <= k < |s| ==> r == s[..k] + s[k + 1..]
    ensures !(0 <= k < |s|) ==> r == s
  {
    if s == [] then []
    else
      var rest := RemoveIndex(s[1..], k - 1);
      if k == 0 then rest
      else
        assert 0 < k < |s| ==> s[1..][..k - 1] == s[1..k] && s[1..][k..] == s[k + 1..];
        [s[0]] + rest
  }

  /** `s.find(p)`: the first element satisfying `p`, if any. */
  function Find<T>(s: seq<T>, p: T -> bool): (r: Option<T>)
    ensures r.Some? ==> r.value in s && p(r.value)
    ensures r.Some? ==> exists i :: 0 <= i < |s| && s[i] == r.value && forall j :: 0 <= j < i ==> !p(s[j])
    ensures r.None? <==> forall i :: 0 <= i < |s| ==> !p(s[i])
  {
    if s == [] then None
    else if p(s[0]) then Some(s[0])
    else
      var r := Find(s[1..], p);
      assert r.Some? ==> exists i :: 0 <= i < |s| && s[i] == r.value && forall j :: 0 <= j < i ==> !p(s[j]) by {
        if r.Some? {
          var i :| 0 <= i < |s[1..]| && s[1..][i] == r.value && forall j :: 0 <= j < i ==> !p(s[1..][j]);
          assert forall j :: 1 <= j < i + 1 ==> s[j] == s[1..][j - 1];
        }
      }
      r
  }
}
