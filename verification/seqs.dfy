/** Sequence operations shared by the history and staging models: the
    array methods `filter`, `includes` and `splice`, with their meaning
    stated independently of how they are computed. */
module Seqs {

  function Min(a: int, b: int): int {
    if a <= b then a else b
  }

  /** `a` can be obtained from `b` by deleting elements: every element of
      `a` comes from `b`, in the same relative order. */
  ghost predicate IsSubseq<T>(a: seq<T>, b: seq<T>)
    decreases |b|
  {
    || |a| == 0
    || (&& |b| > 0
        && ((a[0] == b[0] && IsSubseq(a[1..], b[1..])) || IsSubseq(a, b[1..])))
  }

  /** `sub` occurs in `s` starting at index `i`. */
  ghost predicate OccursAt<T>(sub: seq<T>, s: seq<T>, i: int) {
    0 <= i && i + |sub| <= |s| && s[i..i + |sub|] == sub
  }

  /** `sub` occurs as a contiguous block of `s`. */
  ghost predicate Occurs<T>(sub: seq<T>, s: seq<T>) {
    exists i :: OccursAt(sub, s, i)
  }

  /** `Array.prototype.filter`: keeps exactly the elements satisfying `p`,
      in their original order. */
  function Filter<T>(s: seq<T>, p: T -> bool): (r: seq<T>)
    ensures |r| <= |s|
    ensures IsSubseq(r, s)
    ensures forall i :: 0 <= i < |r| ==> p(r[i])
    ensures forall x :: x in r ==> x in s
    ensures forall x :: x in s && p(x) ==> x in r
    ensures forall x :: x in s ==> multiset(r)[x] == if p(x) then multiset(s)[x] else 0
  {
    assert |s| > 0 ==> s == [s[0]] + s[1..];
    if |s| == 0 then []
    else if p(s[0]) then [s[0]] + Filter(s[1..], p)
    else Filter(s[1..], p)
  }

  /** A filter whose predicate holds everywhere keeps everything. */
  lemma {:induction false} FilterKeepsAll<T>(s: seq<T>, p: T -> bool)
    requires forall i :: 0 <= i < |s| ==> p(s[i])
    ensures Filter(s, p) == s
    decreases |s|
  {
    if |s| > 0 {
      assert p(s[0]);
      FilterKeepsAll(s[1..], p);
      assert [s[0]] + s[1..] == s;
    }
  }

  /** `String.prototype.includes` / `Array.prototype.includes` on a block:
      does `sub` occur in `s`? The empty block occurs everywhere. */
  function Includes<T(==)>(s: seq<T>, sub: seq<T>): (b: bool)
    ensures b <==> Occurs(sub, s)
    decreases |s|
  {
    if |sub| > |s| then false
    else if sub <= s then (assert OccursAt(sub, s, 0); true)
    else
      var t := s[1..];
      var b := Includes(t, sub);
      if b then
        assert Occurs(sub, s) by {
          var i :| OccursAt(sub, t, i);
          assert s[i + 1..i + 1 + |sub|] == t[i..i + |sub|];
          assert OccursAt(sub, s, i + 1);
        }
        true
      else
        assert forall i :: OccursAt(sub, s, i) ==> i > 0 && OccursAt(sub, t, i - 1) by {
          forall i | OccursAt(sub, s, i)
            ensures i > 0 && OccursAt(sub, t, i - 1)
          {
            assert t[i - 1..i - 1 + |sub|] == s[i..i + |sub|];
          }
        }
        false
  }

  /** `filter((_, index) => index !== i)`: drops the element at index `i`,
      and nothing when `i` is not an index of `s`. */
  function WithoutIndex<T>(s: seq<T>, i: int): (r: seq<T>)
    ensures 0 <= i < |s| ==> r == s[..i] + s[i + 1..]
    ensures !(0 <= i < |s|) ==> r == s
    ensures 0 <= i < |s| ==> multiset(r) + multiset{s[i]} == multiset(s)
    decreases |s|
  {
    if |s| == 0 then []
    else if i == 0 then (assert s == [s[0]] + s[1..]; s[1..])
    else
      assert s == [s[0]] + s[1..];
      [s[0]] + WithoutIndex(s[1..], i - 1)
  }

  /** Inserting `x` at position `k` (`splice(k, 0, x)` with `k` in range). */
  function InsertAt<T>(s: seq<T>, k: nat, x: T): (r: seq<T>)
    requires k <= |s|
    ensures |r| == |s| + 1
    ensures r[k] == x
    ensures forall j :: 0 <= j < k ==> r[j] == s[j]
    ensures forall j :: k <= j < |s| ==> r[j + 1] == s[j]
    ensures multiset(r) == multiset(s) + multiset{x}
  {
    assert s == s[..k] + s[k..];
    s[..k] + [x] + s[k..]
  }

  /** Taking out what was just inserted gives back the original. */
  lemma WithoutInserted<T>(s: seq<T>, k: nat, x: T)
    requires k <= |s|
    ensures WithoutIndex(InsertAt(s, k, x), k) == s
  {
    var r := InsertAt(s, k, x);
    assert r[..k] == s[..k];
    assert r[k + 1..] == s[k..];
    assert s == s[..k] + s[k..];
  }

  /** The position `splice` starts at for a requested `start` on an array
      of length `len`: negative values count from the end, and the result
      is clamped to `0..len`. */
  function SpliceStart(start: int, len: nat): (k: nat)
    ensures k <= len
    ensures 0 <= start <= len ==> k == start
    ensures start < 0 && len + start >= 0 ==> k == len + start
    ensures start > len ==> k == len
    ensures len + start < 0 ==> k == 0
  {
    if start < 0 then (if len + start < 0 then 0 else len + start)
    else if start > len then len
    else start
  }
}
