/**
 * Sequence combinators the archiver uses through Rust iterators and `Vec` methods:
 * `retain`/`filter`, `flatten`/`extend`, `sort_by`, and the `for x in xs { v.push(f(x)) }` loop.
 */
module Seqs {
  import opened Wrappers

  // ---------------------------------------------------------------------------
  // retain / filter
  // ---------------------------------------------------------------------------

  /** `Vec::retain(f)` / `Iterator::filter(f)`: the elements satisfying `f`, in order. */
  function Filter<T>(s: seq<T>, f: T -> bool): (r: seq<T>)
    ensures |r| <= |s|
  {
    if s == [] then [] else (if f(s[0]) then [s[0]] else []) + Filter(s[1..], f)
  }

  /** Exactly the elements satisfying `f` survive. */
  lemma {:induction false} FilterMembers<T>(s: seq<T>, f: T -> bool)
    ensures forall x :: x in Filter(s, f) <==> x in s && f(x)
  {
    if s != [] {
      FilterMembers(s[1..], f);
      assert s == [s[0]] + s[1..];
    }
  }

  lemma FilterCons<T>(x: T, s: seq<T>, f: T -> bool)
    ensures Filter([x] + s, f) == (if f(x) then [x] else []) + Filter(s, f)
  {
    assert ([x] + s)[0] == x && ([x] + s)[1..] == s;
  }

  /** Nothing is dropped when every element satisfies `f`. */
  lemma {:induction false} FilterAll<T>(s: seq<T>, f: T -> bool)
    requires forall k :: 0 <= k < |s| ==> f(s[k])
    ensures Filter(s, f) == s
  {
    if s != [] {
      FilterAll(s[1..], f);
      assert s == [s[0]] + s[1..];
    }
  }

  /** Everything is dropped when no element satisfies `f`. */
  lemma {:induction false} FilterNone<T>(s: seq<T>, f: T -> bool)
    requires forall k :: 0 <= k < |s| ==> !f(s[k])
    ensures Filter(s, f) == []
  {
    if s != [] {
      FilterNone(s[1..], f);
    }
  }

  /** When `f` holds exactly where one of the disjoint `g`, `h` holds, the counts add up. */
  lemma {:induction false} FilterDisjointUnion<T>(s: seq<T>, f: T -> bool, g: T -> bool, h: T -> bool)
    requires forall k :: 0 <= k < |s| ==> (f(s[k]) <==> g(s[k]) || h(s[k])) && !(g(s[k]) && h(s[k]))
    ensures |Filter(s, f)| == |Filter(s, g)| + |Filter(s, h)|
  {
    if s != [] {
      FilterDisjointUnion(s[1..], f, g, h);
    }
  }

  /** `a` is obtained from `b` by deleting elements, keeping the order of the rest. */
  predicate IsSubsequence<T(==)>(a: seq<T>, b: seq<T>) {
    a == [] || (b != [] && ((a[0] == b[0] && IsSubsequence(a[1..], b[1..])) || IsSubsequence(a, b[1..])))
  }

  lemma SliceSplit<T>(s: seq<T>, a: nat, b: nat, c: nat)
    requires a <= b <= c <= |s|
    ensures s[a..c] == s[a..b] + s[b..c]
  {
  }

  lemma PrefixStep<T>(s: seq<T>, i: nat)
    requires i < |s|
    ensures s[..i + 1] == s[..i] + [s[i]]
  {
  }

  /** A sequence that starts with `b` agrees with `b` on each of its positions. */
  lemma PrefixKeeps<T>(c: seq<T>, b: seq<T>)
    requires |b| <= |c| && c[..|b|] == b
    ensures forall i :: 0 <= i < |b| ==> c[i] == b[i]
  {
    assert forall i :: 0 <= i < |b| ==> c[..|b|][i] == c[i];
  }

  /** Starting with `b`, which starts with `a`, means starting with `a`. */
  lemma PrefixOfPrefix<T>(c: seq<T>, b: seq<T>, a: seq<T>)
    requires |a| <= |b| <= |c| && c[..|b|] == b && b[..|a|] == a
    ensures c[..|a|] == a
  {
    assert c[..|a|] == c[..|b|][..|a|];
  }

  lemma SubsequenceEmpty<T>(b: seq<T>)
    ensures IsSubsequence([], b)
  {
  }

  lemma {:induction false} SubsequenceRefl<T>(a: seq<T>)
    ensures IsSubsequence(a, a)
  {
    if a != [] {
      SubsequenceRefl(a[1..]);
    }
  }

  /** Subsequences concatenate. */
  lemma {:induction false} SubsequenceConcat<T>(a: seq<T>, b: seq<T>, c: seq<T>, d: seq<T>)
    requires IsSubsequence(a, b) && IsSubsequence(c, d)
    ensures IsSubsequence(a + c, b + d)
    decreases |b|
  {
    if b == [] {
      assert a == [] && a + c == c && b + d == d;
    } else if a != [] && a[0] == b[0] && IsSubsequence(a[1..], b[1..]) {
      SubsequenceConcat(a[1..], b[1..], c, d);
      assert (a + c)[1..] == a[1..] + c && (b + d)[1..] == b[1..] + d;
    } else {
      assert IsSubsequence(a, b[1..]);
      SubsequenceConcat(a, b[1..], c, d);
      assert (b + d)[1..] == b[1..] + d;
    }
  }

  lemma {:induction false} SubsequenceTransitive<T>(a: seq<T>, b: seq<T>, c: seq<T>)
    requires IsSubsequence(a, b) && IsSubsequence(b, c)
    ensures IsSubsequence(a, c)
    decreases |c|
  {
    if a != [] {
      if IsSubsequence(b, c[1..]) {
        SubsequenceTransitive(a, b, c[1..]);
      } else if a[0] == b[0] && IsSubsequence(a[1..], b[1..]) {
        SubsequenceTransitive(a[1..], b[1..], c[1..]);
      } else {
        SubsequenceTransitive(a, b[1..], c[1..]);
      }
    }
  }

  lemma {:induction false} FilterIsSubsequence<T>(s: seq<T>, f: T -> bool)
    ensures IsSubsequence(Filter(s, f), s)
  {
    if s != [] {
      FilterIsSubsequence(s[1..], f);
      if f(s[0]) {
        assert Filter(s, f) == [s[0]] + Filter(s[1..], f);
        assert Filter(s, f)[1..] == Filter(s[1..], f);
      } else {
        assert Filter(s, f) == Filter(s[1..], f);
      }
    }
  }

  lemma {:induction false} FilterConcat<T>(a: seq<T>, b: seq<T>, f: T -> bool)
    ensures Filter(a + b, f) == Filter(a, f) + Filter(b, f)
  {
    if a == [] {
      assert a + b == b;
    } else {
      var h := if f(a[0]) then [a[0]] else [];
      var ab := a + b;
      assert ab[0] == a[0] && ab[1..] == a[1..] + b;
      FilterConcat(a[1..], b, f);
      assert Filter(ab, f) == h + (Filter(a[1..], f) + Filter(b, f));
      assert Filter(a, f) == h + Filter(a[1..], f);
    }
  }

  /**
   * The first element of `a` occurs at some index `k` of its permutation `b`, and the rest
   * of `a` is a permutation of `b` without that occurrence.
   */
  lemma PermutationSplit<T>(a: seq<T>, b: seq<T>) returns (k: nat)
    requires a != [] && multiset(a) == multiset(b)
    ensures k < |b| && b[k] == a[0]
    ensures b == b[..k] + [a[0]] + b[k + 1..]
    ensures multiset(a[1..]) == multiset(b[..k] + b[k + 1..])
  {
    var x := a[0];
    assert x in multiset(b);
    k :| 0 <= k < |b| && b[k] == x;
    assert b == b[..k] + [x] + b[k + 1..];
    assert a == [x] + a[1..];
    calc {
      multiset(a[1..]);
      multiset(a) - multiset{x};
      multiset(b[..k] + [x] + b[k + 1..]) - multiset{x};
      multiset(b[..k]) + multiset(b[k + 1..]);
      multiset(b[..k] + b[k + 1..]);
    }
  }

  /** Filtering commutes with reordering: a permutation keeps the same filtered multiset. */
  lemma {:induction false} FilterPermutation<T>(a: seq<T>, b: seq<T>, f: T -> bool)
    requires multiset(a) == multiset(b)
    ensures multiset(Filter(a, f)) == multiset(Filter(b, f))
    ensures |Filter(a, f)| == |Filter(b, f)|
    decreases |a|
  {
    if a == [] {
      assert b == [] by { assert |b| == |multiset(b)| == 0; }
    } else {
      var x := a[0];
      var k := PermutationSplit(a, b);
      var u, v := b[..k], b[k + 1..];
      FilterPermutation(a[1..], u + v, f);
      FilterConcat(u + [x], v, f);
      FilterConcat(u, [x], f);
      FilterConcat(u, v, f);
      assert a == [x] + a[1..];
      FilterCons(x, a[1..], f);
      assert multiset(Filter(b, f)) == multiset(Filter(u, f)) + multiset(Filter([x], f)) + multiset(Filter(v, f));
      assert |Filter(a, f)| == |multiset(Filter(a, f))|;
      assert |Filter(b, f)| == |multiset(Filter(b, f))|;
    }
  }

  // ---------------------------------------------------------------------------
  // flatten / extend
  // ---------------------------------------------------------------------------

  /** `Iterator::flatten`, or successive `Vec::extend`: the lists one after the other. */
  function Flatten<T>(ss: seq<seq<T>>): seq<T> {
    if ss == [] then [] else ss[0] + Flatten(ss[1..])
  }

  lemma {:induction false} FlattenConcat<T>(a: seq<seq<T>>, b: seq<seq<T>>)
    ensures Flatten(a + b) == Flatten(a) + Flatten(b)
  {
    if a == [] {
      assert a + b == b;
    } else {
      var ab := a + b;
      assert ab[0] == a[0] && ab[1..] == a[1..] + b;
      FlattenConcat(a[1..], b);
      assert Flatten(ab) == a[0] + (Flatten(a[1..]) + Flatten(b));
      assert Flatten(a) == a[0] + Flatten(a[1..]);
    }
  }

  /** The flattened length is the sum of the lengths. */
  function SumLengths<T>(ss: seq<seq<T>>): nat {
    if ss == [] then 0 else |ss[0]| + SumLengths(ss[1..])
  }

  lemma {:induction false} FlattenLength<T>(ss: seq<seq<T>>)
    ensures |Flatten(ss)| == SumLengths(ss)
  {
    if ss != [] { FlattenLength(ss[1..]); }
  }

  /** Flattening the lists in any order gives the same multiset of elements. */
  lemma {:induction false} FlattenPermutation<T>(a: seq<seq<T>>, b: seq<seq<T>>)
    requires multiset(a) == multiset(b)
    ensures multiset(Flatten(a)) == multiset(Flatten(b))
    decreases |a|
  {
    if a == [] {
      assert b == [] by { assert |b| == |multiset(b)| == 0; }
    } else {
      var x := a[0];
      var k := PermutationSplit(a, b);
      var u, v := b[..k], b[k + 1..];
      FlattenPermutation(a[1..], u + v);
      FlattenConcat(u + [x], v);
      FlattenConcat(u, [x]);
      FlattenConcat(u, v);
      assert Flatten([x]) == x + Flatten([]);
      assert Flatten(a) == x + Flatten(a[1..]);
      assert multiset(Flatten(b)) == multiset(Flatten(u)) + multiset(x) + multiset(Flatten(v));
    }
  }

  // ---------------------------------------------------------------------------
  // map
  // ---------------------------------------------------------------------------

  /** `Iterator::map` collected: `f` applied to each element, in order. */
  function Map<A, B>(s: seq<A>, f: A -> B): (r: seq<B>)
    ensures |r| == |s|
    ensures forall i :: 0 <= i < |s| ==> r[i] == f(s[i])
  {
    if s == [] then [] else [f(s[0])] + Map(s[1..], f)
  }

  lemma {:induction false} MapConcat<A, B>(a: seq<A>, b: seq<A>, f: A -> B)
    ensures Map(a + b, f) == Map(a, f) + Map(b, f)
  {
    assert forall i :: 0 <= i < |a| + |b| ==> Map(a + b, f)[i] == (Map(a, f) + Map(b, f))[i];
  }

  /** Mapping commutes with reordering: a permutation of the inputs gives a permutation of the outputs. */
  lemma {:induction false} MapPermutation<A, B>(a: seq<A>, b: seq<A>, f: A -> B)
    requires multiset(a) == multiset(b)
    ensures multiset(Map(a, f)) == multiset(Map(b, f))
    decreases |a|
  {
    if a == [] {
      assert b == [] by { assert |b| == |multiset(b)| == 0; }
    } else {
      var x := a[0];
      var k := PermutationSplit(a, b);
      var u, v := b[..k], b[k + 1..];
      MapPermutation(a[1..], u + v, f);
      MapConcat(u + [x], v, f);
      MapConcat(u, [x], f);
      MapConcat(u, v, f);
      assert Map([x], f) == [f(x)];
      assert Map(a, f) == [f(x)] + Map(a[1..], f);
      assert Map(b, f) == Map(u, f) + [f(x)] + Map(v, f);
    }
  }

  // ---------------------------------------------------------------------------
  // sort_by
  // ---------------------------------------------------------------------------

  /** `le` is a total preorder: what `slice::sort_by` needs of its comparison. */
  ghost predicate TotalPreorder<T(!new)>(le: (T, T) -> bool) {
    && (forall a, b :: le(a, b) || le(b, a))
    && (forall a, b, c :: le(a, b) && le(b, c) ==> le(a, c))
  }

  predicate SortedBy<T>(s: seq<T>, le: (T, T) -> bool) {
    forall i, j :: 0 <= i < j < |s| ==> le(s[i], s[j])
  }

  /** Puts `x` before the first element it is `le`. */
  function InsertBy<T>(x: T, s: seq<T>, le: (T, T) -> bool): (r: seq<T>)
    ensures multiset(r) == multiset{x} + multiset(s)
  {
    if s == [] then [x]
    else if le(x, s[0]) then [x] + s
    else
      assert s == [s[0]] + s[1..];
      [s[0]] + InsertBy(x, s[1..], le)
  }

  /** `slice::sort_by(le)` (a stable insertion sort). */
  function SortBy<T>(s: seq<T>, le: (T, T) -> bool): (r: seq<T>)
    ensures multiset(r) == multiset(s)
    ensures |r| == |s|
  {
    if s == [] then []
    else
      var r := InsertBy(s[0], SortBy(s[1..], le), le);
      assert s == [s[0]] + s[1..];
      assert |r| == |multiset(r)|;
      r
  }

  lemma {:induction false} InsertBySorted<T(!new)>(x: T, s: seq<T>, le: (T, T) -> bool)
    requires TotalPreorder(le) && SortedBy(s, le)
    ensures SortedBy(InsertBy(x, s, le), le)
  {
    if s != [] && !le(x, s[0]) {
      InsertBySorted(x, s[1..], le);
      var t := InsertBy(x, s[1..], le);
      assert le(s[0], x);
      forall j | 0 <= j < |t| ensures le(s[0], t[j]) {
        assert t[j] in multiset(t);
        assert t[j] == x || t[j] in s[1..];
      }
    }
  }

  /** The result of `SortBy` is sorted. */
  lemma {:induction false} SortBySorted<T(!new)>(s: seq<T>, le: (T, T) -> bool)
    requires TotalPreorder(le)
    ensures SortedBy(SortBy(s, le), le)
  {
    if s != [] {
      SortBySorted(s[1..], le);
      InsertBySorted(s[0], SortBy(s[1..], le), le);
    }
  }

  // ---------------------------------------------------------------------------
  // push loops
  // ---------------------------------------------------------------------------

  /** `for x in items { v.push(convert(x)) }` on a vector holding `content`. */
  method PushEach<A, B>(content: seq<B>, items: seq<A>, convert: A -> B) returns (r: seq<B>)
    ensures |r| == |content| + |items| && r[..|content|] == content
    ensures forall k :: 0 <= k < |items| ==> r[|content| + k] == convert(items[k])
  {
    r := content;
    for i := 0 to |items|
      invariant |r| == |content| + i && r[..|content|] == content
      invariant forall k :: 0 <= k < i ==> r[|content| + k] == convert(items[k])
    {
      r := r + [convert(items[i])];
    }
  }

  /**
   * The same loop when a conversion can panic: the pushes stop at the first item whose
   * conversion fails, and the whole call fails with it.
   */
  method PushAll<A, B, E>(content: seq<B>, items: seq<A>, convert: A -> Result<B, E>) returns (r: Result<seq<B>, E>)
    ensures r.Err? <==> exists k :: 0 <= k < |items| && convert(items[k]).Err?
    ensures r.Err? ==> exists k :: 0 <= k < |items| && convert(items[k]) == Err(r.error)
    ensures r.Ok? ==>
      && |r.value| == |content| + |items|
      && r.value[..|content|] == content
      && forall k :: 0 <= k < |items| ==> r.value[|content| + k] == convert(items[k]).value
  {
    var pushed := content;
    for i := 0 to |items|
      invariant |pushed| == |content| + i && pushed[..|content|] == content
      invariant forall k :: 0 <= k < i ==> convert(items[k]).Ok?
      invariant forall k :: 0 <= k < i ==> pushed[|content| + k] == convert(items[k]).value
    {
      var item := convert(items[i]);
      if item.Err? {
        return Err(item.error);
      }
      pushed := pushed + [item.value];
    }
    return Ok(pushed);
  }
}
