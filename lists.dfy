/** The java.util.List operations that FileSet and MetadataGroup rely on,
    as functions on sequences, with the facts the two classes need. */
module Lists {

  /** No element occurs twice. */
  ghost predicate NoDuplicates<T>(s: seq<T>)
  {
    forall i, j :: 0 <= i < j < |s| ==> s[i] != s[j]
  }

  /** `a` can be obtained from `b` by deleting elements (order is kept). */
  ghost predicate IsSubsequence<T>(a: seq<T>, b: seq<T>)
    decreases |b|
  {
    if a == [] then true
    else if b == [] then false
    else if a[|a| - 1] == b[|b| - 1] then IsSubsequence(a[..|a| - 1], b[..|b| - 1])
    else IsSubsequence(a, b[..|b| - 1])
  }

  /** The position of the first occurrence of `x` in `s`. */
  function FirstIndex<T(==)>(s: seq<T>, x: T): (i: nat)
    requires x in s
    ensures i < |s| && s[i] == x
    ensures x !in s[..i]
  {
    if s[0] == x then 0 else FirstIndex(s[1..], x) + 1
  }

  /** `s` with `x` appended unless `x` already occurs in it (List.contains, then List.add). */
  function AppendIfAbsent<T(==)>(s: seq<T>, x: T): seq<T>
  {
    if x in s then s else s + [x]
  }

  /** `s` without its first occurrence of `x`; `s` itself when `x` does not occur (List.remove(Object)). */
  function RemoveFirst<T(==)>(s: seq<T>, x: T): seq<T>
  {
    if s == [] then []
    else if s[0] == x then s[1..]
    else [s[0]] + RemoveFirst(s[1..], x)
  }

  /** The elements of `s` that satisfy `p`, in their order in `s`. */
  function Filter<T>(s: seq<T>, p: T -> bool): seq<T>
  {
    if s == [] then []
    else Filter(s[..|s| - 1], p) + (if p(s[|s| - 1]) then [s[|s| - 1]] else [])
  }

  /** The complement of `p`. */
  function Negate<T>(p: T -> bool): T -> bool
  {
    x => !p(x)
  }

  // ---------------------------------------------------------------------------
  // AppendIfAbsent
  // ---------------------------------------------------------------------------

  lemma {:induction false} NoDuplicatesCount<T>(s: seq<T>, x: T)
    requires NoDuplicates(s)
    ensures multiset(s)[x] == if x in s then 1 else 0
  {
    if s != [] {
      var t := s[..|s| - 1];
      assert s == t + [s[|s| - 1]];
      assert NoDuplicates(t);
      NoDuplicatesCount(t, x);
      if s[|s| - 1] == x {
        assert x !in t;
      }
    }
  }

  /** Adding keeps a duplicate-free list duplicate-free, and afterwards `x` occurs exactly once. */
  lemma AppendIfAbsentKeepsNoDuplicates<T>(s: seq<T>, x: T)
    requires NoDuplicates(s)
    ensures NoDuplicates(AppendIfAbsent(s, x))
    ensures multiset(AppendIfAbsent(s, x))[x] == 1
  {
    NoDuplicatesCount(AppendIfAbsent(s, x), x);
  }

  /** Adding twice is adding once. */
  lemma AppendIfAbsentIdempotent<T>(s: seq<T>, x: T)
    ensures AppendIfAbsent(AppendIfAbsent(s, x), x) == AppendIfAbsent(s, x)
  {
  }

  /** Adding keeps every element and order, and adds exactly `x` to the element set. */
  lemma AppendIfAbsentContents<T>(s: seq<T>, x: T)
    ensures s <= AppendIfAbsent(s, x)
    ensures forall y :: y in AppendIfAbsent(s, x) <==> y in s || y == x
  {
  }

  // ---------------------------------------------------------------------------
  // RemoveFirst
  // ---------------------------------------------------------------------------

  /** Removing an absent element changes nothing. */
  lemma {:induction false} RemoveFirstAbsent<T>(s: seq<T>, x: T)
    requires x !in s
    ensures RemoveFirst(s, x) == s
  {
    if s != [] {
      assert s[0] != x;
      RemoveFirstAbsent(s[1..], x);
      assert s == [s[0]] + s[1..];
    }
  }

  /** Removing a present element cuts out exactly its first occurrence. */
  lemma {:induction false} RemoveFirstPresent<T>(s: seq<T>, x: T)
    requires x in s
    ensures RemoveFirst(s, x) == s[..FirstIndex(s, x)] + s[FirstIndex(s, x) + 1..]
  {
    if s[0] != x {
      assert x in s[1..];
      RemoveFirstPresent(s[1..], x);
      var i := FirstIndex(s[1..], x);
      assert s[..i + 1] == [s[0]] + s[1..][..i];
      assert s[i + 2..] == s[1..][i + 1..];
    }
  }

  /** As a bag, removing takes away one copy of `x` if there is one. */
  lemma {:induction false} RemoveFirstMultiset<T>(s: seq<T>, x: T)
    ensures multiset(RemoveFirst(s, x)) == multiset(s) - multiset{x}
    ensures |RemoveFirst(s, x)| == if x in s then |s| - 1 else |s|
  {
    if s != [] {
      assert s == [s[0]] + s[1..];
      if s[0] != x {
        RemoveFirstMultiset(s[1..], x);
      }
    }
  }

  /** A list is duplicate-free exactly when its tail is and its head does not recur. */
  lemma NoDuplicatesCons<T>(h: T, t: seq<T>)
    ensures NoDuplicates([h] + t) <==> NoDuplicates(t) && h !in t
  {
    var s := [h] + t;
    if NoDuplicates(s) {
      forall i, j | 0 <= i < j < |t| ensures t[i] != t[j] {
        assert t[i] == s[i + 1] && t[j] == s[j + 1];
      }
      forall k | 0 <= k < |t| ensures t[k] != h {
        assert s[0] == h && t[k] == s[k + 1];
        assert s[0] != s[k + 1];
      }
    }
    if NoDuplicates(t) && h !in t {
      forall i, j | 0 <= i < j < |s| ensures s[i] != s[j] {
        assert s[j] == t[j - 1];
        if i > 0 {
          assert s[i] == t[i - 1];
        }
      }
    }
  }

  /** Removing from a duplicate-free list leaves it duplicate-free and without `x`. */
  lemma {:induction false} RemoveFirstKeepsNoDuplicates<T>(s: seq<T>, x: T)
    requires NoDuplicates(s)
    ensures NoDuplicates(RemoveFirst(s, x))
    ensures x !in RemoveFirst(s, x)
  {
    if s != [] {
      assert s == [s[0]] + s[1..];
      NoDuplicatesCons(s[0], s[1..]);
      if s[0] != x {
        RemoveFirstKeepsNoDuplicates(s[1..], x);
        RemoveFirstMultiset(s[1..], x);
        var r := RemoveFirst(s[1..], x);
        assert s[0] !in r by {
          assert multiset(r)[s[0]] <= multiset(s[1..])[s[0]];
        }
        NoDuplicatesCons(s[0], r);
      }
    }
  }

  /** Removing what was just appended to a list that lacked it restores the list. */
  lemma {:induction false} RemoveFirstAfterAppend<T>(s: seq<T>, x: T)
    requires x !in s
    ensures RemoveFirst(s + [x], x) == s
  {
    if s == [] {
      assert [] + [x] == [x];
    } else {
      assert (s + [x])[1..] == s[1..] + [x];
      RemoveFirstAfterAppend(s[1..], x);
      assert s == [s[0]] + s[1..];
    }
  }

  /** When `x` already occurs, removing it after appending it takes out the earlier copy
      and keeps the new one at the end. */
  lemma {:induction false} RemoveFirstAfterAppendPresent<T>(s: seq<T>, x: T)
    requires x in s
    ensures RemoveFirst(s + [x], x) == RemoveFirst(s, x) + [x]
    ensures RemoveFirst(s + [x], x) == s[..FirstIndex(s, x)] + s[FirstIndex(s, x) + 1..] + [x]
  {
    assert (s + [x])[1..] == s[1..] + [x];
    if s[0] != x {
      RemoveFirstAfterAppendPresent(s[1..], x);
    }
    RemoveFirstPresent(s, x);
  }

  /** The list need not come back: for example, `[x, y]` becomes `[y, x]`. */
  lemma RemoveFirstAfterAppendCounterexample<T>(x: T, y: T)
    requires x != y
    ensures RemoveFirst([x, y] + [x], x) == [y, x]
    ensures RemoveFirst([x, y] + [x], x) != [x, y]
  {
    assert [x, y] + [x] == [x, y, x];
  }

  // ---------------------------------------------------------------------------
  // Filter
  // ---------------------------------------------------------------------------

  /** Filtering an extended list extends the filtered list by the new element if it satisfies `p`. */
  lemma FilterSnoc<T>(s: seq<T>, x: T, p: T -> bool)
    ensures Filter(s + [x], p) == Filter(s, p) + (if p(x) then [x] else [])
  {
    assert (s + [x])[..|s|] == s;
  }

  /** An element is in the filtered list exactly when it is in the list and satisfies `p`. */
  lemma {:induction false} FilterMembership<T>(s: seq<T>, p: T -> bool, x: T)
    ensures x in Filter(s, p) <==> x in s && p(x)
  {
    if s != [] {
      var t := s[..|s| - 1];
      FilterMembership(t, p, x);
      assert s == t + [s[|s| - 1]];
    }
  }

  /** Each element satisfying `p` is kept with all its copies, every other one is dropped. */
  lemma {:induction false} FilterMultiset<T>(s: seq<T>, p: T -> bool, x: T)
    ensures multiset(Filter(s, p))[x] == if p(x) then multiset(s)[x] else 0
  {
    if s != [] {
      var t := s[..|s| - 1];
      FilterMultiset(t, p, x);
      assert s == t + [s[|s| - 1]];
    }
  }

  /** The filtered list keeps the relative order of the list. */
  lemma {:induction false} FilterIsSubsequence<T>(s: seq<T>, p: T -> bool)
    ensures IsSubsequence(Filter(s, p), s)
  {
    if s != [] {
      var t := s[..|s| - 1];
      FilterIsSubsequence(t, p);
      if p(s[|s| - 1]) {
        var f := Filter(s, p);
        assert f[..|f| - 1] == Filter(t, p);
      } else {
        assert Filter(s, p) == Filter(t, p);
        SubsequenceOfPrefix(Filter(t, p), s);
      }
    }
  }

  /** A subsequence of `s` without its last element is a subsequence of `s`. */
  lemma {:induction false} SubsequenceOfPrefix<T>(a: seq<T>, s: seq<T>)
    requires s != []
    requires IsSubsequence(a, s[..|s| - 1])
    ensures IsSubsequence(a, s)
    decreases |s|, 0
  {
    var t := s[..|s| - 1];
    if a != [] && a[|a| - 1] == s[|s| - 1] {
      // Match the last elements of `a` and `s`; what is left of `a` fits into `t`.
      SubsequenceDropLast(a, t);
    }
  }

  /** Dropping the last element of a subsequence keeps it a subsequence. */
  lemma {:induction false} SubsequenceDropLast<T>(a: seq<T>, b: seq<T>)
    requires a != []
    requires IsSubsequence(a, b)
    ensures IsSubsequence(a[..|a| - 1], b)
    decreases |b|, 1
  {
    var c := b[..|b| - 1];
    if a[|a| - 1] == b[|b| - 1] {
      SubsequenceOfPrefix(a[..|a| - 1], b);
    } else {
      SubsequenceDropLast(a, c);
      SubsequenceOfPrefix(a[..|a| - 1], b);
    }
  }

  /** The filtered list is empty exactly when no element satisfies `p`. */
  lemma {:induction false} FilterEmpty<T>(s: seq<T>, p: T -> bool)
    ensures Filter(s, p) == [] <==> forall i :: 0 <= i < |s| ==> !p(s[i])
  {
    if s != [] {
      var t := s[..|s| - 1];
      FilterEmpty(t, p);
      assert forall i :: 0 <= i < |t| ==> t[i] == s[i];
    }
  }

  /** The elements satisfying `p` and those that do not together account for the whole list. */
  lemma {:induction false} FilterPartitionSize<T>(s: seq<T>, p: T -> bool)
    ensures |Filter(s, p)| + |Filter(s, Negate(p))| == |s|
  {
    if s != [] {
      FilterPartitionSize(s[..|s| - 1], p);
    }
  }
}
