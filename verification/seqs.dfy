/** Sequence operations that the dataframe code performs column-wise:
    boolean-mask selection, first-match search and concatenation. */
module Seqs {

  /** `a` can be obtained from `b` by deleting elements, keeping the order of the rest. */
  predicate IsSubsequence<T(==)>(a: seq<T>, b: seq<T>)
  {
    if |a| == 0 then true
    else if |b| == 0 then false
    else (a[0] == b[0] && IsSubsequence(a[1..], b[1..])) || IsSubsequence(a, b[1..])
  }

  /** Every sequence is a subsequence of itself. */
  lemma {:induction false} IsSubsequenceReflexive<T>(a: seq<T>)
    ensures IsSubsequence(a, a)
  {
    if |a| > 0 {
      IsSubsequenceReflexive(a[1..]);
    }
  }

  /** Deleting elements twice is deleting elements once. */
  lemma {:induction false} IsSubsequenceTransitive<T>(a: seq<T>, b: seq<T>, c: seq<T>)
    requires IsSubsequence(a, b) && IsSubsequence(b, c)
    ensures IsSubsequence(a, c)
    decreases |c|
  {
    if |a| > 0 {
      if b[0] == c[0] && IsSubsequence(b[1..], c[1..]) {
        if a[0] == b[0] && IsSubsequence(a[1..], b[1..]) {
          IsSubsequenceTransitive(a[1..], b[1..], c[1..]);
        } else {
          IsSubsequenceTransitive(a, b[1..], c[1..]);
        }
      } else {
        IsSubsequenceTransitive(a, b, c[1..]);
      }
    }
  }

  /** Every element of a subsequence occurs in the whole. */
  lemma {:induction false} SubsequenceMembers<T>(a: seq<T>, b: seq<T>)
    requires IsSubsequence(a, b)
    ensures forall i :: 0 <= i < |a| ==> a[i] in b
    decreases |b|
  {
    if |a| > 0 {
      if a[0] == b[0] && IsSubsequence(a[1..], b[1..]) {
        SubsequenceMembers(a[1..], b[1..]);
        assert forall i :: 1 <= i < |a| ==> a[i] == a[1..][i - 1];
      } else {
        SubsequenceMembers(a, b[1..]);
      }
    }
  }

  /** The rows of `s` for which the mask `p` holds, in their original order
      (`df[mask]` on a dataframe). */
  function Select<T(==)>(s: seq<T>, p: T -> bool): (r: seq<T>)
    ensures |r| <= |s|
    ensures forall i :: 0 <= i < |r| ==> r[i] in s && p(r[i])
    ensures forall i :: 0 <= i < |s| && p(s[i]) ==> s[i] in r
  {
    if |s| == 0 then []
    else if p(s[0]) then [s[0]] + Select(s[1..], p)
    else Select(s[1..], p)
  }

  /** A selection keeps every copy of a row value the mask accepts and no copy of one it
      rejects: duplicate rows are neither merged nor dropped. */
  lemma {:induction false} SelectCount<T>(s: seq<T>, p: T -> bool, x: T)
    ensures multiset(Select(s, p))[x] == if p(x) then multiset(s)[x] else 0
  {
    if |s| > 0 {
      assert s == [s[0]] + s[1..];
      SelectCount(s[1..], p, x);
    }
  }

  /** A selection keeps the surviving rows in their original order. */
  lemma {:induction false} SelectIsSubsequence<T>(s: seq<T>, p: T -> bool)
    ensures IsSubsequence(Select(s, p), s)
  {
    if |s| > 0 {
      SelectIsSubsequence(s[1..], p);
      if p(s[0]) {
        assert Select(s, p)[1..] == Select(s[1..], p);
      }
    }
  }

  /** A mask that holds everywhere selects everything. */
  lemma {:induction false} SelectAll<T>(s: seq<T>, p: T -> bool)
    requires forall i :: 0 <= i < |s| ==> p(s[i])
    ensures Select(s, p) == s
  {
    if |s| > 0 {
      SelectAll(s[1..], p);
      assert [s[0]] + s[1..] == s;
    }
  }

  /** A mask that holds nowhere selects nothing. */
  lemma {:induction false} SelectNone<T>(s: seq<T>, p: T -> bool)
    requires forall i :: 0 <= i < |s| ==> !p(s[i])
    ensures Select(s, p) == []
  {
    if |s| > 0 {
      SelectNone(s[1..], p);
    }
  }

  /** Two masks that agree on every row select the same rows. */
  lemma {:induction false} SelectCongruent<T>(s: seq<T>, p: T -> bool, q: T -> bool)
    requires forall i :: 0 <= i < |s| ==> p(s[i]) == q(s[i])
    ensures Select(s, p) == Select(s, q)
  {
    if |s| > 0 {
      SelectCongruent(s[1..], p, q);
    }
  }

  /** Applying two masks one after the other is applying their conjunction `pq`:
      successive `data = data[...]` steps compose. */
  lemma {:induction false} SelectSelect<T>(s: seq<T>, p: T -> bool, q: T -> bool, pq: T -> bool)
    requires forall i :: 0 <= i < |s| ==> pq(s[i]) == (p(s[i]) && q(s[i]))
    ensures Select(Select(s, p), q) == Select(s, pq)
  {
    if |s| > 0 {
      SelectSelect(s[1..], p, q, pq);
      if p(s[0]) {
        assert Select(s, p)[1..] == Select(s[1..], p);
      }
    }
  }

  /** Selection distributes over concatenation, so masking each file before `pd.concat`
      equals masking the concatenation. */
  lemma {:induction false} SelectConcat<T>(a: seq<T>, b: seq<T>, p: T -> bool)
    ensures Select(a + b, p) == Select(a, p) + Select(b, p)
  {
    if |a| == 0 {
      assert a + b == b;
    } else {
      assert (a + b)[1..] == a[1..] + b;
      SelectConcat(a[1..], b, p);
    }
  }

  /** A stronger mask selects a subsequence of what a weaker mask selects, hence never more rows. */
  lemma {:induction false} SelectStronger<T>(s: seq<T>, p: T -> bool, q: T -> bool)
    requires forall i :: 0 <= i < |s| ==> q(s[i]) ==> p(s[i])
    ensures IsSubsequence(Select(s, q), Select(s, p))
    ensures |Select(s, q)| <= |Select(s, p)|
  {
    if |s| > 0 {
      SelectStronger(s[1..], p, q);
      var rq, rp := Select(s[1..], q), Select(s[1..], p);
      if q(s[0]) {
        assert Select(s, q) == [s[0]] + rq && Select(s, p) == [s[0]] + rp;
        assert ([s[0]] + rq)[1..] == rq && ([s[0]] + rp)[1..] == rp;
      } else if p(s[0]) {
        assert Select(s, p) == [s[0]] + rp;
        SkipHead(Select(s, q), s[0], rp);
      }
    }
  }

  /** A subsequence of `t` is a subsequence of `[x] + t`. */
  lemma SkipHead<T>(a: seq<T>, x: T, t: seq<T>)
    requires IsSubsequence(a, t)
    ensures IsSubsequence(a, [x] + t)
  {
    if |a| > 0 {
      assert ([x] + t)[1..] == t;
    }
  }

  /** Index of the first element satisfying `p`, or `|s|` when there is none:
      the `if ... elif ...` chain and the `for ... return` loop of the source. */
  function FirstIndex<T>(s: seq<T>, p: T -> bool): (i: nat)
    ensures i <= |s|
    ensures forall j :: 0 <= j < i ==> !p(s[j])
    ensures i < |s| ==> p(s[i])
  {
    if |s| == 0 then 0
    else if p(s[0]) then 0
    else 1 + FirstIndex(s[1..], p)
  }

  /** The first matching index is at most any matching index. */
  lemma FirstIndexBefore<T>(s: seq<T>, p: T -> bool, k: nat)
    requires k < |s| && p(s[k])
    ensures FirstIndex(s, p) <= k
  {
  }

  /** Concatenation of a list of batches (`pd.concat`). */
  function Concat<T>(ss: seq<seq<T>>): (r: seq<T>)
  {
    if |ss| == 0 then [] else ss[0] + Concat(ss[1..])
  }

  /** Adding one more batch appends its rows at the end. */
  lemma {:induction false} ConcatAppend<T>(ss: seq<seq<T>>, s: seq<T>)
    ensures Concat(ss + [s]) == Concat(ss) + s
  {
    if |ss| > 0 {
      assert (ss + [s])[1..] == ss[1..] + [s];
      ConcatAppend(ss[1..], s);
    }
  }

  /** Masking each batch and then concatenating equals concatenating and then masking. */
  lemma {:induction false} SelectConcatAll<T>(ss: seq<seq<T>>, p: T -> bool)
    ensures Concat(seq(|ss|, i requires 0 <= i < |ss| => Select(ss[i], p))) == Select(Concat(ss), p)
  {
    var mapped := seq(|ss|, i requires 0 <= i < |ss| => Select(ss[i], p));
    if |ss| > 0 {
      var rest := seq(|ss| - 1, i requires 0 <= i < |ss| - 1 => Select(ss[1..][i], p));
      assert mapped[1..] == rest;
      SelectConcatAll(ss[1..], p);
      SelectConcat(ss[0], Concat(ss[1..]), p);
    }
  }
}
