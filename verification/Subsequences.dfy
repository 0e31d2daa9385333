/** Subsequences, and longest common ones. */
module Subsequences {
  /** r is s less some elements, in the same order. */
  predicate Subsequence<T(==)>(r: seq<T>, s: seq<T>) {
    r == [] || (s != [] && (Subsequence(r, s[..|s| - 1])
                            || (r[|r| - 1] == s[|s| - 1] && Subsequence(r[..|r| - 1], s[..|s| - 1]))))
  }

  /** The elements of s at increasing positions. */
  ghost predicate Picks<T>(r: seq<T>, s: seq<T>, at: seq<nat>) {
    && |at| == |r| && (forall i :: 0 <= i < |at| ==> at[i] < |s| && s[at[i]] == r[i])
    && (forall i, j :: 0 <= i < j < |at| ==> at[i] < at[j])
  }

  lemma {:induction false} SubsequencePicks<T>(r: seq<T>, s: seq<T>) returns (at: seq<nat>)
    requires Subsequence(r, s)
    ensures Picks(r, s, at)
  {
    if r == [] {
      at := [];
    } else if Subsequence(r, s[..|s| - 1]) {
      at := SubsequencePicks(r, s[..|s| - 1]);
    } else {
      at := SubsequencePicks(r[..|r| - 1], s[..|s| - 1]);
      at := at + [|s| - 1];
    }
  }

  lemma {:induction false} PicksSubsequence<T>(r: seq<T>, s: seq<T>, at: seq<nat>)
    requires Picks(r, s, at)
    ensures Subsequence(r, s)
  {
    if r != [] {
      var n := |r| - 1;
      if at[n] == |s| - 1 {
        PicksSubsequence(r[..n], s[..|s| - 1], at[..n]);
      } else {
        forall i | 0 <= i < |at| ensures at[i] < |s| - 1 {
          assert i < n ==> at[i] < at[n];
        }
        PicksSubsequence(r, s[..|s| - 1], at);
      }
    }
  }

  /** A subsequence loses its last element with the whole's. */
  lemma {:induction false} DropLast<T>(r: seq<T>, s: seq<T>)
    requires Subsequence(r, s) && r != []
    ensures s != [] && Subsequence(r[..|r| - 1], s[..|s| - 1])
  {
    if Subsequence(r, s[..|s| - 1]) {
      DropLast(r, s[..|s| - 1]);
    }
  }

  lemma {:induction false} NoLonger<T>(r: seq<T>, s: seq<T>)
    requires Subsequence(r, s)
    ensures |r| <= |s| && (|r| == |s| ==> r == s)
  {
    if r != [] {
      DropLast(r, s);
      NoLonger(r[..|r| - 1], s[..|s| - 1]);
      if |r| == |s| && Subsequence(r, s[..|s| - 1]) {
        NoLonger(r, s[..|s| - 1]);
      }
    }
  }

  /** A subsequence of a beginning is one of the whole. */
  lemma {:induction false} SubsequenceOfPrefix<T>(r: seq<T>, s: seq<T>, n: nat)
    requires n <= |s| && Subsequence(r, s[..n])
    ensures Subsequence(r, s)
  {
    if n == |s| {
      assert s[..n] == s;
    } else {
      assert s[..|s| - 1][..n] == s[..n];
      SubsequenceOfPrefix(r, s[..|s| - 1], n);
    }
  }

  lemma {:induction false} Whole<T>(s: seq<T>)
    ensures Subsequence(s, s)
  {
    if s != [] {
      Whole(s[..|s| - 1]);
    }
  }

  predicate Common<T(==)>(c: seq<T>, a: seq<T>, b: seq<T>) {
    Subsequence(c, a) && Subsequence(c, b)
  }

  /** n is the greatest length of a common subsequence. */
  ghost predicate Longest<T(!new)>(n: nat, a: seq<T>, b: seq<T>) {
    (exists c :: Common(c, a, b) && |c| == n) && (forall c :: Common(c, a, b) ==> |c| <= n)
  }
}
