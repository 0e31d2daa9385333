/** lcs/lcs.go. */
module Lcs {
  import opened Subsequences
  import opened WhiteSpace

  /** The recurrence the table is filled by. */
  function Lcs<T(==)>(a: seq<T>, b: seq<T>): nat {
    if a == [] || b == [] then 0
    else
      var a', b' := a[..|a| - 1], b[..|b| - 1];
      if a[|a| - 1] == b[|b| - 1] then Lcs(a', b') + 1
      else if Lcs(a', b) >= Lcs(a, b') then Lcs(a', b) else Lcs(a, b')
  }

  lemma {:induction false} SomeCommon<T>(a: seq<T>, b: seq<T>) returns (c: seq<T>)
    ensures Common(c, a, b) && |c| == Lcs(a, b)
    decreases |a| + |b|
  {
    if a == [] || b == [] {
      c := [];
    } else {
      var a', b' := a[..|a| - 1], b[..|b| - 1];
      if a[|a| - 1] == b[|b| - 1] {
        var d := SomeCommon(a', b');
        c := d + [a[|a| - 1]];
        assert c[..|c| - 1] == d;
      } else if Lcs(a', b) >= Lcs(a, b') {
        c := SomeCommon(a', b);
      } else {
        c := SomeCommon(a, b');
      }
    }
  }

  lemma {:induction false} CommonIsNoLonger<T>(c: seq<T>, a: seq<T>, b: seq<T>)
    requires Common(c, a, b)
    ensures |c| <= Lcs(a, b)
    decreases |a| + |b|
  {
    if c != [] {
      var a', b' := a[..|a| - 1], b[..|b| - 1];
      if a[|a| - 1] == b[|b| - 1] {
        DropLast(c, a);
        DropLast(c, b);
        CommonIsNoLonger(c[..|c| - 1], a', b');
      } else if Subsequence(c, a') {
        CommonIsNoLonger(c, a', b);
      } else {
        CommonIsNoLonger(c, a, b');
      }
    }
  }

  /** The recurrence computes the maximum over all common subsequences. */
  lemma LcsIsLongest<T(!new)>(a: seq<T>, b: seq<T>)
    ensures Longest(Lcs(a, b), a, b)
  {
    var c := SomeCommon(a, b);
    forall c | Common(c, a, b) ensures |c| <= Lcs(a, b) {
      CommonIsNoLonger(c, a, b);
    }
  }

  /** There is no common element. */
  predicate Apart<T(==)>(a: seq<T>, b: seq<T>) {
    forall x :: x in a ==> x !in b
  }

  lemma LcsBounds<T>(a: seq<T>, b: seq<T>)
    ensures Lcs(a, b) == Lcs(b, a)
    ensures Lcs(a, b) <= |a| && Lcs(a, b) <= |b|
    ensures 2 * Lcs(a, b) == |a| + |b| <==> a == b
    ensures Lcs(a, b) == 0 <==> Apart(a, b)
  {
    var c := SomeCommon(a, b);
    var d := SomeCommon(b, a);
    CommonIsNoLonger(c, b, a);
    CommonIsNoLonger(d, a, b);
    NoLonger(c, a);
    NoLonger(c, b);
    if a == b {
      Whole(a);
      CommonIsNoLonger(a, a, b);
    }
    if c != [] {
      Member(c, a);
      Member(c, b);
    }
    if x :| x in a && x in b {
      Single(x, a);
      Single(x, b);
      CommonIsNoLonger([x], a, b);
    }
  }

  lemma Member<T>(c: seq<T>, s: seq<T>)
    requires Subsequence(c, s) && c != []
    ensures c[0] in s
  {
    var at := SubsequencePicks(c, s);
    assert s[at[0]] == c[0];
  }

  lemma Single<T>(x: T, s: seq<T>)
    requires x in s
    ensures Subsequence([x], s)
  {
    var i :| 0 <= i < |s| && s[i] == x;
    PicksSubsequence([x], s, [i]);
  }

  /** What a cell of the table holds. */
  function Cell<T(==)>(a: seq<T>, b: seq<T>, i: nat, j: nat): nat
    requires i <= |a| && j <= |b|
  {
    Lcs(a[..i], b[..j])
  }

  lemma Filled<T>(a: seq<T>, b: seq<T>, i: nat, j: nat)
    requires 0 < i <= |a| && 0 < j <= |b|
    ensures Cell(a, b, i, j) ==
            if a[i - 1] == b[j - 1] then Cell(a, b, i - 1, j - 1) + 1
            else if Cell(a, b, i - 1, j) >= Cell(a, b, i, j - 1) then Cell(a, b, i - 1, j)
            else Cell(a, b, i, j - 1)
  {
    assert a[..i][..i - 1] == a[..i - 1] && b[..j][..j - 1] == b[..j - 1];
  }

  lemma Borders<T>(a: seq<T>, b: seq<T>)
    ensures forall i :: 0 <= i <= |a| ==> Cell(a, b, i, 0) == 0
    ensures forall j :: 0 <= j <= |b| ==> Cell(a, b, 0, j) == 0
    ensures Cell(a, b, |a|, |b|) == Lcs(a, b)
  {
    assert a[..|a|] == a && b[..|b|] == b;
  }

  method LongestCommonSubsequence<T(==, !new)>(a: seq<T>, b: seq<T>) returns (r: int)
    ensures r == Lcs(a, b) && Longest(r, a, b)
  {
    LcsIsLongest(a, b);
    Borders(a, b);
    var m, n := |a|, |b|;
    if m == 0 || n == 0 {
      return 0;
    }
    hide Cell, Lcs, Longest;
    var dp := new int[m + 1, n + 1]((i, j) => 0);
    for i := 1 to m + 1
      invariant forall k, l :: 0 <= k < i && 0 <= l <= n ==> dp[k, l] == Cell(a, b, k, l)
      invariant forall k :: i <= k <= m ==> dp[k, 0] == 0
    {
      for j := 1 to n + 1
        invariant forall k, l :: 0 <= k < i && 0 <= l <= n ==> dp[k, l] == Cell(a, b, k, l)
        invariant forall l :: 0 <= l < j ==> dp[i, l] == Cell(a, b, i, l)
        invariant forall k :: i < k <= m ==> dp[k, 0] == 0
      {
        Filled(a, b, i, j);
        if a[i - 1] == b[j - 1] {
          dp[i, j] := dp[i - 1, j - 1] + 1;
        } else if dp[i - 1, j] >= dp[i, j - 1] {
          dp[i, j] := dp[i - 1, j];
        } else {
          dp[i, j] := dp[i, j - 1];
        }
      }
    }
    r := dp[m, n];
  }

  // ---------------------------------------------------------------- similarity

  /** strings.Fields: the maximal runs of other characters. */
  function Fields(s: string): seq<string> {
    if s == "" then []
    else if Space(s[|s| - 1]) then Fields(s[..|s| - 1])
    else
      var w := Word(s);
      Fields(s[..|s| - |w|]) + [w]
  }

  /** The run of other characters s ends in. */
  function Word(s: string): (w: string)
    ensures |w| <= |s| && (s != "" && !Space(s[|s| - 1]) ==> w != "")
  {
    if s == "" || Space(s[|s| - 1]) then "" else Word(s[..|s| - 1]) + [s[|s| - 1]]
  }

  predicate IsWord(s: string) {
    s != "" && forall i :: 0 <= i < |s| ==> !Space(s[i])
  }

  /** A gap, a word, a gap and so on, to a last gap. */
  function Interleaved(gaps: seq<string>, words: seq<string>): string
    requires |gaps| == |words| + 1
  {
    if words == [] then gaps[0]
    else
      var n := |words| - 1;
      Interleaved(gaps[..n + 1], words[..n]) + words[n] + gaps[n + 1]
  }

  lemma {:induction false} WordIsLast(s: string)
    ensures var w := Word(s); var k := |s| - |w|;
            s[k..] == w && (forall i :: 0 <= i < |w| ==> !Space(w[i])) && (k > 0 ==> Space(s[k - 1]))
  {
    hide Space;
    if s != "" && !Space(s[|s| - 1]) {
      WordIsLast(s[..|s| - 1]);
    }
  }

  lemma LastGapGrows(gaps: seq<string>, words: seq<string>, more: string)
    requires |gaps| == |words| + 1
    ensures var n := |words|; Interleaved(gaps[n := gaps[n] + more], words) == Interleaved(gaps, words) + more
  {
    var n := |words|;
    if n > 0 {
      assert gaps[n := gaps[n] + more][..n] == gaps[..n];
      var front := Interleaved(gaps[..n], words[..n - 1]) + words[n - 1];
      assert front + (gaps[n] + more) == (front + gaps[n]) + more;
    }
  }

  lemma OneMoreWord(gaps: seq<string>, words: seq<string>, word: string)
    requires |gaps| == |words| + 1
    ensures Interleaved(gaps + [""], words + [word]) == Interleaved(gaps, words) + word
  {
    var n, more := |words|, words + [word];
    assert (gaps + [""])[..n + 1] == gaps && more[..n] == words;
    assert Interleaved(gaps, words) + word + "" == Interleaved(gaps, words) + word;
  }

  /** The string is the words with white space around them, and some between any two. */
  predicate Divides(s: string, gaps: seq<string>, words: seq<string>) {
    && |gaps| == |words| + 1 && Interleaved(gaps, words) == s
    && (forall i :: 0 <= i < |words| ==> IsWord(words[i]))
    && (forall i :: 0 <= i < |gaps| ==> Blank(gaps[i]) && (0 < i < |gaps| - 1 ==> gaps[i] != ""))
  }

  lemma DividesSpace(s: string, c: char, gaps: seq<string>, words: seq<string>)
    requires Divides(s, gaps, words) && Space(c)
    ensures Divides(s + [c], gaps[|words| := gaps[|words|] + [c]], words)
  {
    hide Space, Interleaved, IsWord;
    LastGapGrows(gaps, words, [c]);
  }

  lemma DividesWord(s: string, w: string, gaps: seq<string>, words: seq<string>)
    requires Divides(s, gaps, words) && IsWord(w) && (words == [] || gaps[|words|] != "")
    ensures Divides(s + w, gaps + [""], words + [w])
  {
    hide Space, Interleaved, IsWord;
    OneMoreWord(gaps, words, w);
  }

  /** The fields are the words of the string. */
  lemma {:induction false} FieldsAreWords(s: string) returns (gaps: seq<string>)
    ensures Divides(s, gaps, Fields(s))
    ensures if s == "" then Fields(s) == [] else Space(s[|s| - 1]) ==> gaps[|Fields(s)|] != ""
  {
    hide Space, Interleaved, IsWord, Blank;
    if s == "" {
      gaps := [""];
      NoWords(gaps);
    } else if Space(s[|s| - 1]) {
      var before := FieldsAreWords(s[..|s| - 1]);
      var words, c := Fields(s), s[|s| - 1];
      DividesSpace(s[..|s| - 1], c, before, words);
      assert s == s[..|s| - 1] + [c];
      gaps := before[|words| := before[|words|] + [c]];
    } else {
      var w := Word(s);
      var before := s[..|s| - |w|];
      WordIsLast(s);
      LastIsWord(s);
      gaps := FieldsAreWords(before);
      DividesWord(before, w, gaps, Fields(before));
      assert s == before + w;
      gaps := gaps + [""];
    }
  }

  lemma NoWords(gaps: seq<string>)
    requires gaps == [""]
    ensures Divides("", gaps, [])
  {
  }

  lemma LastIsWord(s: string)
    requires s != "" && !Space(s[|s| - 1])
    ensures IsWord(Word(s))
  {
    WordIsLast(s);
    hide Space;
  }

  /** A quotient of floats; rounding is not modelled. */
  datatype Float = Number(value: real) | NaN

  function Quotient(a: nat, b: nat): Float
    requires b == 0 ==> a == 0
  {
    if b == 0 then NaN else Number(a as real / b as real)
  }

  function Similar(s: string, t: string): Float {
    var v, w := Fields(s), Fields(t);
    LcsBounds(v, w);
    if s == t then Number(1.0) else if s == "" || t == "" then Number(0.0) else Quotient(2 * Lcs(v, w), |v| + |w|)
  }

  /** The similarity is not a number exactly for different strings of white space, and otherwise lies between 0, for
      strings without a common word, and 1, for strings of the same words. */
  lemma SimilarMeans(s: string, t: string)
    ensures var r := Similar(s, t);
            && (r.NaN? <==> s != t && s != "" && t != "" && Fields(s) == Fields(t) == [])
            && (r.Number? ==> 0.0 <= r.value <= 1.0
                              && (r.value == 1.0 <==> s == t || (s != "" && t != "" && Fields(s) == Fields(t)))
                              && (r.value == 0.0 <==> s != t && Apart(Fields(s), Fields(t))))
  {
    var v, w := Fields(s), Fields(t);
    assert (s == "" ==> v == []) && (t == "" ==> w == []);
    hide Lcs, Fields, Quotient;
    LcsBounds(v, w);
    QuotientBounds(2 * Lcs(v, w), |v| + |w|);
  }

  /** Two different blank strings: a quotient of zeros. */
  lemma BlanksAreNotANumber()
    ensures Similar(" ", "  ").NaN?
  {
    assert "  "[..1] == " ";
    assert Fields(" ") == [] && Fields("  ") == [];
  }

  method Similarity(s: string, t: string) returns (r: Float)
    ensures r == Similar(s, t)
    ensures r.NaN? <==> s != t && s != "" && t != "" && Fields(s) == Fields(t) == []
    ensures r.Number? ==> 0.0 <= r.value <= 1.0
    ensures r.Number? ==> (r.value == 1.0 <==> s == t || (s != "" && t != "" && Fields(s) == Fields(t)))
    ensures r.Number? ==> (r.value == 0.0 <==> s != t && Apart(Fields(s), Fields(t)))
  {
    SimilarMeans(s, t);
    hide Lcs, Fields, Longest, Quotient, Apart;
    if s == t {
      return Number(1.0);
    }
    if |s| == 0 || |t| == 0 {
      return Number(0.0);
    }
    var v, w := Fields(s), Fields(t);
    var length := LongestCommonSubsequence(v, w);
    LcsBounds(v, w);
    r := Quotient(2 * length, |v| + |w|);
  }

  /** Of other strings it is twice the greatest length of a common subsequence of the words over the number of words. */
  lemma SimilarIsShare(s: string, t: string, n: nat)
    requires s != t && s != "" && t != "" && Similar(s, t).Number? && Longest(n, Fields(s), Fields(t))
    ensures Similar(s, t).value * (|Fields(s)| + |Fields(t)|) as real == 2.0 * n as real
  {
    hide Lcs, Fields, Longest;
    var v, w := Fields(s), Fields(t);
    OnlyLongest(n, v, w);
    LcsBounds(v, w);
    QuotientTimes(2 * Lcs(v, w), |v| + |w|);
  }

  lemma OnlyLongest<T(!new)>(n: nat, a: seq<T>, b: seq<T>)
    requires Longest(n, a, b)
    ensures n == Lcs(a, b)
  {
    LcsIsLongest(a, b);
    hide Lcs;
  }

  lemma QuotientTimes(a: nat, b: nat)
    requires b == 0 ==> a == 0
    ensures Quotient(a, b).Number? ==> Quotient(a, b).value * b as real == a as real
  {
  }

  lemma SimilarIsSymmetric(s: string, t: string)
    ensures Similar(s, t) == Similar(t, s)
  {
    LcsBounds(Fields(s), Fields(t));
  }

  lemma QuotientBounds(a: nat, b: nat)
    requires a <= b
    ensures Quotient(a, b).NaN? <==> b == 0
    ensures var q := Quotient(a, b);
            q.Number? ==> 0.0 <= q.value <= 1.0 && (q.value == 1.0 <==> a == b) && (q.value == 0.0 <==> a == 0)
  {
    if b > 0 {
      var q := a as real / b as real;
      assert q * b as real == a as real;
    }
  }
}
