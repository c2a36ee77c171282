/** `Array.prototype.sort` with the comparator `(a, b) => b.score - a.score`,
    which orders by descending score and, being stable, keeps entries of
    equal score in their input order; and `Array.prototype.slice(0, n)`. */
module ScoreSort {
  import opened Results
  import opened Arith

  predicate SortedDesc(s: seq<RankedResult>) {
    forall i, j :: 0 <= i < j < |s| ==> s[i].score >= s[j].score
  }

  /** `x` placed after every entry of `s` that scores at least as much. */
  function Insert(x: RankedResult, s: seq<RankedResult>): (r: seq<RankedResult>)
    ensures |r| == |s| + 1
    ensures multiset(r) == multiset(s) + multiset{x}
    decreases |s|
  {
    if |s| == 0 then [x]
    else if s[0].score >= x.score then
      assert s == [s[0]] + s[1..];
      [s[0]] + Insert(x, s[1..])
    else [x] + s
  }

  /** Insertion sort, each entry inserted behind the earlier ones of equal
      score. */
  function SortByScore(s: seq<RankedResult>): (r: seq<RankedResult>)
    ensures |r| == |s|
    ensures multiset(r) == multiset(s)
    decreases |s|
  {
    if |s| == 0 then []
    else
      assert s == s[..|s| - 1] + [s[|s| - 1]];
      Insert(s[|s| - 1], SortByScore(s[..|s| - 1]))
  }

  /** The entries of `s` whose score is exactly `x`, in order. */
  function WithScore(s: seq<RankedResult>, x: real): seq<RankedResult>
    decreases |s|
  {
    if |s| == 0 then []
    else (if s[0].score == x then [s[0]] else []) + WithScore(s[1..], x)
  }

  lemma {:induction false} SortedTail(s: seq<RankedResult>)
    requires SortedDesc(s) && |s| > 0
    ensures SortedDesc(s[1..])
  {
  }

  /** Every entry of `Insert(x, t)` is `x` or an entry of `t`. */
  lemma {:induction false} InsertMembers(x: RankedResult, t: seq<RankedResult>)
    ensures forall y :: y in Insert(x, t) ==> y == x || y in t
  {
    forall y | y in Insert(x, t) ensures y == x || y in t {
      assert y in multiset(Insert(x, t));
    }
  }

  /** The head of a list sorted by descending score scores at least as much
      as anything in the list. */
  lemma {:induction false} HeadMax(s: seq<RankedResult>)
    requires SortedDesc(s) && |s| > 0
    ensures forall y :: y in s ==> y.score <= s[0].score
  {
  }

  lemma {:induction false} TailMembers(s: seq<RankedResult>)
    requires |s| > 0
    ensures forall y :: y in s[1..] ==> y in s
  {
  }

  lemma {:induction false} ConsSorted(h: RankedResult, r: seq<RankedResult>)
    requires SortedDesc(r)
    requires forall y :: y in r ==> y.score <= h.score
    ensures SortedDesc([h] + r)
  {
    var s := [h] + r;
    forall i, j | 0 <= i < j < |s| ensures s[i].score >= s[j].score {
      assert s[j] == r[j - 1];
      if i > 0 {
        assert s[i] == r[i - 1];
      }
    }
  }

  lemma {:induction false} InsertSorted(x: RankedResult, s: seq<RankedResult>)
    requires SortedDesc(s)
    ensures SortedDesc(Insert(x, s))
    decreases |s|
  {
    if |s| == 0 {
    } else if s[0].score >= x.score {
      SortedTail(s);
      InsertSorted(x, s[1..]);
      InsertMembers(x, s[1..]);
      HeadMax(s);
      TailMembers(s);
      ConsSorted(s[0], Insert(x, s[1..]));
    } else {
      HeadMax(s);
      ConsSorted(x, s);
    }
  }

  /** The sort orders by descending score. */
  lemma {:induction false} SortSorted(s: seq<RankedResult>)
    ensures SortedDesc(SortByScore(s))
    decreases |s|
  {
    if |s| > 0 {
      SortSorted(s[..|s| - 1]);
      InsertSorted(s[|s| - 1], SortByScore(s[..|s| - 1]));
    }
  }

  lemma {:induction false} WithScoreAppend(a: seq<RankedResult>, b: seq<RankedResult>, x: real)
    ensures WithScore(a + b, x) == WithScore(a, x) + WithScore(b, x)
    decreases |a|
  {
    if |a| > 0 {
      assert (a + b)[1..] == a[1..] + b;
      WithScoreAppend(a[1..], b, x);
    } else {
      assert a + b == b;
    }
  }

  /** Nothing in a list sorted by descending score whose head is below x
      scores exactly x. */
  lemma {:induction false} WithScoreBelowHead(s: seq<RankedResult>, x: real)
    requires SortedDesc(s) && |s| > 0 && s[0].score < x
    ensures WithScore(s, x) == []
    decreases |s|
  {
    if |s| > 1 {
      WithScoreBelowHead(s[1..], x);
    }
  }

  lemma {:induction false} WithScoreCons(h: RankedResult, r: seq<RankedResult>, x: real)
    ensures WithScore([h] + r, x) == (if h.score == x then [h] else []) + WithScore(r, x)
  {
    assert ([h] + r)[1..] == r;
  }

  lemma {:induction false} InsertStable(e: RankedResult, s: seq<RankedResult>, x: real)
    requires SortedDesc(s)
    ensures WithScore(Insert(e, s), x) == WithScore(s, x) + (if e.score == x then [e] else [])
    decreases |s|
  {
    if |s| == 0 {
      WithScoreCons(e, [], x);
    } else if s[0].score >= e.score {
      SortedTail(s);
      InsertStable(e, s[1..], x);
      WithScoreCons(s[0], Insert(e, s[1..]), x);
      WithScoreCons(s[0], s[1..], x);
      assert [s[0]] + s[1..] == s;
    } else {
      WithScoreCons(e, s, x);
      if e.score == x {
        WithScoreBelowHead(s, x);
      }
    }
  }

  lemma {:induction false} SplitLast<T>(s: seq<T>)
    requires |s| > 0
    ensures s == s[..|s| - 1] + [s[|s| - 1]]
  {
  }

  lemma {:induction false} WithScoreSnoc(s: seq<RankedResult>, e: RankedResult, x: real)
    ensures WithScore(s + [e], x) == WithScore(s, x) + (if e.score == x then [e] else [])
  {
    WithScoreAppend(s, [e], x);
    assert [e][1..] == [];
  }

  /** The sort is stable: for every score, the entries with that score come
      out in the order they went in. */
  lemma {:induction false} SortStable(s: seq<RankedResult>, x: real)
    ensures WithScore(SortByScore(s), x) == WithScore(s, x)
    decreases |s|
  {
    if |s| > 0 {
      var pre, last := s[..|s| - 1], s[|s| - 1];
      SortStable(pre, x);
      SortSorted(pre);
      InsertStable(last, SortByScore(pre), x);
      SplitLast(s);
      WithScoreSnoc(pre, last, x);
    }
  }

  /** Cutting a list short keeps, for every score, a prefix of the entries
      with that score. */
  lemma {:induction false} WithScorePrefix(s: seq<RankedResult>, m: nat, x: real)
    requires m <= |s|
    ensures WithScore(s[..m], x) <= WithScore(s, x)
    decreases |s|
  {
    if m > 0 {
      assert s[..m][0] == s[0];
      assert s[..m][1..] == s[1..][..m - 1];
      WithScorePrefix(s[1..], m - 1, x);
    }
  }

  /** `s.slice(0, n)`: the first n entries, and for a negative n all but the
      last -n. */
  function JsSlice(s: seq<RankedResult>, n: int): (r: seq<RankedResult>)
    ensures r <= s
    ensures n >= 0 ==> |r| == Min(n, |s|)
    ensures n < 0 ==> |r| == Max(0, |s| + n)
  {
    if n >= 0 then s[..Min(n, |s|)] else s[..Max(0, |s| + n)]
  }
}
