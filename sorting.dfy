/** The generator's ordering of the word list: a stable sort by length, so
    that the longest word comes last and is placed first. */
module Sorting {

  predicate SortedByLength(s: seq<string>) {
    forall i, j :: 0 <= i < j < |s| ==> |s[i]| <= |s[j]|
  }

  /** `t` with `w` inserted after every word of `t` no longer than `w`. */
  function InsertByLength(t: seq<string>, w: string): (r: seq<string>)
    ensures |r| == |t| + 1
  {
    if |t| == 0 then [w]
    else if |t[|t| - 1]| <= |w| then t + [w]
    else InsertByLength(t[..|t| - 1], w) + [t[|t| - 1]]
  }

  /** Insertion sort by length, taking the words in list order. */
  function SortByLength(s: seq<string>): (r: seq<string>)
    ensures |r| == |s|
  {
    if |s| == 0 then [] else InsertByLength(SortByLength(s[..|s| - 1]), s[|s| - 1])
  }

  /** The words of `s` of length `n`, in list order. */
  function OfLength(s: seq<string>, n: int): seq<string> {
    if |s| == 0 then []
    else OfLength(s[..|s| - 1], n) + (if |s[|s| - 1]| == n then [s[|s| - 1]] else [])
  }

  lemma {:induction false} InsertByLengthPerm(t: seq<string>, w: string)
    ensures multiset(InsertByLength(t, w)) == multiset(t) + multiset{w}
  {
    if |t| > 0 && |t[|t| - 1]| > |w| {
      InsertByLengthPerm(t[..|t| - 1], w);
      assert t == t[..|t| - 1] + [t[|t| - 1]];
    }
  }

  lemma {:induction false} InsertByLengthSorted(t: seq<string>, w: string)
    requires SortedByLength(t)
    ensures SortedByLength(InsertByLength(t, w))
  {
    if |t| > 0 && |t[|t| - 1]| > |w| {
      var init, last := t[..|t| - 1], t[|t| - 1];
      InsertByLengthSorted(init, w);
      InsertByLengthPerm(init, w);
      var r := InsertByLength(init, w);
      forall i | 0 <= i < |r|
        ensures |r[i]| <= |last|
      {
        assert r[i] in multiset(r);
        if r[i] != w {
          assert r[i] in multiset(init);
        }
      }
    }
  }

  /** The sort keeps every word, duplicates included. */
  lemma {:induction false} SortByLengthPerm(s: seq<string>)
    ensures multiset(SortByLength(s)) == multiset(s)
  {
    if |s| > 0 {
      var init, last := s[..|s| - 1], s[|s| - 1];
      SortByLengthPerm(init);
      InsertByLengthPerm(SortByLength(init), last);
      assert SortByLength(s) == InsertByLength(SortByLength(init), last);
      assert s == init + [last];
      assert multiset(s) == multiset(init) + multiset{last};
    }
  }

  /** The sort orders by length. */
  lemma {:induction false} SortByLengthSorted(s: seq<string>)
    ensures SortedByLength(SortByLength(s))
  {
    if |s| > 0 {
      SortByLengthSorted(s[..|s| - 1]);
      InsertByLengthSorted(SortByLength(s[..|s| - 1]), s[|s| - 1]);
    }
  }

  /** The sort orders by length and keeps every word, duplicates included. */
  lemma SortByLengthCorrect(s: seq<string>)
    ensures SortedByLength(SortByLength(s))
    ensures multiset(SortByLength(s)) == multiset(s)
  {
    SortByLengthPerm(s);
    SortByLengthSorted(s);
  }

  lemma {:induction false} InsertByLengthStable(t: seq<string>, w: string, n: int)
    requires SortedByLength(t)
    ensures OfLength(InsertByLength(t, w), n) == OfLength(t, n) + (if |w| == n then [w] else [])
  {
    if |t| == 0 {
      assert OfLength([w], n) == OfLength([w][..0], n) + (if |w| == n then [w] else []);
    } else if |t[|t| - 1]| <= |w| {
      assert (t + [w])[..|t|] == t;
    } else {
      var init, last := t[..|t| - 1], t[|t| - 1];
      InsertByLengthStable(init, w, n);
      var r := InsertByLength(init, w);
      assert (r + [last])[..|r|] == r;
    }
  }

  /** The sort is stable: words of equal length keep their relative order. */
  lemma {:induction false} SortByLengthStable(s: seq<string>, n: int)
    ensures OfLength(SortByLength(s), n) == OfLength(s, n)
  {
    if |s| > 0 {
      SortByLengthStable(s[..|s| - 1], n);
      SortByLengthSorted(s[..|s| - 1]);
      InsertByLengthStable(SortByLength(s[..|s| - 1]), s[|s| - 1], n);
    }
  }

  /** The last word of the sorted list is a longest word of the input. */
  lemma LongestLast(s: seq<string>)
    requires |s| > 0
    ensures |SortByLength(s)| == |s|
    ensures forall i :: 0 <= i < |s| ==> |s[i]| <= |SortByLength(s)[|s| - 1]|
    ensures SortByLength(s)[|s| - 1] in s
  {
    var r := SortByLength(s);
    SortByLengthPerm(s);
    assert |r| == |multiset(r)| == |multiset(s)| == |s|;
    forall i | 0 <= i < |s|
      ensures |s[i]| <= |r[|s| - 1]|
    {
      assert s[i] in multiset(r);
      var j :| 0 <= j < |r| && r[j] == s[i];
    }
    assert r[|s| - 1] in multiset(s);
  }
}
