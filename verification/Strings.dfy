/** The string functions of Go's `strings` package that the cloud-name translators use,
    with a one-character separator. */
module Strings {
  function Split(s: string, c: char): (parts: seq<string>)
    ensures |parts| >= 1
    decreases |s|
  {
    if s == "" then [""]
    else
      var rest := Split(s[1..], c);
      if s[0] == c then [""] + rest else [[s[0]] + rest[0]] + rest[1..]
  }

  function Join(parts: seq<string>, c: char): string {
    if parts == [] then ""
    else if |parts| == 1 then parts[0]
    else parts[0] + [c] + Join(parts[1..], c)
  }

  /** The position of the last occurrence, or -1. */
  function LastIndex(s: string, c: char): (i: int)
    ensures -1 <= i < |s|
    ensures i >= 0 ==> s[i] == c
    ensures forall j :: i < j < |s| ==> s[j] != c
  {
    if s == "" then -1
    else if s[|s| - 1] == c then |s| - 1
    else LastIndex(s[..|s| - 1], c)
  }

  function FirstIndex(s: string, c: char): (i: int)
    ensures -1 <= i < |s|
    ensures i >= 0 ==> s[i] == c && c !in s[..i]
    ensures i < 0 ==> c !in s
    decreases |s|
  {
    if s == "" then -1
    else if s[0] == c then 0
    else
      var k := FirstIndex(s[1..], c);
      if k < 0 then -1 else k + 1
  }

  /** At most `n` parts; the last one keeps any further separators. */
  function SplitN(s: string, c: char, n: nat): (parts: seq<string>)
    requires n >= 1
    decreases n
  {
    var i := FirstIndex(s, c);
    if n == 1 || i < 0 then [s] else [s[..i]] + SplitN(s[i + 1..], c, n - 1)
  }

  function Replace(s: string, a: char, b: char): (r: string)
    ensures |r| == |s|
    ensures forall i :: 0 <= i < |s| ==> r[i] == if s[i] == a then b else s[i]
  {
    if s == "" then "" else [if s[0] == a then b else s[0]] + Replace(s[1..], a, b)
  }

  predicate Free(parts: seq<string>, c: char) {
    forall i :: 0 <= i < |parts| ==> c !in parts[i]
  }

  lemma {:induction false} SplitIsFree(s: string, c: char)
    ensures Free(Split(s, c), c)
    decreases |s|
  {
    if s != "" { SplitIsFree(s[1..], c); }
  }

  lemma {:induction false} SplitOfFree(s: string, c: char)
    requires c !in s
    ensures Split(s, c) == [s]
    decreases |s|
  {
    if s != "" {
      SplitOfFree(s[1..], c);
      assert [s[0]] + s[1..] == s;
    }
  }

  lemma {:induction false} JoinUndoesSplit(s: string, c: char)
    ensures Join(Split(s, c), c) == s
    decreases |s|
  {
    if s != "" {
      var rest := Split(s[1..], c);
      JoinUndoesSplit(s[1..], c);
      if s[0] == c {
        assert ([""] + rest)[1..] == rest;
      } else {
        var parts := [[s[0]] + rest[0]] + rest[1..];
        assert parts[1..] == rest[1..];
        assert Join(parts, c) == [s[0]] + Join(rest, c);
      }
    }
  }

  lemma {:induction false} SplitConcat(a: string, c: char, b: string)
    ensures Split(a + [c] + b, c) == Split(a, c) + Split(b, c)
    decreases |a|
  {
    if a == "" {
      assert a + [c] + b == [c] + b;
      assert ([c] + b)[1..] == b;
    } else {
      assert (a + [c] + b)[0] == a[0] && (a + [c] + b)[1..] == a[1..] + [c] + b;
      SplitConcat(a[1..], c, b);
    }
  }

  lemma {:induction false} SplitUndoesJoin(parts: seq<string>, c: char)
    requires parts != [] && Free(parts, c)
    ensures Split(Join(parts, c), c) == parts
    decreases |parts|
  {
    SplitOfFree(parts[0], c);
    if |parts| == 1 {
      assert parts == [parts[0]];
    } else {
      SplitConcat(parts[0], c, Join(parts[1..], c));
      SplitUndoesJoin(parts[1..], c);
      assert parts == [parts[0]] + parts[1..];
    }
  }

  lemma {:induction false} JoinConcat(p: seq<string>, q: seq<string>, c: char)
    requires p != [] && q != []
    ensures Join(p + q, c) == Join(p, c) + [c] + Join(q, c)
    decreases |p|
  {
    if |p| == 1 {
      assert (p + q)[1..] == q;
    } else {
      assert (p + q)[1..] == p[1..] + q;
      JoinConcat(p[1..], q, c);
    }
  }

  lemma {:induction false} JoinIsFree(p: seq<string>, c: char, d: char)
    requires Free(p, d) && c != d
    ensures d !in Join(p, c)
    decreases |p|
  {
    if |p| > 1 { JoinIsFree(p[1..], c, d); }
  }

  /** A character of a part is a character of the joined string. */
  lemma {:induction false} JoinContains(p: seq<string>, c: char, d: char)
    requires !Free(p, d)
    ensures d in Join(p, c)
    decreases |p|
  {
    if |p| > 1 && d !in p[0] {
      assert !Free(p[1..], d) by {
        var i :| 0 <= i < |p| && d in p[i];
        assert p[1..][i - 1] == p[i];
      }
      JoinContains(p[1..], c, d);
    }
  }

  lemma {:induction false} ReplaceFree(s: string, a: char, b: char)
    requires a !in s
    ensures Replace(s, a, b) == s
  {
    assert forall i :: 0 <= i < |s| ==> s[i] in s;
  }

  lemma {:induction false} ReplaceConcat(s: string, a: char, t: string, b: char)
    requires a !in s
    ensures Replace(s + [a] + t, a, b) == s + [b] + Replace(t, a, b)
  {
    var l, r := Replace(s + [a] + t, a, b), s + [b] + Replace(t, a, b);
    assert forall i :: 0 <= i < |s| ==> s[i] in s;
    assert |l| == |r| && forall i :: 0 <= i < |l| ==> l[i] == r[i];
  }

  /** Replacing the separator of a joined list is joining with the other separator. */
  lemma {:induction false} JoinSeparators(p: seq<string>, a: char, b: char)
    requires Free(p, a)
    ensures Replace(Join(p, a), a, b) == Join(p, b)
    decreases |p|
  {
    if p != [] {
      ReplaceFree(p[0], a, b);
      if |p| > 1 {
        ReplaceConcat(p[0], a, Join(p[1..], a), b);
        JoinSeparators(p[1..], a, b);
      }
    }
  }

  /** Splitting after replacing the separator is splitting at the old one. */
  lemma {:induction false} SplitReplaced(s: string, a: char, b: char)
    requires b !in s
    ensures Split(Replace(s, a, b), b) == Split(s, a)
    decreases |s|
  {
    if s != "" {
      SplitReplaced(s[1..], a, b);
      assert Replace(s, a, b)[1..] == Replace(s[1..], a, b);
    }
  }

  lemma {:induction false} FirstIndexAt(s: string, c: char, t: string)
    requires c !in s
    ensures FirstIndex(s + [c] + t, c) == |s|
    decreases |s|
  {
    if s != "" {
      assert (s + [c] + t)[1..] == s[1..] + [c] + t;
      FirstIndexAt(s[1..], c, t);
    }
  }

  lemma {:induction false} LastIndexAt(s: string, c: char, t: string)
    requires c !in t
    ensures LastIndex(s + [c] + t, c) == |s|
    decreases |t|
  {
    var whole := s + [c] + t;
    if t != "" {
      assert whole[..|whole| - 1] == s + [c] + t[..|t| - 1];
      LastIndexAt(s, c, t[..|t| - 1]);
    }
  }

  /** A prefix can be taken off again, however the rest was appended to it. */
  lemma {:induction false} JoinUndoesSplitN(s: string, c: char, n: nat)
    requires n >= 1
    ensures SplitN(s, c, n) != [] && Join(SplitN(s, c, n), c) == s
    decreases n
  {
    var i := FirstIndex(s, c);
    if n > 1 && i >= 0 {
      JoinUndoesSplitN(s[i + 1..], c, n - 1);
      JoinCons(s[..i], SplitN(s[i + 1..], c, n - 1), c);
      assert s == s[..i] + [c] + s[i + 1..];
    }
  }

  lemma {:induction false} JoinCons(first: string, rest: seq<string>, c: char)
    requires rest != []
    ensures Join([first] + rest, c) == first + [c] + Join(rest, c)
  {
    assert ([first] + rest)[1..] == rest;
  }

  /** The parts of a bounded split: all but the last are free of the separator. */
  lemma {:induction false} SplitNIsFree(s: string, c: char, n: nat, k: nat)
    requires n >= 1 && k + 1 < |SplitN(s, c, n)|
    ensures c !in SplitN(s, c, n)[k]
    decreases n
  {
    if k > 0 { SplitNIsFree(s[FirstIndex(s, c) + 1..], c, n - 1, k - 1); }
  }

  lemma {:induction false} JoinOfThree(p: seq<string>, c: char)
    requires |p| == 3
    ensures Join(p, c) == p[0] + [c] + p[1] + [c] + p[2]
  {
    assert p[1..][1..] == [p[2]];
    assert Join(p[1..], c) == p[1] + [c] + p[2];
  }

  lemma {:induction false} Halves(a: string, c: char, b: string)
    ensures (a + [c] + b)[..|a|] == a && (a + [c] + b)[|a| + 1..] == b
  {
  }

  lemma {:induction false} Regroup(p: string, a: string, b: string, c: string)
    ensures p + (a + b + c) == p + a + b + c
  {
  }

  lemma {:induction false} AfterPrefix(prefix: string, a: string, b: string, c: string)
    ensures prefix + a + b + c == prefix + (a + b + c)
    ensures prefix <= prefix + a + b + c
    ensures (prefix + a + b + c)[|prefix|..] == a + b + c
  {
    assert prefix + a + b + c == prefix + (a + b + c);
  }
}
