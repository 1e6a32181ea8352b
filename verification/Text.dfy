/** Strings as Go sees them: white space, UTF-8 length and the order of sort.Strings. */
module Text {
  import opened Seqs

  /** unicode.IsSpace. */
  predicate IsSpace(c: char) {
    var n := c as int;
    || 9 <= n <= 13 || n == 0x20 || n == 0x85 || n == 0xA0 || n == 0x1680
    || 0x2000 <= n <= 0x200A || n == 0x2028 || n == 0x2029 || n == 0x202F || n == 0x205F || n == 0x3000
  }

  /** Trimming white space leaves nothing. */
  predicate Blank(s: string) {
    forall c :: c in s ==> IsSpace(c)
  }

  function Utf8Length(s: string): nat {
    if |s| == 0 then 0
    else
      var n := s[|s| - 1] as int;
      Utf8Length(s[..|s| - 1]) + (if n < 0x80 then 1 else if n < 0x800 then 2 else if n < 0x1_0000 then 3 else 4)
  }

  /** Byte order of UTF-8, which is code point order. */
  predicate AtMost(a: string, b: string) {
    if |a| == 0 then true
    else if |b| == 0 then false
    else if a[0] != b[0] then a[0] < b[0]
    else AtMost(a[1..], b[1..])
  }

  lemma {:induction false} AtMostTotal(a: string, b: string)
    ensures AtMost(a, b) || AtMost(b, a)
    ensures AtMost(a, b) && AtMost(b, a) ==> a == b
  {
    if |a| > 0 && |b| > 0 && a[0] == b[0] {
      AtMostTotal(a[1..], b[1..]);
      assert a == [a[0]] + a[1..] && b == [b[0]] + b[1..];
    }
  }

  lemma {:induction false} AtMostTransitive(a: string, b: string, c: string)
    requires AtMost(a, b) && AtMost(b, c)
    ensures AtMost(a, c)
  {
    if |a| > 0 && a[0] == b[0] && b[0] == c[0] {
      AtMostTransitive(a[1..], b[1..], c[1..]);
    }
  }

  /** One string stands before another: it is a proper prefix, or the first character they differ in is smaller. */
  ghost predicate Precedes(a: string, b: string) {
    a < b || exists k :: 0 <= k < |a| && k < |b| && a[..k] == b[..k] && a[k] < b[k]
  }

  lemma PrecedesTail(a: string, b: string)
    requires |a| > 0 && |b| > 0 && a[0] == b[0]
    ensures Precedes(a, b) <==> Precedes(a[1..], b[1..])
  {
    var x, y := a[1..], b[1..];
    assert a == [a[0]] + x && b == [b[0]] + y;
    if k :| 0 <= k < |a| && k < |b| && a[..k] == b[..k] && a[k] < b[k] {
      assert a[..k][1..] == x[..k - 1] && b[..k][1..] == y[..k - 1];
      assert x[k - 1] < y[k - 1];
    }
    if k :| 0 <= k < |x| && k < |y| && x[..k] == y[..k] && x[k] < y[k] {
      assert a[..k + 1] == [a[0]] + x[..k] && b[..k + 1] == [b[0]] + y[..k];
      assert a[k + 1] < b[k + 1];
    }
    if x < y {
      assert b[..|a|] == [b[0]] + y[..|x|];
    }
    if a < b {
      assert b[..|a|][1..] == y[..|x|];
    }
  }

  lemma CommonPrefix(a: string, b: string)
    requires |a| > 0 && |b| > 0
    ensures forall k :: 0 < k <= |a| && k <= |b| && a[..k] == b[..k] ==> a[0] == b[0]
    ensures a < b ==> a[0] == b[0]
  {
    forall k | 0 < k <= |a| && k <= |b| && a[..k] == b[..k] ensures a[0] == b[0] {
      assert a[..k][0] == b[..k][0];
    }
  }

  lemma PrecedesFirst(a: string, b: string)
    requires |a| > 0 && |b| > 0 && a[0] != b[0]
    ensures Precedes(a, b) <==> a[0] < b[0]
  {
    CommonPrefix(a, b);
    assert a[..0] == b[..0];
  }

  /** The comparison is the order of sort.Strings: at most means equal or before. */
  lemma {:induction false} AtMostMeans(a: string, b: string)
    ensures AtMost(a, b) <==> a == b || Precedes(a, b)
  {
    if |a| > 0 && |b| > 0 {
      if a[0] == b[0] {
        AtMostMeans(a[1..], b[1..]);
        PrecedesTail(a, b);
        assert a == [a[0]] + a[1..] && b == [b[0]] + b[1..];
      } else {
        PrecedesFirst(a, b);
      }
    }
  }

  ghost predicate SortedStrictly(s: seq<string>) {
    forall i, j :: 0 <= i < j < |s| ==> AtMost(s[i], s[j]) && s[i] != s[j]
  }

  ghost predicate Increasing(s: seq<string>) {
    forall i :: 0 <= i < |s| - 1 ==> Precedes(s[i], s[i + 1])
  }

  lemma {:induction false} IncreasingPair(s: seq<string>, i: nat, j: nat)
    requires Increasing(s) && i < j < |s|
    ensures AtMost(s[i], s[j]) && s[i] != s[j]
  {
    assert Precedes(s[j - 1], s[j]);
    AtMostMeans(s[j - 1], s[j]);
    if i < j - 1 {
      IncreasingPair(s, i, j - 1);
      AtMostTransitive(s[i], s[j - 1], s[j]);
      AtMostTotal(s[i], s[j - 1]);
    }
  }

  /** Strictly sorted means that each string stands before its neighbour. */
  lemma SortedMeans(s: seq<string>)
    ensures SortedStrictly(s) <==> Increasing(s)
  {
    if SortedStrictly(s) {
      forall i | 0 <= i < |s| - 1 ensures Precedes(s[i], s[i + 1]) {
        AtMostMeans(s[i], s[i + 1]);
      }
    }
    if Increasing(s) {
      forall i, j | 0 <= i < j < |s| ensures AtMost(s[i], s[j]) && s[i] != s[j] {
        IncreasingPair(s, i, j);
      }
    }
  }

  lemma SortedCons(x: string, s: seq<string>)
    requires SortedStrictly(s) && forall y :: y in s ==> AtMost(x, y) && x != y
    ensures SortedStrictly([x] + s)
  {
    forall i, j | 0 <= i < j < |s| + 1 ensures AtMost(([x] + s)[i], ([x] + s)[j]) && ([x] + s)[i] != ([x] + s)[j] {
      assert s[j - 1] in s;
    }
  }

  /** A strictly sorted sequence is determined by its elements, so sorting hides the order in which a
      map was walked. */
  lemma {:induction false} SortedIsUnique(s: seq<string>, t: seq<string>)
    requires SortedStrictly(s) && SortedStrictly(t) && forall x :: x in s <==> x in t
    ensures s == t
  {
    NoDupCount(s);
    NoDupCount(t);
    assert (set x | x in s) == (set x | x in t);
    if |s| > 0 {
      assert s[0] in t && t[0] in s;
      AtMostTotal(s[0], t[0]);
      assert s == [s[0]] + s[1..] && t == [t[0]] + t[1..];
      forall x ensures x in s[1..] <==> x in t[1..] {
        assert x in s <==> x in t;
      }
      SortedIsUnique(s[1..], t[1..]);
    }
  }

  function InsertSorted(s: seq<string>, x: string): (r: seq<string>)
    requires SortedStrictly(s) && x !in s
    ensures SortedStrictly(r) && forall y :: y in r <==> y in s || y == x
  {
    if |s| == 0 then [x]
    else if AtMost(x, s[0]) then InsertedFirst(s, x); [x] + s
    else
      AtMostTotal(x, s[0]);
      var rest := InsertSorted(s[1..], x);
      assert s == [s[0]] + s[1..];
      SortedCons(s[0], rest);
      [s[0]] + rest
  }

  lemma InsertedFirst(s: seq<string>, x: string)
    requires SortedStrictly(s) && |s| > 0 && x !in s && AtMost(x, s[0])
    ensures SortedStrictly([x] + s)
  {
    forall y | y in s ensures AtMost(x, y) {
      var i :| 0 <= i < |s| && s[i] == y;
      if i > 0 { AtMostTransitive(x, s[0], s[i]); }
    }
    SortedCons(x, s);
  }
}
