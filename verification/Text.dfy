/** Strings as the session files use them: lines, trimming, searching and decimal numerals. */
module Text {

  datatype Option<+T> = None | Some(value: T)

  lemma {:induction false} Associative<T>(a: seq<T>, b: seq<T>, c: seq<T>)
    ensures a + (b + c) == a + b + c
  {
  }

  lemma {:induction false} PrefixNext<T>(s: seq<T>, n: nat)
    requires n < |s|
    ensures s[..n + 1] == s[..n] + [s[n]]
  {
  }

  // ----- White space -----

  /** Go's unicode.IsSpace. */
  predicate IsSpace(c: char) {
    || c == ' ' || '\t' <= c <= '\r' || c == '\U{85}' || c == '\U{A0}' || c == '\U{1680}'
    || '\U{2000}' <= c <= '\U{200A}' || c == '\U{2028}' || c == '\U{2029}'
    || c == '\U{202F}' || c == '\U{205F}' || c == '\U{3000}'
  }

  predicate AllSpace(s: string) {
    forall i :: 0 <= i < |s| ==> IsSpace(s[i])
  }

  function TrimLeft(s: string): string {
    if s != [] && IsSpace(s[0]) then TrimLeft(s[1..]) else s
  }

  function TrimRight(s: string): string {
    if s != [] && IsSpace(s[|s| - 1]) then TrimRight(s[..|s| - 1]) else s
  }

  /** strings.TrimSpace. */
  function Trim(s: string): string {
    TrimRight(TrimLeft(s))
  }

  /** Nothing is left to trim at either end. */
  predicate Trimmed(s: string) {
    s != [] ==> !IsSpace(s[0]) && !IsSpace(s[|s| - 1])
  }

  lemma {:induction false} TrimLeftSplits(s: string)
    ensures var t := TrimLeft(s);
            && |t| <= |s| && t == s[|s| - |t|..] && AllSpace(s[..|s| - |t|])
            && (t != [] ==> !IsSpace(t[0]))
  {
    if s != [] && IsSpace(s[0]) {
      TrimLeftSplits(s[1..]);
      var t := TrimLeft(s);
      assert s[..|s| - |t|] == [s[0]] + s[1..][..|s| - 1 - |t|];
    }
  }

  lemma {:induction false} TrimRightSplits(s: string)
    ensures var t := TrimRight(s);
            && |t| <= |s| && t == s[..|t|] && AllSpace(s[|t|..])
            && (t != [] ==> !IsSpace(t[|t| - 1]))
  {
    if s != [] && IsSpace(s[|s| - 1]) {
      TrimRightSplits(s[..|s| - 1]);
      var t := TrimRight(s);
      assert s[|t|..] == s[..|s| - 1][|t|..] + [s[|s| - 1]];
    }
  }

  /** Trimming cuts white space off both ends and nothing else. */
  lemma {:induction false} TrimSplits(s: string) returns (pre: string, post: string)
    ensures s == pre + Trim(s) + post && AllSpace(pre) && AllSpace(post) && Trimmed(Trim(s))
  {
    TrimLeftSplits(s);
    var t := TrimLeft(s);
    TrimRightSplits(t);
    pre, post := s[..|s| - |t|], t[|Trim(s)|..];
    assert s == pre + t && t == Trim(s) + post;
  }

  lemma {:induction false} TrimLeftSkips(pre: string, s: string)
    requires AllSpace(pre)
    ensures TrimLeft(pre + s) == TrimLeft(s)
  {
    if pre == [] {
      assert pre + s == s;
    } else {
      assert (pre + s)[1..] == pre[1..] + s;
      TrimLeftSkips(pre[1..], s);
    }
  }

  lemma {:induction false} TrimRightSkips(s: string, post: string)
    requires AllSpace(post)
    ensures TrimRight(s + post) == TrimRight(s)
  {
    if post == [] {
      assert s + post == s;
    } else {
      assert (s + post)[..|s + post| - 1] == s + post[..|post| - 1];
      TrimRightSkips(s, post[..|post| - 1]);
    }
  }

  /** A trimmed core is found again inside any white-space padding. */
  lemma {:induction false} TrimOfPadded(pre: string, s: string, post: string)
    requires AllSpace(pre) && AllSpace(post) && Trimmed(s)
    ensures Trim(pre + s + post) == s
  {
    assert pre + s + post == pre + (s + post);
    TrimLeftSkips(pre, s + post);
    if s == [] {
      assert s + post == post + [];
      TrimLeftSkips(post, []);
    } else {
      assert TrimLeft(s + post) == s + post;
      TrimRightSkips(s, post);
    }
  }

  lemma {:induction false} TrimPadding(pre: string, s: string, post: string)
    requires AllSpace(pre) && AllSpace(post)
    ensures Trim(pre + s + post) == Trim(s)
  {
    var a, b := TrimSplits(s);
    assert pre + s + post == (pre + a) + Trim(s) + (b + post);
    TrimOfPadded(pre + a, Trim(s), b + post);
  }

  lemma {:induction false} TrimOfTrimmed(s: string)
    requires Trimmed(s)
    ensures Trim(s) == s
  {
    assert [] + s + [] == s;
    TrimOfPadded([], s, []);
  }

  lemma {:induction false} TrimIdempotent(s: string)
    ensures Trim(Trim(s)) == Trim(s) && Trimmed(Trim(s))
  {
    var _, _ := TrimSplits(s);
    TrimOfTrimmed(Trim(s));
  }

  /** Behind a text that starts and ends in print, trimming only sees the tail's end. */
  lemma {:induction false} TrimTail(front: string, tail: string)
    requires front != [] && Trimmed(front)
    ensures Trim(" " + front + tail) == front + TrimRight(tail)
  {
    TrimRightSplits(tail);
    var t := TrimRight(tail);
    var post := tail[|t|..];
    assert front + tail == (front + t) + post;
    assert " " + front + tail == " " + (front + t) + post;
    TrimOfPadded(" ", front + t, post);
  }

  lemma {:induction false} TrimOfTrimRight(s: string)
    ensures Trim(TrimRight(s)) == Trim(s)
  {
    TrimRightSplits(s);
    var t := TrimRight(s);
    assert s == [] + t + s[|t|..] && t == [] + t + [];
    TrimPadding([], t, s[|t|..]);
  }

  lemma {:induction false} TrimOnlyRemoves(s: string, c: char)
    requires c !in s
    ensures c !in Trim(s)
  {
    var pre, post := TrimSplits(s);
  }

  // ----- Lines -----

  /** strings.Split(s, "\n"). */
  function Lines(s: string): (r: seq<string>)
    ensures |r| >= 1
  {
    if s == [] then [[]]
    else
      var r := Lines(s[1..]);
      if s[0] == '\n' then [[]] + r else [[s[0]] + r[0]] + r[1..]
  }

  /** strings.Join(ls, "\n"). */
  function JoinLines(ls: seq<string>): string {
    if |ls| == 0 then ""
    else if |ls| == 1 then ls[0]
    else ls[0] + "\n" + JoinLines(ls[1..])
  }

  lemma {:induction false} LinesOfConcat(a: string, b: string)
    ensures Lines(a + "\n" + b) == Lines(a) + Lines(b)
  {
    if a == [] {
      assert (a + "\n" + b)[1..] == b;
    } else {
      assert (a + "\n" + b)[1..] == a[1..] + "\n" + b;
      LinesOfConcat(a[1..], b);
    }
  }

  lemma {:induction false} LinesOfOne(a: string)
    requires '\n' !in a
    ensures Lines(a) == [a]
  {
    if a != [] {
      LinesOfOne(a[1..]);
      assert [a[0]] + a[1..] == a;
    }
  }

  lemma {:induction false} LinesHaveNoNewline(s: string)
    ensures forall l :: l in Lines(s) ==> '\n' !in l
  {
    if s != [] {
      LinesHaveNoNewline(s[1..]);
    }
  }

  lemma {:induction false} JoinOfLines(s: string)
    ensures JoinLines(Lines(s)) == s
  {
    if s != [] {
      JoinOfLines(s[1..]);
      var r := Lines(s[1..]);
      if s[0] == '\n' {
        assert ([[]] + r)[1..] == r;
      } else if |r| > 1 {
        assert ([[s[0]] + r[0]] + r[1..])[1..] == r[1..];
      }
    }
  }

  lemma {:induction false} JoinOfConcat(a: seq<string>, b: seq<string>)
    requires a != [] && b != []
    ensures JoinLines(a + b) == JoinLines(a) + "\n" + JoinLines(b)
  {
    if |a| == 1 {
      assert (a + b)[1..] == b;
    } else {
      assert (a + b)[1..] == a[1..] + b;
      JoinOfConcat(a[1..], b);
    }
  }

  // ----- Searching -----

  /** strings.Index: where the first occurrence of p starts, or -1. */
  function Index(s: string, p: string): (i: int)
    ensures -1 <= i <= |s|
    ensures i >= 0 ==> i + |p| <= |s| && p == s[i..i + |p|]
  {
    if p <= s then 0
    else if s == [] then -1
    else
      var i := Index(s[1..], p);
      if i < 0 then -1 else i + 1
  }

  predicate Contains(s: string, p: string) {
    Index(s, p) >= 0
  }

  predicate OccursAt(s: string, p: string, i: nat) {
    i + |p| <= |s| && s[i..i + |p|] == p
  }

  lemma {:induction false} IndexIsFirst(s: string, p: string)
    ensures forall j: nat :: OccursAt(s, p, j) ==> 0 <= Index(s, p) <= j
  {
    if p <= s {
    } else if s != [] {
      IndexIsFirst(s[1..], p);
      forall j: nat | OccursAt(s, p, j) ensures 0 <= Index(s, p) <= j {
        if j > 0 {
          assert s[1..][j - 1..j - 1 + |p|] == s[j..j + |p|];
          assert OccursAt(s[1..], p, j - 1);
        }
      }
    }
  }

  /** Index is the one place where p occurs and before which it does not. */
  lemma {:induction false} IndexUnique(s: string, p: string, i: nat)
    requires OccursAt(s, p, i)
    requires forall j: nat :: j < i ==> !OccursAt(s, p, j)
    ensures Index(s, p) == i
  {
    IndexIsFirst(s, p);
    var k := Index(s, p);
    assert OccursAt(s, p, k);
  }

  /** If the first character of p is not in a, the p after a is the first one. */
  lemma {:induction false} IndexAfter(a: string, p: string, b: string)
    requires p != [] && p[0] !in a
    ensures Index(a + p + b, p) == |a|
  {
    assert a + p + b == a + (p + b);
    IndexShifts(a, p + b, p);
  }

  /** A front part without the first character of p only shifts the first occurrence. */
  lemma {:induction false} IndexShifts(a: string, b: string, p: string)
    requires p != [] && p[0] !in a
    ensures Index(a + b, p) == if Index(b, p) < 0 then -1 else |a| + Index(b, p)
  {
    if a == [] {
      assert a + b == b;
    } else {
      assert (a + b)[1..] == a[1..] + b;
      assert (a + b)[0] != p[0];
      IndexShifts(a[1..], b, p);
    }
  }

  /** Cutting at the first p gives back what stands on either side of it. */
  lemma {:induction false} CutAt(a: string, p: string, b: string)
    requires p != [] && p[0] !in a
    ensures var s := a + p + b;
            Index(s, p) == |a| && s[..|a|] == a && s[|a| + |p|..] == b
  {
    IndexAfter(a, p, b);
  }

  lemma {:induction false} IndexAbsent(s: string, p: string)
    requires forall j: nat :: !OccursAt(s, p, j)
    ensures Index(s, p) == -1
  {
    if Index(s, p) >= 0 {
      assert OccursAt(s, p, Index(s, p));
    }
  }

  /** A pattern without the character c cannot straddle it. */
  lemma {:induction false} OccursBeside(x: string, c: char, y: string, p: string, j: nat)
    requires p != [] && c !in p && OccursAt(x + [c] + y, p, j)
    ensures OccursAt(x, p, j) || (j > |x| && OccursAt(y, p, j - |x| - 1))
  {
    var s := x + [c] + y;
    forall i | j <= i < j + |p| ensures s[i] != c {
      assert s[i] == s[j..j + |p|][i - j];
    }
    assert s[|x|] == c;
    if j > |x| {
      assert y[j - |x| - 1..j - |x| - 1 + |p|] == s[j..j + |p|];
    } else {
      assert x[j..j + |p|] == s[j..j + |p|];
    }
  }

  lemma {:induction false} IndexSkips(x: string, c: char, y: string, p: string)
    requires p != [] && c !in p && Index(x, p) == -1
    ensures Index(x + [c] + y, p) == if Index(y, p) < 0 then -1 else |x| + 1 + Index(y, p)
  {
    var s := x + [c] + y;
    forall j: nat | OccursAt(s, p, j) ensures j > |x| && OccursAt(y, p, j - |x| - 1) {
      IndexIsFirst(x, p);
      OccursBeside(x, c, y, p, j);
    }
    if Index(y, p) >= 0 {
      IndexIsFirst(y, p);
      OccursBehind(x + [c], y, p, Index(y, p));
      IndexUnique(s, p, |x| + 1 + Index(y, p));
    } else {
      IndexIsFirst(y, p);
      IndexAbsent(s, p);
    }
  }

  lemma {:induction false} OccursBehind(x: string, y: string, p: string, i: nat)
    requires OccursAt(y, p, i)
    ensures OccursAt(x + y, p, |x| + i)
  {
    assert (x + y)[|x| + i..|x| + i + |p|] == y[i..i + |p|];
  }

  /** A marker behind a name is found, if the name is closed by a character the marker lacks. */
  lemma {:induction false} IndexBehindName(a: string, name: string, c: char, d: string, p: string, t: string)
    requires p != [] && p[0] !in a && p[0] !in d && c !in p && Index(name, p) == -1
    ensures Index(a + (name + [c] + (d + p + t)), p) == |a| + |name| + 1 + |d|
  {
    IndexAfter(d, p, t);
    IndexSkips(name, c, d + p + t, p);
    IndexShifts(a, name + [c] + (d + p + t), p);
  }

  /** An end delimiter is found where it was put, if it neither is in the text nor overlaps its start. */
  lemma {:induction false} IndexOfEnd(text: string, p: string)
    requires |p| > 1 && p[0] !in p[1..] && Index(text, p) == -1 && !(p[1..] <= text)
    ensures Index([p[0]] + text + p, p) == |text| + 1
  {
    OccursLast([p[0]] + text, p);
    forall j: nat | j < |text| + 1 ensures !OccursAt([p[0]] + text + p, p, j) {
      EarlyEnd(text, p, j);
      NotBefore(text, p, j - 1);
    }
    IndexUnique([p[0]] + text + p, p, |text| + 1);
  }

  lemma {:induction false} NotBefore(s: string, p: string, j: int)
    requires Index(s, p) == -1
    ensures j >= 0 ==> !OccursAt(s, p, j)
  {
    IndexIsFirst(s, p);
  }

  lemma {:induction false} OccursLast(a: string, p: string)
    ensures OccursAt(a + p, p, |a|)
  {
  }

  lemma {:induction false} EarlyEnd(text: string, p: string, j: nat)
    requires |p| > 1 && p[0] !in p[1..] && j <= |text|
    ensures OccursAt([p[0]] + text + p, p, j) ==>
              if j == 0 then p[1..] <= text else OccursAt(text, p, j - 1)
  {
    var s := [p[0]] + text + p;
    assert s[|text| + 1] == p[0];
    if OccursAt(s, p, j) {
      forall k | j < k < j + |p| ensures s[k] != p[0] {
        assert s[k] == s[j..j + |p|][k - j] == p[1..][k - j - 1];
      }
      assert j + |p| <= |text| + 1;
      if j == 0 {
        assert text[..|p| - 1] == s[..|p|][1..] == p[1..];
      } else {
        assert text[j - 1..j - 1 + |p|] == s[j..j + |p|];
      }
    }
  }

  // ----- Decimal numerals -----

  predicate IsDigit(c: char) {
    '0' <= c <= '9'
  }

  predicate AllDigits(s: string) {
    forall i :: 0 <= i < |s| ==> IsDigit(s[i])
  }

  /** The number that the digits at the end of a string denote. */
  function Numeral(s: string): nat {
    if s == [] || !IsDigit(s[|s| - 1]) then 0
    else 10 * Numeral(s[..|s| - 1]) + (s[|s| - 1] as int - '0' as int)
  }

  /** fmt's %d for a number that is not negative. */
  function Decimal(n: nat): string {
    var d := [('0' as int + n % 10) as char];
    if n < 10 then d else Decimal(n / 10) + d
  }

  /** A numeral consists of digits and denotes its number. */
  lemma {:induction false} DecimalDenotes(n: nat)
    ensures Decimal(n) != [] && AllDigits(Decimal(n)) && Numeral(Decimal(n)) == n
  {
    var d := [('0' as int + n % 10) as char];
    if n < 10 {
      assert d[..0] == [];
    } else {
      DecimalDenotes(n / 10);
      assert (Decimal(n / 10) + d)[..|Decimal(n / 10) + d| - 1] == Decimal(n / 10);
    }
  }

  /** A leading zero or letter does not change the number. */
  lemma {:induction false} NumeralBehind(c: char, s: string)
    requires c == '0' || !IsDigit(c)
    ensures Numeral([c] + s) == Numeral(s)
  {
    if s == [] {
      assert [c][..0] == [];
      assert [c] + s == [c];
    } else {
      assert ([c] + s)[..|[c] + s| - 1] == [c] + s[..|s| - 1];
      NumeralBehind(c, s[..|s| - 1]);
    }
  }

  /** fmt's %03d for a numeral. */
  function Pad3(s: string): string
    decreases 3 - |s|
  {
    if |s| >= 3 then s else Pad3("0" + s)
  }

  lemma {:induction false} Pad3Denotes(s: string)
    ensures Numeral(Pad3(s)) == Numeral(s)
    decreases 3 - |s|
  {
    if |s| < 3 {
      NumeralBehind('0', s);
      Pad3Denotes("0" + s);
    }
  }
}
