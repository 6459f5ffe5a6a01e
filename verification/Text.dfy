/** The string operations of Go's strings package that the modelled code uses. */
module Text {

  /** strings.Replace(s, from, to, -1) for single characters. */
  function Replace(s: string, from: char, to: char): (r: string)
    ensures |r| == |s|
    ensures forall i :: 0 <= i < |s| ==> r[i] == if s[i] == from then to else s[i]
  {
    seq(|s|, i requires 0 <= i < |s| => if s[i] == from then to else s[i])
  }

  /** strings.Index(s, t) > -1. */
  predicate Contains(s: string, t: string) {
    t <= s || (s != "" && Contains(s[1..], t))
  }

  /** It is containment: s has t between two parts. */
  lemma {:induction false} ContainsExactly(s: string, t: string)
    ensures Contains(s, t) <==> exists a, b :: s == a + t + b
  {
    if Contains(s, t) {
      if t <= s {
        assert s == "" + t + s[|t|..];
      } else {
        ContainsExactly(s[1..], t);
        var a, b :| s[1..] == a + t + b;
        assert s == (s[..1] + a) + t + b;
      }
    }
    if a, b :| s == a + t + b {
      PartIsContained(a, t, b);
    }
  }

  lemma {:induction false} PartIsContained(a: string, t: string, b: string)
    ensures Contains(a + t + b, t)
  {
    if a == "" {
      assert a + t + b == t + b;
    } else {
      PartIsContained(a[1..], t, b);
      assert (a + t + b)[1..] == a[1..] + t + b;
    }
  }

  /** The position of the first c in s, or |s|. */
  function IndexOf(s: string, c: char): (i: nat)
    ensures i <= |s|
    ensures i < |s| ==> s[i] == c
    ensures forall j :: 0 <= j < i ==> s[j] != c
  {
    if s == "" || s[0] == c then 0 else 1 + IndexOf(s[1..], c)
  }

  /** strings.Split(s, c). */
  function Split(s: string, c: char): (parts: seq<string>)
    ensures |parts| > 0
    ensures forall p :: p in parts ==> c !in p
    decreases |s|
  {
    var i := IndexOf(s, c);
    if i == |s| then [s] else [s[..i]] + Split(s[i + 1..], c)
  }

  /** strings.Join(parts, c). */
  function Join(parts: seq<string>, c: char): string {
    if parts == [] then
      ""
    else if |parts| == 1 then
      parts[0]
    else
      parts[0] + [c] + Join(parts[1..], c)
  }

  /** A common prefix can be cancelled. */
  lemma {:induction false} Cancel(p: string, u: string, v: string)
    ensures p + u == p + v ==> u == v
  {
    assert (p + u)[|p|..] == u && (p + v)[|p|..] == v;
  }

  lemma {:induction false} IndexOfUnique(s: string, c: char, i: nat)
    requires i <= |s| && (forall j :: 0 <= j < i ==> s[j] != c) && (i < |s| ==> s[i] == c)
    ensures IndexOf(s, c) == i
  {
    assert i <= IndexOf(s, c);
  }

  /** Splitting undoes joining exactly on non-empty lists of separator-free parts. */
  lemma {:induction false} SplitJoin(parts: seq<string>, c: char)
    ensures Split(Join(parts, c), c) == parts <==> parts != [] && forall p :: p in parts ==> c !in p
  {
    if parts != [] && forall p :: p in parts ==> c !in p {
      SplitInvertsJoin(parts, c);
    }
  }

  /** The part before the first separator. */
  lemma {:induction false} SplitFirst(p: string, c: char, q: string)
    requires c !in p
    ensures Split(p + [c] + q, c)[0] == p && Split(p, c) == [p]
  {
    IndexOfUnique(p + [c] + q, c, |p|);
    IndexOfUnique(p, c, |p|);
    assert (p + [c] + q)[..|p|] == p;
  }

  lemma {:induction false} SplitInvertsJoin(parts: seq<string>, c: char)
    requires parts != [] && forall p :: p in parts ==> c !in p
    ensures Split(Join(parts, c), c) == parts
  {
    var s := Join(parts, c);
    assert forall j :: 0 <= j < |parts[0]| ==> s[j] == parts[0][j];
    assert c !in parts[0];
    IndexOfUnique(s, c, |parts[0]|);
    if |parts| > 1 {
      assert s[..|parts[0]|] == parts[0] && s[|parts[0]| + 1..] == Join(parts[1..], c);
      SplitInvertsJoin(parts[1..], c);
    }
  }

  predicate IsDigit(c: char) {
    '0' <= c <= '9'
  }

  function Digit(d: nat): (c: char)
    requires d < 10
    ensures IsDigit(c)
  {
    ['0', '1', '2', '3', '4', '5', '6', '7', '8', '9'][d]
  }

  /** A natural number in decimal. */
  function DecimalNat(n: nat): (s: string)
    ensures s != "" && forall c :: c in s ==> IsDigit(c)
  {
    if n < 10 then [Digit(n)] else DecimalNat(n / 10) + [Digit(n % 10)]
  }

  /** fmt's %d. */
  function Decimal(n: int): (s: string)
    ensures s != "" && forall c :: c in s ==> IsDigit(c) || c == '-'
  {
    if n < 0 then "-" + DecimalNat(-n) else DecimalNat(n)
  }

  /** The number that a digit stands for. */
  function DigitValue(c: char): nat
    requires IsDigit(c)
  {
    c as nat - '0' as nat
  }

  /** The number that a row of digits stands for. */
  function Value(s: string): nat
    requires forall c :: c in s ==> IsDigit(c)
  {
    if s == "" then 0 else Value(s[..|s| - 1]) * 10 + DigitValue(s[|s| - 1])
  }

  /** The rendered number is that number. */
  lemma {:induction false} DecimalValue(n: nat)
    ensures Value(DecimalNat(n)) == n
    ensures Decimal(n) == DecimalNat(n)
  {
    var s := DecimalNat(n);
    DigitMeaning(n % 10);
    if n >= 10 {
      DecimalValue(n / 10);
      assert s[..|s| - 1] == DecimalNat(n / 10) && s[|s| - 1] == Digit(n % 10);
    } else {
      assert s[..0] == "" && s[0] == Digit(n);
    }
  }

  lemma {:induction false} DigitMeaning(d: nat)
    requires d < 10
    ensures DigitValue(Digit(d)) == d
  {
  }
}
