/** The rendering of json.Marshal for lists of plain strings and lists of integers
    (sections 5, 6 and 7 of RFC 8259), which can be told apart even when concatenated. */
module Json {
  import opened Text

  /** A string that is rendered without escapes, such as a hexadecimal container ID. */
  predicate Hexadecimal(s: string) {
    forall c :: c in s ==> '0' <= c <= '9' || 'a' <= c <= 'f'
  }

  function Quoted(s: string): string {
    "\"" + s + "\""
  }

  /** The elements after the first one, and the closing bracket. */
  function Rest(items: seq<string>): string {
    if items == [] then "]" else "," + items[0] + Rest(items[1..])
  }

  /** An array of rendered elements. */
  function Array(items: seq<string>): string {
    if items == [] then "[]" else "[" + items[0] + Rest(items[1..])
  }

  function Strings(xs: seq<string>): (items: seq<string>)
    ensures |items| == |xs| && forall i :: 0 <= i < |xs| ==> items[i] == Quoted(xs[i])
  {
    seq(|xs|, i requires 0 <= i < |xs| => Quoted(xs[i]))
  }

  function Ints(xs: seq<int>): (items: seq<string>)
    ensures |items| == |xs| && forall i :: 0 <= i < |xs| ==> items[i] == Decimal(xs[i])
  {
    seq(|xs|, i requires 0 <= i < |xs| => Decimal(xs[i]))
  }

  function MarshalStrings(xs: seq<string>): string { Array(Strings(xs)) }

  function MarshalInts(xs: seq<int>): string { Array(Ints(xs)) }

  /** An array is its elements, joined by commas, in brackets. */
  lemma {:induction false} ArrayIsJoined(items: seq<string>)
    ensures Array(items) == "[" + Join(items, ',') + "]"
  {
    if items != [] {
      RestIsJoined(items);
      Bracketed(items[0], Rest(items[1..]), Join(items, ','));
    }
  }

  lemma {:induction false} Bracketed(first: string, rest: string, joined: string)
    requires first + rest == joined + "]"
    ensures "[" + first + rest == "[" + joined + "]"
  {
    assert "[" + first + rest == "[" + (first + rest);
  }

  lemma {:induction false} RestIsJoined(items: seq<string>)
    requires items != []
    ensures items[0] + Rest(items[1..]) == Join(items, ',') + "]"
  {
    if |items| == 1 {
      assert items[1..] == [];
    } else {
      RestIsJoined(items[1..]);
      JoinedRest(items[0], items[1], Rest(items[2..]), Join(items[1..], ','));
      assert items[1..][1..] == items[2..];
    }
  }

  lemma {:induction false} JoinedRest(first: string, second: string, rest: string, joined: string)
    requires second + rest == joined + "]"
    ensures first + ("," + second + rest) == first + [','] + joined + "]"
  {
    assert first + ("," + second + rest) == first + "," + (second + rest);
  }

  // ---- Self-delimiting elements ----

  /** A rendered element ends where a separator follows: it starts with no bracket or comma and
      two different elements cannot be continued to the same text by separators. */
  predicate Separator(s: string) {
    s != "" && (s[0] == ',' || s[0] == ']')
  }

  ghost predicate Delimited(items: seq<string>, others: seq<string>) {
    && (forall x :: x in items || x in others ==> x != "" && x[0] != ']' && x[0] != ',')
    && (forall x, y, r, s :: x in items && y in others && Separator(r) && Separator(s) && x + r == y + s ==> x == y)
  }

  lemma {:induction false} DelimitedTail(a: seq<string>, b: seq<string>)
    requires Delimited(a, b) && a != [] && b != []
    ensures Delimited(a[1..], b[1..])
  {
    assert forall x :: x in a[1..] ==> x in a;
    assert forall x :: x in b[1..] ==> x in b;
  }

  lemma {:induction false} CutRest(a: seq<string>, r: string)
    requires a != []
    ensures Rest(a) + r == "," + (a[0] + (Rest(a[1..]) + r))
  {
  }

  lemma {:induction false} RestHead(a: seq<string>, r: string)
    ensures Separator(Rest(a) + r) && (Rest(a) + r)[0] == if a == [] then ']' else ','
  {
  }

  lemma {:induction false} RestPrefix(a: seq<string>, b: seq<string>, r: string, s: string)
    requires Delimited(a, b) && Rest(a) + r == Rest(b) + s
    ensures a == b && r == s
    decreases |a|, 1
  {
    RestHead(a, r);
    RestHead(b, s);
    if a == [] {
      Cancel("]", r, s);
    } else {
      CutRest(a, r);
      CutRest(b, s);
      ItemsPrefix(a, b, r, s);
    }
  }

  /** Two lists of elements, each followed by its rest. */
  lemma {:induction false} ItemsPrefix(a: seq<string>, b: seq<string>, r: string, s: string)
    requires a != [] && b != [] && Delimited(a, b)
    requires "," + (a[0] + (Rest(a[1..]) + r)) == "," + (b[0] + (Rest(b[1..]) + s))
    ensures a == b && r == s
    decreases |a|, 0
  {
    var ra, rb := Rest(a[1..]) + r, Rest(b[1..]) + s;
    Cancel(",", a[0] + ra, b[0] + rb);
    RestHead(a[1..], r);
    RestHead(b[1..], s);
    assert a[0] in a && b[0] in b;
    assert a[0] == b[0];
    Cancel(a[0], ra, rb);
    DelimitedTail(a, b);
    RestPrefix(a[1..], b[1..], r, s);
    assert a == [a[0]] + a[1..] && b == [b[0]] + b[1..];
  }

  lemma {:induction false} ArrayHead(a: seq<string>, b: seq<string>, r: string)
    requires Delimited(a, b) || Delimited(b, a)
    ensures |Array(a) + r| > 1 && ((Array(a) + r)[1] == ']' <==> a == [])
  {
    if a != [] {
      assert a[0] in a;
      assert (Array(a) + r)[1] == a[0][0];
    }
  }

  lemma {:induction false} CutArray(a: seq<string>, r: string)
    requires a != []
    ensures Array(a) + r == "[" + (a[0] + (Rest(a[1..]) + r))
  {
  }

  /** A rendered array can be read off the front of a text. */
  lemma {:induction false} ArrayPrefix(a: seq<string>, b: seq<string>, r: string, s: string)
    requires Delimited(a, b) && Array(a) + r == Array(b) + s
    ensures a == b && r == s
  {
    ArrayHead(a, b, r);
    ArrayHead(b, a, s);
    if a == [] {
      Cancel("[]", r, s);
    } else {
      CutArray(a, r);
      CutArray(b, s);
      Cancel("[", a[0] + (Rest(a[1..]) + r), b[0] + (Rest(b[1..]) + s));
      ItemsPrefix(a, b, r, s);
    }
  }

  // ---- Strings ----

  lemma {:induction false} QuotedDelimited(x: string, y: string, r: string, s: string)
    requires Hexadecimal(x) && Hexadecimal(y) && Quoted(x) + r == Quoted(y) + s
    ensures x == y
  {
    var t := Quoted(x) + r;
    forall i | 0 <= i < |x| ensures t[i + 1] == x[i] && t[i + 1] != '"' {
      assert x[i] in x;
    }
    assert t == Quoted(y) + s;
    forall i | 0 <= i < |y| ensures t[i + 1] == y[i] && t[i + 1] != '"' {
      assert y[i] in y;
    }
    assert t[|x| + 1] == '"' && t[|y| + 1] == '"';
    assert |x| == |y|;
  }

  lemma {:induction false} QuotedInjective(x: string, y: string)
    ensures Quoted(x) == Quoted(y) ==> x == y
  {
    assert Quoted(x)[1..|Quoted(x)| - 1] == x && Quoted(y)[1..|Quoted(y)| - 1] == y;
  }

  ghost predicate AllHexadecimal(xs: seq<string>) {
    forall x :: x in xs ==> Hexadecimal(x)
  }

  lemma {:induction false} StringsDelimited(xs: seq<string>, ys: seq<string>)
    requires AllHexadecimal(xs) && AllHexadecimal(ys)
    ensures Delimited(Strings(xs), Strings(ys))
    ensures Strings(xs) == Strings(ys) ==> xs == ys
  {
    forall p, q, r, s | p in Strings(xs) && q in Strings(ys) && Separator(r) && Separator(s) && p + r == q + s
      ensures p == q
    {
      var i :| 0 <= i < |xs| && Strings(xs)[i] == p;
      var j :| 0 <= j < |ys| && Strings(ys)[j] == q;
      QuotedDelimited(xs[i], ys[j], r, s);
    }
    if Strings(xs) == Strings(ys) {
      forall i | 0 <= i < |xs| ensures xs[i] == ys[i] {
        assert Strings(xs)[i] == Strings(ys)[i];
        QuotedInjective(xs[i], ys[i]);
      }
    }
  }

  // ---- Numbers ----

  lemma {:induction false} DigitInjective(d: nat, e: nat)
    requires d < 10 && e < 10 && Digit(d) == Digit(e)
    ensures d == e
  {
  }

  lemma {:induction false} DecimalNatInjective(m: nat, n: nat)
    requires DecimalNat(m) == DecimalNat(n)
    ensures m == n
  {
    var s, t := DecimalNat(m), DecimalNat(n);
    assert s[|s| - 1] == Digit(m % 10) && t[|t| - 1] == Digit(n % 10);
    DigitInjective(m % 10, n % 10);
    if m >= 10 && n >= 10 {
      assert s[..|s| - 1] == DecimalNat(m / 10) && t[..|t| - 1] == DecimalNat(n / 10);
      DecimalNatInjective(m / 10, n / 10);
    }
  }

  lemma {:induction false} DecimalInjective(m: int, n: int)
    requires Decimal(m) == Decimal(n)
    ensures m == n
  {
    if m < 0 && n < 0 {
      Cancel("-", DecimalNat(-m), DecimalNat(-n));
      DecimalNatInjective(-m, -n);
    } else if m >= 0 && n >= 0 {
      DecimalNatInjective(m, n);
    } else {
      SignsDiffer(if m < 0 then m else n, if m < 0 then n else m);
    }
  }

  lemma {:induction false} SignsDiffer(m: int, n: nat)
    requires m < 0
    ensures Decimal(m) != Decimal(n)
  {
    assert Decimal(m)[0] == '-';
    assert DecimalNat(n)[0] in DecimalNat(n);
  }

  /** A text without separators ends where a separator follows. */
  lemma {:induction false} SeparatorEnds(x: string, y: string, r: string, s: string)
    requires ',' !in x && ']' !in x && ',' !in y && ']' !in y
    requires Separator(r) && Separator(s) && x + r == y + s
    ensures x == y
  {
    var t := x + r;
    assert t[..|x|] == x && t[|x|] == r[0];
    assert t == y + s;
    assert t[..|y|] == y && t[|y|] == s[0];
    assert |x| == |y|;
  }

  lemma {:induction false} DecimalPlain(n: int)
    ensures ',' !in Decimal(n) && ']' !in Decimal(n) && Decimal(n)[0] != ',' && Decimal(n)[0] != ']'
  {
    assert Decimal(n)[0] in Decimal(n);
  }

  lemma {:induction false} IntsDelimited(xs: seq<int>, ys: seq<int>)
    ensures Delimited(Ints(xs), Ints(ys))
    ensures Ints(xs) == Ints(ys) ==> xs == ys
  {
    forall p | p in Ints(xs) || p in Ints(ys) ensures p != "" && p[0] != ']' && p[0] != ',' {
      if p in Ints(xs) {
        var i :| 0 <= i < |xs| && Ints(xs)[i] == p;
        DecimalPlain(xs[i]);
      } else {
        var i :| 0 <= i < |ys| && Ints(ys)[i] == p;
        DecimalPlain(ys[i]);
      }
    }
    forall p, q, r, s | p in Ints(xs) && q in Ints(ys) && Separator(r) && Separator(s) && p + r == q + s
      ensures p == q
    {
      var i :| 0 <= i < |xs| && Ints(xs)[i] == p;
      var j :| 0 <= j < |ys| && Ints(ys)[j] == q;
      DecimalPlain(xs[i]);
      DecimalPlain(ys[j]);
      SeparatorEnds(p, q, r, s);
    }
    if Ints(xs) == Ints(ys) {
      forall i | 0 <= i < |xs| ensures xs[i] == ys[i] {
        assert Ints(xs)[i] == Ints(ys)[i];
        DecimalInjective(xs[i], ys[i]);
      }
    }
  }

  /** The concatenation of the two arrays determines both lists. */
  lemma {:induction false} MarshalInjective(xs: seq<string>, ys: seq<string>, ps: seq<int>, qs: seq<int>)
    requires AllHexadecimal(xs) && AllHexadecimal(ys)
    ensures MarshalStrings(xs) + MarshalInts(ps) == MarshalStrings(ys) + MarshalInts(qs) <==> xs == ys && ps == qs
  {
    if MarshalStrings(xs) + MarshalInts(ps) == MarshalStrings(ys) + MarshalInts(qs) {
      StringsDelimited(xs, ys);
      ArrayPrefix(Strings(xs), Strings(ys), MarshalInts(ps), MarshalInts(qs));
      IntsDelimited(ps, qs);
      assert MarshalInts(ps) + "" == MarshalInts(qs) + "";
      ArrayPrefix(Ints(ps), Ints(qs), "", "");
    }
  }
}
