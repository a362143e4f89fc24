/** String operations the renderers and rules rely on: `Array.prototype.join`,
    its inverse `String.prototype.split` on one character,
    `String.prototype.includes`, and the decimal rendering of integers used by
    template literals. */
module Strings {

  /** `xs.join(sep)`: the empty list joins to "", a single element to itself. */
  function Join(xs: seq<string>, sep: string): string
    decreases |xs|
  {
    if |xs| == 0 then ""
    else if |xs| == 1 then xs[0]
    else xs[0] + sep + Join(xs[1..], sep)
  }

  /** `s.split(c)` for a one-character separator: always at least one piece,
      and one piece more than there are separators. */
  function Split(s: string, c: char): (r: seq<string>)
    ensures |r| >= 1
    ensures forall i :: 0 <= i < |r| ==> c !in r[i]
  {
    if |s| == 0 then [""]
    else if s[0] == c then [""] + Split(s[1..], c)
    else
      var rest := Split(s[1..], c);
      [[s[0]] + rest[0]] + rest[1..]
  }

  /** Splitting a separator-free prefix glued to the rest extends the first piece. */
  lemma {:induction false} SplitPrefix(a: string, t: string, c: char)
    requires c !in a
    ensures Split(a + t, c) == [a + Split(t, c)[0]] + Split(t, c)[1..]
  {
    if |a| == 0 {
      assert a + t == t;
      assert a + Split(t, c)[0] == Split(t, c)[0];
      assert Split(t, c) == [Split(t, c)[0]] + Split(t, c)[1..];
    } else {
      assert (a + t)[0] == a[0];
      assert (a + t)[1..] == a[1..] + t;
      SplitPrefix(a[1..], t, c);
      assert [a[0]] + (a[1..] + Split(t, c)[0]) == a + Split(t, c)[0];
    }
  }

  /** Splitting undoes joining, provided no piece contains the separator. */
  lemma {:induction false} SplitJoin(xs: seq<string>, c: char)
    requires |xs| >= 1
    requires forall i :: 0 <= i < |xs| ==> c !in xs[i]
    ensures Split(Join(xs, [c]), c) == xs
    decreases |xs|
  {
    if |xs| == 1 {
      SplitPrefix(xs[0], "", c);
      assert xs[0] + "" == xs[0];
    } else {
      var tail := Join(xs[1..], [c]);
      SplitJoin(xs[1..], c);
      assert Join(xs, [c]) == xs[0] + ([c] + tail);
      SplitPrefix(xs[0], [c] + tail, c);
      assert ([c] + tail)[0] == c && ([c] + tail)[1..] == tail;
      assert Split([c] + tail, c) == [""] + xs[1..];
      assert xs[0] + "" == xs[0];
      assert [xs[0]] + xs[1..] == xs;
    }
  }

  /** A join of pieces free of character `c`, with a separator free of `c`, is free of `c`. */
  lemma {:induction false} JoinAvoids(xs: seq<string>, sep: string, c: char)
    requires c !in sep
    requires forall i :: 0 <= i < |xs| ==> c !in xs[i]
    ensures c !in Join(xs, sep)
    decreases |xs|
  {
    if |xs| > 1 {
      JoinAvoids(xs[1..], sep, c);
    }
  }

  /** Joining peels off the last piece: everything before it, the separator, then it. */
  lemma {:induction false} JoinSnoc(xs: seq<string>, sep: string)
    requires |xs| >= 2
    ensures Join(xs, sep) == Join(xs[..|xs| - 1], sep) + sep + xs[|xs| - 1]
    decreases |xs|
  {
    if |xs| > 2 {
      JoinSnoc(xs[1..], sep);
      assert xs[1..][..|xs[1..]| - 1] == xs[..|xs| - 1][1..];
    }
  }

  /** `sub` occurs in `s` starting at offset `i`. */
  predicate OccursAt(s: string, sub: string, i: int) {
    0 <= i && i + |sub| <= |s| && s[i..i + |sub|] == sub
  }

  /** `s.includes(sub)`, computed by trying every offset from the left. */
  predicate Contains(s: string, sub: string)
    decreases |s|
  {
    (|sub| <= |s| && s[..|sub|] == sub) || (|s| > 0 && Contains(s[1..], sub))
  }

  /** The search agrees with the definition "some offset holds an occurrence". */
  lemma {:induction false} ContainsIffOccurs(s: string, sub: string)
    ensures Contains(s, sub) <==> exists i :: OccursAt(s, sub, i)
    decreases |s|
  {
    if |sub| <= |s| && s[..|sub|] == sub {
      assert OccursAt(s, sub, 0);
    }
    if |s| > 0 {
      ContainsIffOccurs(s[1..], sub);
      if exists i :: OccursAt(s[1..], sub, i) {
        var i :| OccursAt(s[1..], sub, i);
        assert s[i + 1..i + 1 + |sub|] == s[1..][i..i + |sub|];
        assert OccursAt(s, sub, i + 1);
      }
      if exists i :: OccursAt(s, sub, i) {
        var i :| OccursAt(s, sub, i);
        if i > 0 {
          assert s[1..][i - 1..i - 1 + |sub|] == s[i..i + |sub|];
          assert OccursAt(s[1..], sub, i - 1);
        } else {
          assert s[..|sub|] == s[i..i + |sub|];
        }
      }
    } else {
      if exists i :: OccursAt(s, sub, i) {
        var i :| OccursAt(s, sub, i);
        assert i == 0 && s[..|sub|] == s[i..i + |sub|];
      }
    }
  }

  function DigitChar(d: int): char
    requires 0 <= d < 10
  {
    ('0' as int + d) as char
  }

  function DigitValue(ch: char): int {
    if '0' <= ch <= '9' then ch as int - '0' as int else 0
  }

  /** The decimal digits of `n`, most significant first, without leading zeros. */
  function NatToDecimal(n: nat): (r: string)
    ensures |r| >= 1
    ensures forall i :: 0 <= i < |r| ==> '0' <= r[i] <= '9'
    ensures r[0] == '0' <==> n == 0
    ensures |r| == 1 || r[0] != '0'
    decreases n
  {
    if n < 10 then [DigitChar(n)] else NatToDecimal(n / 10) + [DigitChar(n % 10)]
  }

  /** A canonical decimal numeral: one or more digits, with no leading zero
      unless the numeral is "0" itself. */
  predicate Numeral(d: string) {
    && |d| >= 1
    && (forall k :: 0 <= k < |d| ==> '0' <= d[k] <= '9')
    && (|d| == 1 || d[0] != '0')
  }

  /** Reads a string of decimal digits back as a number. */
  function ParseDecimal(s: string): nat
    decreases |s|
  {
    if |s| == 0 then 0
    else ParseDecimal(s[..|s| - 1]) * 10 + (DigitValue(s[|s| - 1]) % 10)
  }

  lemma DigitRoundTrip(d: int)
    requires 0 <= d < 10
    ensures DigitValue(DigitChar(d)) == d
  {
  }

  lemma {:induction false} DecimalRoundTrip(n: nat)
    ensures ParseDecimal(NatToDecimal(n)) == n
    decreases n
  {
    var r := NatToDecimal(n);
    if n < 10 {
      DigitRoundTrip(n);
      assert r[..0] == [];
    } else {
      var q, d := n / 10, n % 10;
      DecimalRoundTrip(q);
      assert r == NatToDecimal(q) + [DigitChar(d)];
      assert r[..|r| - 1] == NatToDecimal(q);
      DigitRoundTrip(d);
      assert ParseDecimal(r) == q * 10 + d;
    }
  }

  /** Every canonical numeral is the rendering of the number it reads as, so
      two numerals that read as the same number are the same string. */
  lemma {:induction false} NumeralCanonical(d: string)
    requires Numeral(d)
    ensures NatToDecimal(ParseDecimal(d)) == d
    decreases |d|
  {
    var v := DigitValue(d[|d| - 1]);
    assert v % 10 == v;
    if |d| == 1 {
      assert d[..0] == [];
      assert ParseDecimal(d) == v;
    } else {
      var p := d[..|d| - 1];
      assert p[0] == d[0];
      assert Numeral(p);
      NumeralCanonical(p);
      var q := ParseDecimal(p);
      assert q != 0;
      var n := q * 10 + v;
      assert ParseDecimal(d) == n;
      assert n / 10 == q && n % 10 == v;
      assert DigitChar(v) == d[|d| - 1];
      assert d == p + [d[|d| - 1]];
    }
  }

  /** The rendering of a JavaScript integer in a template literal: an
      optional minus sign, then the decimal digits. */
  function IntToDecimal(i: int): (r: string)
    ensures |r| >= 1 && '\n' !in r
  {
    if i >= 0 then NatToDecimal(i) else "-" + NatToDecimal(-i)
  }

  /** The rendering of an integer reads back as that integer. */
  lemma IntToDecimalRoundTrip(i: int)
    ensures var r := IntToDecimal(i);
            if i >= 0 then ParseDecimal(r) == i
            else |r| >= 2 && r[0] == '-' && ParseDecimal(r[1..]) == -i
  {
    if i >= 0 {
      DecimalRoundTrip(i);
    } else {
      DecimalRoundTrip(-i);
      assert IntToDecimal(i)[1..] == NatToDecimal(-i);
    }
  }
}
