/** The JavaScript string operations the booking page relies on, over `seq<char>`:
    `Number.prototype.toString` on non-negative integers, `padStart(2, '0')`,
    `String.prototype.includes`, `split` on one character, and
    `filter(segment => segment)` (which keeps the non-empty strings). */
module JsText {

  datatype Option<T> = None | Some(value: T)

  predicate IsDigit(c: char) {
    '0' <= c <= '9'
  }

  predicate AllDigits(s: string) {
    forall i :: 0 <= i < |s| ==> IsDigit(s[i])
  }

  /** The character of decimal digit `d`. */
  function DigitChar(d: nat): (c: char)
    requires d < 10
    ensures IsDigit(c) && c as int - '0' as int == d
  {
    ('0' as int + d) as char
  }

  /** `n.toString()`: the decimal digits of `n`, without leading zeros. */
  function Decimal(n: nat): (s: string)
    ensures 1 <= |s|
    ensures |s| == 1 <==> n < 10
  {
    if n < 10 then [DigitChar(n)] else Decimal(n / 10) + [DigitChar(n % 10)]
  }

  /** `toString()` of a non-negative integer writes only decimal digits. */
  lemma {:induction false} DecimalDigits(n: nat)
    ensures AllDigits(Decimal(n))
  {
    if n >= 10 {
      DecimalDigits(n / 10);
    }
  }

  /** `Decimal` writes no leading zero: only zero itself starts with `0`. */
  lemma {:induction false} DecimalNoLeadingZero(n: nat)
    ensures Decimal(n)[0] == '0' <==> n == 0
  {
    if n >= 10 {
      DecimalNoLeadingZero(n / 10);
    }
  }

  /** The value of a digit character (zero for any other character). */
  function DigitValue(c: char): (d: nat)
    ensures d < 10
    ensures IsDigit(c) ==> DigitChar(d) == c
  {
    if IsDigit(c) then c as int - '0' as int else 0
  }

  /** The number a string of decimal digits denotes (most significant digit first); callers
      check `AllDigits` first. */
  function ParseDecimal(s: string): nat
  {
    if s == [] then 0 else ParseDecimal(s[..|s| - 1]) * 10 + DigitValue(s[|s| - 1])
  }

  /** Reading back what `Decimal` wrote gives the number again. */
  lemma {:induction false} DecimalRoundTrip(n: nat)
    ensures ParseDecimal(Decimal(n)) == n
  {
    if n >= 10 {
      var s := Decimal(n);
      assert s[..|s| - 1] == Decimal(n / 10);
      DecimalRoundTrip(n / 10);
    }
  }

  /** Different numbers print differently. */
  lemma DecimalInjective(m: nat, n: nat)
    requires Decimal(m) == Decimal(n)
    ensures m == n
  {
    DecimalRoundTrip(m);
    DecimalRoundTrip(n);
  }

  /** `s.padStart(2, '0')`: zeros are put in front of `s` until it is two characters long;
      a string of two or more characters is left alone. */
  function PadStart2(s: string): (r: string)
    ensures |r| == if |s| >= 2 then |s| else 2
  {
    if |s| >= 2 then s else if |s| == 1 then "0" + s else "00"
  }

  /** What `padStart(2, '0')` writes: only zeros in front, then the original string. */
  lemma PadStart2Pads(s: string)
    ensures var r := PadStart2(s);
      r[|r| - |s|..] == s && forall i :: 0 <= i < |r| - |s| ==> r[i] == '0'
  {
    var r := PadStart2(s);
    assert r[|r| - |s|..] == s;
  }

  /** A number below 100 printed and padded to two places is its tens digit then its units digit. */
  lemma PadDecimalBelow100(n: nat)
    requires n < 100
    ensures PadStart2(Decimal(n)) == [DigitChar(n / 10), DigitChar(n % 10)]
  {
    if n >= 10 {
      assert Decimal(n / 10) == [DigitChar(n / 10)];
    }
  }

  /** A number from 10 to 19 prints as `1` followed by its units digit. */
  lemma DecimalTeens(n: nat)
    requires 10 <= n < 20
    ensures Decimal(n) == [DigitChar(1), DigitChar(n - 10)]
  {
    assert n / 10 == 1 && n % 10 == n - 10;
  }

  /** A number below 100 padded to two places reads back as itself. */
  lemma ParsePadded(n: nat)
    requires n < 100
    ensures AllDigits(PadStart2(Decimal(n)))
    ensures ParseDecimal(PadStart2(Decimal(n))) == n
  {
    PadDecimalBelow100(n);
    DecimalDigits(n);
    var p := PadStart2(Decimal(n));
    assert p[..1] == [DigitChar(n / 10)];
    assert p[..1][..0] == [];
    assert ParseDecimal(p[..1]) == n / 10;
    assert ParseDecimal(p) == (n / 10) * 10 + n % 10;
  }

  /** `s.includes(t)`: `t` occurs somewhere in `s`. */
  predicate Includes(s: string, t: string)
  {
    t <= s || (s != [] && Includes(s[1..], t))
  }

  /** `Includes` agrees with "some position of `s` starts a copy of `t`". */
  lemma {:induction false} IncludesAt(s: string, t: string, i: nat)
    requires i + |t| <= |s| && s[i..i + |t|] == t
    ensures Includes(s, t)
  {
    if i > 0 {
      assert s[1..][i - 1..i - 1 + |t|] == s[i..i + |t|];
      IncludesAt(s[1..], t, i - 1);
    }
  }

  /** ... and every `Includes` has such a position. */
  lemma {:induction false} IncludesHasPosition(s: string, t: string) returns (i: nat)
    requires Includes(s, t)
    ensures i + |t| <= |s| && s[i..i + |t|] == t
  {
    if t <= s {
      i := 0;
    } else {
      var j := IncludesHasPosition(s[1..], t);
      assert s[1..][j..j + |t|] == s[j + 1..j + 1 + |t|];
      i := j + 1;
    }
  }

  /** `s.split(sep)` for a one-character separator: the pieces between separators, empty
      pieces included; the empty string splits into one empty piece. */
  function Split(s: string, sep: char): (parts: seq<string>)
    ensures |parts| >= 1
    ensures forall k :: 0 <= k < |parts| ==> sep !in parts[k]
  {
    if s == [] then [""]
    else
      var rest := Split(s[1..], sep);
      if s[0] == sep then [""] + rest
      else [[s[0]] + rest[0]] + rest[1..]
  }

  /** `parts.join(sep)`: the pieces with one separator between neighbours. */
  function Join(parts: seq<string>, sep: char): string
    requires |parts| >= 1
  {
    if |parts| == 1 then parts[0] else parts[0] + [sep] + Join(parts[1..], sep)
  }

  /** Splitting loses nothing: joining the pieces again gives the string back. */
  lemma {:induction false} JoinSplit(s: string, sep: char)
    ensures Join(Split(s, sep), sep) == s
  {
    if s != [] {
      var rest := Split(s[1..], sep);
      JoinSplit(s[1..], sep);
      if s[0] == sep {
        assert Split(s, sep)[1..] == rest;
      } else {
        var parts := Split(s, sep);
        if |rest| == 1 {
          assert parts == [[s[0]] + rest[0]];
        } else {
          assert parts[1..] == rest[1..];
          assert Join(rest, sep) == rest[0] + [sep] + Join(rest[1..], sep);
        }
      }
    }
  }

  /** A separator in the text is a boundary between pieces: the pieces of `a + sep + b` are
      those of `a` followed by those of `b`. */
  lemma {:induction false} SplitAtSeparator(a: string, b: string, sep: char)
    ensures Split(a + [sep] + b, sep) == Split(a, sep) + Split(b, sep)
  {
    if a == [] {
      assert a + [sep] + b == [sep] + b;
      assert ([sep] + b)[1..] == b;
    } else {
      assert (a + [sep] + b)[1..] == a[1..] + [sep] + b;
      SplitAtSeparator(a[1..], b, sep);
    }
  }

  /** Text without the separator is a single piece. */
  lemma {:induction false} SplitWithoutSeparator(w: string, sep: char)
    requires sep !in w
    ensures Split(w, sep) == [w]
  {
    if w != [] {
      SplitWithoutSeparator(w[1..], sep);
      assert [w[0]] + w[1..] == w;
    }
  }

  /** `parts.filter(segment => segment)`: the non-empty pieces, in their order. */
  function NonEmpty(parts: seq<string>): (kept: seq<string>)
    ensures forall k :: 0 <= k < |kept| ==> kept[k] != "" && kept[k] in parts
    ensures forall p :: p in parts && p != "" ==> p in kept
    ensures multiset(kept) == multiset(parts)["" := 0]
  {
    if parts == [] then []
    else
      assert parts == [parts[0]] + parts[1..];
      if parts[0] == "" then NonEmpty(parts[1..])
      else [parts[0]] + NonEmpty(parts[1..])
  }

  /** Filtering a concatenation filters each half. */
  lemma {:induction false} NonEmptyAppend(xs: seq<string>, ys: seq<string>)
    ensures NonEmpty(xs + ys) == NonEmpty(xs) + NonEmpty(ys)
  {
    if xs == [] {
      assert xs + ys == ys;
    } else {
      assert (xs + ys)[1..] == xs[1..] + ys;
      NonEmptyAppend(xs[1..], ys);
    }
  }
}
