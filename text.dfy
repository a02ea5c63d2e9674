/** String operations of Python's and JavaScript's standard libraries that the
    services rely on, written out over `seq<char>`:
    ordering (`<` on str), `split`, `strip`, ASCII `lower`, `replace`,
    `lastIndexOf`/`substring`, decimal rendering and parsing of integers. */
module Text {
  import opened Wrappers

  // ---------------------------------------------------------------- ordering

  /** Python's `a < b` on str: lexicographic order by code point, a proper
      prefix before any of its extensions. */
  predicate LexLess(a: string, b: string)
    decreases |a|
  {
    if |a| == 0 then |b| > 0
    else if |b| == 0 then false
    else a[0] < b[0] || (a[0] == b[0] && LexLess(a[1..], b[1..]))
  }

  lemma {:induction false} LexLessIrreflexive(a: string)
    ensures !LexLess(a, a)
    decreases |a|
  {
    if |a| > 0 {
      LexLessIrreflexive(a[1..]);
    }
  }

  /** Comparing two strings whose first parts have equal length compares the
      first parts, and only on a tie the rest. */
  lemma {:induction false} LexLessConcat(x: string, x': string, y: string, y': string)
    requires |x| == |x'|
    ensures LexLess(x + y, x' + y') <==> LexLess(x, x') || (x == x' && LexLess(y, y'))
    decreases |x|
  {
    if |x| == 0 {
      assert x + y == y && x' + y' == y';
    } else {
      assert (x + y)[0] == x[0] && (x' + y')[0] == x'[0];
      assert (x + y)[1..] == x[1..] + y && (x' + y')[1..] == x'[1..] + y';
      LexLessConcat(x[1..], x'[1..], y, y');
      if x[0] == x'[0] {
        assert x == x' <==> x[1..] == x'[1..] by {
          if x[1..] == x'[1..] { assert x == [x[0]] + x[1..] && x' == [x'[0]] + x'[1..]; }
        }
      } else {
        assert x != x';
      }
    }
  }

  lemma ConcatEq(x: string, x': string, y: string, y': string)
    requires |x| == |x'|
    ensures x + y == x' + y' <==> x == x' && y == y'
  {
    if x + y == x' + y' {
      assert x == (x + y)[..|x|] && x' == (x' + y')[..|x|];
      assert y == (x + y)[|x|..] && y' == (x' + y')[|x|..];
    }
  }

  // ---------------------------------------------------------------- digits

  function DigitChar(n: nat): (c: char)
    requires n < 10
    ensures '0' <= c <= '9'
  {
    ('0' as int + n) as char
  }

  predicate IsDigit(c: char) { '0' <= c <= '9' }

  function DigitValue(c: char): (n: nat)
    requires IsDigit(c)
    ensures n < 10 && DigitChar(n) == c
  {
    c as int - '0' as int
  }

  function Pow10(w: nat): (r: nat)
    ensures r >= 1
  {
    if w == 0 then 1 else 10 * Pow10(w - 1)
  }

  /** `n` written in exactly `w` decimal digits, zero padded on the left
      (the `%04d` / `%02d` fields of a date). */
  function Pad(n: nat, w: nat): (r: string)
    ensures |r| == w
    ensures forall i :: 0 <= i < w ==> IsDigit(r[i])
  {
    if w == 0 then "" else Pad(n / 10, w - 1) + [DigitChar(n % 10)]
  }

  lemma SingletonLess(c: char, c': char)
    ensures LexLess([c], [c']) <==> c < c'
  {
    assert [c][1..] == [] && [c'][1..] == [];
  }

  /** Zero-padded decimal fields of one width compare as strings exactly as
      their numbers compare, and are equal exactly when the numbers are. */
  lemma {:induction false} PadOrder(a: nat, b: nat, w: nat)
    requires a < Pow10(w) && b < Pow10(w)
    ensures LexLess(Pad(a, w), Pad(b, w)) <==> a < b
    ensures Pad(a, w) == Pad(b, w) <==> a == b
  {
    if w == 0 {
    } else {
      var qa, ra, qb, rb := a / 10, a % 10, b / 10, b % 10;
      assert a == 10 * qa + ra && b == 10 * qb + rb;
      assert qa < Pow10(w - 1) && qb < Pow10(w - 1);
      PadOrder(qa, qb, w - 1);
      LexLessConcat(Pad(qa, w - 1), Pad(qb, w - 1), [DigitChar(ra)], [DigitChar(rb)]);
      ConcatEq(Pad(qa, w - 1), Pad(qb, w - 1), [DigitChar(ra)], [DigitChar(rb)]);
      SingletonLess(DigitChar(ra), DigitChar(rb));
      assert [DigitChar(ra)] == [DigitChar(rb)] <==> ra == rb;
    }
  }

  // ---------------------------------------------------------------- integers as text

  /** Python `str(n)` / JavaScript `String(n)` for a natural number. */
  function NatText(n: nat): (r: string)
    ensures |r| >= 1
    ensures forall i :: 0 <= i < |r| ==> IsDigit(r[i])
  {
    if n < 10 then [DigitChar(n)] else NatText(n / 10) + [DigitChar(n % 10)]
  }

  /** Python `str(n)` for an integer. */
  function IntText(n: int): string
  {
    if n < 0 then "-" + NatText(-n) else NatText(n)
  }

  /** The number a non-empty run of decimal digits denotes. */
  function DigitsValue(s: string): nat
    requires forall i :: 0 <= i < |s| ==> IsDigit(s[i])
  {
    if |s| == 0 then 0 else 10 * DigitsValue(s[..|s| - 1]) + DigitValue(s[|s| - 1])
  }

  lemma {:induction false} DigitsValueOfNatText(n: nat)
    ensures DigitsValue(NatText(n)) == n
  {
    if n >= 10 {
      var r := NatText(n);
      assert r[..|r| - 1] == NatText(n / 10);
      DigitsValueOfNatText(n / 10);
    }
  }

  predicate IsUnderscoreOrDigit(c: char) { c == '_' || IsDigit(c) }

  /** The digits of a literal with its single underscores removed. */
  function DropUnderscores(s: string): (r: string)
    requires forall i :: 0 <= i < |s| ==> IsUnderscoreOrDigit(s[i])
    ensures forall i :: 0 <= i < |r| ==> IsDigit(r[i])
    ensures |r| <= |s|
  {
    if |s| == 0 then ""
    else if s[0] == '_' then DropUnderscores(s[1..])
    else assert IsUnderscoreOrDigit(s[0]); [s[0]] + DropUnderscores(s[1..])
  }

  /** Python's grammar for the digit part of an `int()` literal: digits, with
      single underscores allowed between two digits. */
  predicate DigitPart(s: string)
  {
    && |s| >= 1
    && (forall i :: 0 <= i < |s| ==> IsUnderscoreOrDigit(s[i]))
    && IsDigit(s[0]) && IsDigit(s[|s| - 1])
    && (forall i :: 0 <= i < |s| - 1 ==> !(s[i] == '_' && s[i + 1] == '_'))
  }

  /** Python `int(s)` for a string that has already been stripped of
      surrounding whitespace: an optional sign and a decimal digit part;
      `None` where Python raises ValueError. */
  function ParseInt(s: string): (r: Option<int>)
    ensures r.Some? ==> |s| >= 1
    ensures r.Some? <==> DigitPart(s) || (|s| >= 1 && (s[0] == '-' || s[0] == '+') && DigitPart(s[1..]))
    ensures DigitPart(s) ==> r == Some(DigitsValue(DropUnderscores(s)))
    ensures |s| >= 1 && s[0] == '+' && DigitPart(s[1..]) ==> r == Some(DigitsValue(DropUnderscores(s[1..])))
    ensures |s| >= 1 && s[0] == '-' && DigitPart(s[1..]) ==> r == Some(-(DigitsValue(DropUnderscores(s[1..])) as int))
  {
    if |s| >= 1 && (s[0] == '-' || s[0] == '+') then
      if DigitPart(s[1..]) then
        var v: int := DigitsValue(DropUnderscores(s[1..]));
        Some(if s[0] == '-' then -v else v)
      else None
    else if DigitPart(s) then Some(DigitsValue(DropUnderscores(s)))
    else None
  }

  lemma DropUnderscoresOfDigits(s: string)
    requires forall i :: 0 <= i < |s| ==> IsDigit(s[i])
    ensures DropUnderscores(s) == s
  {
    if |s| > 0 {
      assert s == [s[0]] + s[1..];
      DropUnderscoresOfDigits(s[1..]);
    }
  }

  /** `int(str(n)) == n`: rendering an integer and parsing it back is the
      identity. */
  lemma ParseIntText(n: int)
    ensures ParseInt(IntText(n)) == Some(n)
  {
    var m: nat := if n < 0 then -n else n;
    var t := NatText(m);
    DropUnderscoresOfDigits(t);
    DigitsValueOfNatText(m);
    assert DigitPart(t) by {
      assert forall i :: 0 <= i < |t| ==> IsUnderscoreOrDigit(t[i]);
      assert forall i :: 0 <= i < |t| - 1 ==> t[i] != '_';
    }
    assert DigitsValue(DropUnderscores(t)) == m;
    if n < 0 {
      var s := IntText(n);
      assert s == "-" + t;
      assert s[0] == '-' && s[1..] == t;
    } else {
      assert IntText(n) == t;
      assert t[0] != '-' && t[0] != '+' by {
        assert IsDigit(t[0]);
      }
    }
  }

  /** `Pad(n, w)` reads back as `n` when `n` has at most `w` digits. */
  lemma {:induction false} PadReadsBack(n: nat, w: nat)
    requires n < Pow10(w)
    ensures DigitsValue(Pad(n, w)) == n
  {
    if w > 0 {
      var r := Pad(n, w);
      assert r[..|r| - 1] == Pad(n / 10, w - 1);
      PadReadsBack(n / 10, w - 1);
    }
  }

  /** The number a concatenation of two runs of digits denotes. */
  lemma {:induction false} DigitsValueAppend(a: string, b: string)
    requires forall i :: 0 <= i < |a| ==> IsDigit(a[i])
    requires forall i :: 0 <= i < |b| ==> IsDigit(b[i])
    ensures DigitsValue(a + b) == DigitsValue(a) * Pow10(|b|) + DigitsValue(b)
    decreases |b|
  {
    if |b| == 0 {
      assert a + b == a;
    } else {
      var n := |b| - 1;
      var front, d := b[..n], DigitValue(b[n]);
      assert (a + b)[..|a + b| - 1] == a + front;
      DigitsValueAppend(a, front);
      var va, vf, p := DigitsValue(a), DigitsValue(front), Pow10(n);
      assert DigitsValue(a + b) == 10 * (va * p + vf) + d;
      assert DigitsValue(b) == 10 * vf + d;
      ShiftDigit(va, p, vf, d);
    }
  }

  /** Appending a digit multiplies the place of the leading run by ten. */
  lemma ShiftDigit(va: nat, p: nat, vf: nat, d: nat)
    ensures 10 * (va * p + vf) + d == va * (10 * p) + (10 * vf + d)
  {
  }

  /** `int()` reads a zero-padded field back as its number. */
  lemma {:induction false} PadParses(n: nat, w: nat)
    requires 1 <= w && n < Pow10(w)
    ensures ParseInt(Pad(n, w)) == Some(n)
  {
    var t := Pad(n, w);
    DropUnderscoresOfDigits(t);
    PadReadsBack(n, w);
    assert DigitPart(t) by {
      assert forall i :: 0 <= i < |t| ==> IsUnderscoreOrDigit(t[i]);
      assert forall i :: 0 <= i < |t| - 1 ==> t[i] != '_';
    }
  }

  /** Python `s[:k]`: the first `k` characters, or all of a shorter text. */
  function Take(s: string, k: nat): (r: string)
    ensures |r| == if |s| <= k then |s| else k
    ensures r == s[..|r|]
  {
    if |s| <= k then s else s[..k]
  }

  // ---------------------------------------------------------------- grouped digits

  /** Python `f"{n:,}"` for a natural: the decimal digits in groups of three
      from the right, separated by commas. */
  function Grouped(n: nat): (r: string)
    ensures |r| >= 1 && IsDigit(r[0]) && IsDigit(r[|r| - 1])
    ensures forall i :: 0 <= i < |r| ==> IsDigit(r[i]) || r[i] == ','
  {
    if n < 1000 then NatText(n)
    else Grouped(n / 1000) + "," + Pad(n % 1000, 3)
  }

  /** The text without its commas. */
  function DropCommas(s: string): (r: string)
    ensures |r| <= |s| && ',' !in r
  {
    if |s| == 0 then "" else DropCommas(s[..|s| - 1]) + (if s[|s| - 1] == ',' then "" else [s[|s| - 1]])
  }

  lemma {:induction false} DropCommasAppend(a: string, b: string)
    ensures DropCommas(a + b) == DropCommas(a) + DropCommas(b)
    decreases |b|
  {
    if |b| > 0 {
      var n := |b| - 1;
      assert (a + b)[..|a + b| - 1] == a + b[..n];
      DropCommasAppend(a, b[..n]);
    } else {
      assert a + b == a;
    }
  }

  lemma {:induction false} DropCommasOfDigits(s: string)
    requires forall i :: 0 <= i < |s| ==> IsDigit(s[i])
    ensures DropCommas(s) == s
  {
    if |s| > 0 {
      DropCommasOfDigits(s[..|s| - 1]);
    }
  }

  /** Removing the commas of `f"{n:,}"` leaves the digits of `n`, so the
      grouped text reads back as `n`. */
  lemma {:induction false} GroupedReadsBack(n: nat)
    ensures forall i :: 0 <= i < |DropCommas(Grouped(n))| ==> IsDigit(DropCommas(Grouped(n))[i])
    ensures DigitsValue(DropCommas(Grouped(n))) == n
  {
    if n < 1000 {
      DropCommasOfDigits(NatText(n));
      DigitsValueOfNatText(n);
    } else {
      GroupedReadsBack(n / 1000);
      GroupStep(n, Grouped(n / 1000), Pad(n % 1000, 3));
    }
  }

  /** One more group: the digits of the head followed by the three of the tail. */
  lemma {:induction false} GroupStep(n: nat, head: string, tail: string)
    requires n >= 1000 && head == Grouped(n / 1000) && tail == Pad(n % 1000, 3)
    requires forall i :: 0 <= i < |DropCommas(head)| ==> IsDigit(DropCommas(head)[i])
    requires DigitsValue(DropCommas(head)) == n / 1000
    ensures Grouped(n) == head + "," + tail
    ensures forall i :: 0 <= i < |DropCommas(Grouped(n))| ==> IsDigit(DropCommas(Grouped(n))[i])
    ensures DigitsValue(DropCommas(Grouped(n))) == n
  {
    var digits := DropCommas(head);
    DropCommasOfGroup(head, tail);
    assert DropCommas(Grouped(n)) == digits + tail;
    DigitsValueAppend(digits, tail);
    PadReadsBack(n % 1000, 3);
    assert Pow10(3) == 1000;
    assert DigitsValue(digits + tail) == (n / 1000) * 1000 + n % 1000;
  }

  /** Dropping the commas of one more group appends its digits. */
  lemma {:induction false} DropCommasOfGroup(head: string, tail: string)
    requires forall i :: 0 <= i < |tail| ==> IsDigit(tail[i])
    ensures DropCommas(head + "," + tail) == DropCommas(head) + tail
  {
    var rest := [','] + tail;
    assert head + "," + tail == head + rest;
    DropCommasAppend(head, rest);
    DropCommasAppend([','], tail);
    assert [','][..0] == [];
    assert DropCommas([',']) == "";
    DropCommasOfDigits(tail);
    assert DropCommas(rest) == tail;
  }

  /** Every comma of a grouped number is followed by exactly three digits,
      then by the end of the text or by the next comma. */
  lemma {:induction false} GroupedCommaSpacing(n: nat, i: nat)
    requires i < |Grouped(n)| && Grouped(n)[i] == ','
    ensures i + 3 < |Grouped(n)|
    ensures forall j :: i < j <= i + 3 ==> IsDigit(Grouped(n)[j])
    ensures i + 4 == |Grouped(n)| || Grouped(n)[i + 4] == ','
  {
    var g := Grouped(n);
    if n < 1000 {
      assert false;
    } else {
      var head, tail := Grouped(n / 1000), Pad(n % 1000, 3);
      assert g == head + [','] + tail;
      if i < |head| {
        assert head[i] == g[i];
        GroupedCommaSpacing(n / 1000, i);
        assert forall j :: i < j <= i + 3 ==> g[j] == head[j];
        if i + 4 < |head| {
          assert g[i + 4] == head[i + 4];
        }
      } else {
        assert i == |head|;
        assert forall j :: i < j <= i + 3 ==> g[j] == tail[j - i - 1];
      }
    }
  }

  /** `int()` reads `f"{n:,}"` back as `n` once its commas are removed. */
  lemma {:induction false} GroupedParses(n: nat)
    ensures DigitPart(DropCommas(Grouped(n))) && DigitsValue(DropUnderscores(DropCommas(Grouped(n)))) == n
    ensures ParseInt(DropCommas(Grouped(n))) == Some(n)
  {
    var t := DropCommas(Grouped(n));
    GroupedDigitPart(n);
    assert ParseInt(t) == Some(DigitsValue(DropUnderscores(t)));
  }

  /** The grouped text without its commas is a digit part worth `n`. */
  lemma {:induction false} GroupedDigitPart(n: nat)
    ensures DigitPart(DropCommas(Grouped(n))) && DigitsValue(DropUnderscores(DropCommas(Grouped(n)))) == n
  {
    var g := Grouped(n);
    var t := DropCommas(g);
    GroupedReadsBack(n);
    assert |t| >= 1 by {
      assert g[|g| - 1] != ',';
      assert t == DropCommas(g[..|g| - 1]) + [g[|g| - 1]];
    }
    DigitsAreDigitPart(t);
  }

  /** A non-empty run of digits is a digit part with no underscore to drop. */
  lemma DigitsAreDigitPart(t: string)
    requires |t| >= 1 && forall i :: 0 <= i < |t| ==> IsDigit(t[i])
    ensures DigitPart(t) && DropUnderscores(t) == t
  {
    DropUnderscoresOfDigits(t);
    assert forall i :: 0 <= i < |t| ==> IsUnderscoreOrDigit(t[i]);
    assert forall i :: 0 <= i < |t| - 1 ==> t[i] != '_';
  }

  /** A leading minus sign is kept when the commas are dropped. */
  lemma {:induction false} DropCommasSign(g: string)
    ensures DropCommas("-" + g) == "-" + DropCommas(g)
  {
    DropCommasAppend("-", g);
    assert "-"[..0] == [];
    assert DropCommas("-") == "-";
  }

  /** `int("-" + d)` for a digit part `d` is the negated number. */
  lemma {:induction false} ParseNegated(d: string)
    requires DigitPart(d)
    ensures ParseInt("-" + d) == Some(-(DigitsValue(DropUnderscores(d)) as int))
  {
    assert ("-" + d)[0] == '-' && ("-" + d)[1..] == d;
  }

  // ---------------------------------------------------------------- split

  /** Python `s.split(c)` for a one-character separator: the pieces between
      separators, empty pieces included; `"".split(c) == [""]`. */
  function Split(s: string, c: char): (r: seq<string>)
    ensures |r| >= 1
    ensures forall k :: 0 <= k < |r| ==> c !in r[k]
    decreases |s|
  {
    if |s| == 0 then [""]
    else if s[0] == c then [""] + Split(s[1..], c)
    else
      var rest := Split(s[1..], c);
      [[s[0]] + rest[0]] + rest[1..]
  }

  /** `c.join(pieces)`. */
  function Join(pieces: seq<string>, c: char): string
    requires |pieces| >= 1
  {
    if |pieces| == 1 then pieces[0] else pieces[0] + [c] + Join(pieces[1..], c)
  }

  /** Splitting and joining back with the same separator gives the string back. */
  lemma {:induction false} JoinSplit(s: string, c: char)
    ensures Join(Split(s, c), c) == s
    decreases |s|
  {
    if |s| == 0 {
    } else if s[0] == c {
      JoinSplit(s[1..], c);
      assert s == [] + [c] + s[1..];
    } else {
      var rest := Split(s[1..], c);
      JoinSplit(s[1..], c);
      if |rest| == 1 {
        assert s == [s[0]] + s[1..];
      } else {
        assert Split(s, c)[1..] == rest[1..];
        assert Join(rest, c) == rest[0] + [c] + Join(rest[1..], c);
        assert s == [s[0]] + s[1..];
      }
    }
  }

  lemma {:induction false} SplitNoSeparator(x: string, c: char)
    requires c !in x
    ensures Split(x, c) == [x]
    decreases |x|
  {
    if |x| > 0 {
      assert x[0] in x;
      assert forall ch :: ch in x[1..] ==> ch in x;
      SplitNoSeparator(x[1..], c);
      assert x == [x[0]] + x[1..];
    }
  }

  /** A piece without the separator, then the separator, is split off as the
      first field. */
  lemma {:induction false} SplitFirstField(x: string, c: char, y: string)
    requires c !in x
    ensures Split(x + [c] + y, c) == [x] + Split(y, c)
    decreases |x|
  {
    var s := x + [c] + y;
    if |x| == 0 {
      assert s == [c] + y;
      assert s[1..] == y;
    } else {
      assert s[0] == x[0];
      assert s[1..] == x[1..] + [c] + y;
      assert forall ch :: ch in x[1..] ==> ch in x;
      SplitFirstField(x[1..], c, y);
      assert [x[0]] + x[1..] == x;
    }
  }

  // ---------------------------------------------------------------- strip, lower, replace

  /** The characters Python's `str.isspace` accepts among the first 256 code
      points. */
  predicate IsSpace(ch: char)
  {
    ch == ' ' || ('\t' <= ch <= '\r') || ('\U{1C}' <= ch <= '\U{1F}') || ch == '\U{85}' || ch == '\U{A0}'
  }

  function StripLeft(s: string): string
  {
    if |s| > 0 && IsSpace(s[0]) then StripLeft(s[1..]) else s
  }

  function StripRight(s: string): string
  {
    if |s| > 0 && IsSpace(s[|s| - 1]) then StripRight(s[..|s| - 1]) else s
  }

  /** Python `s.strip()`. */
  function Strip(s: string): string
  {
    StripRight(StripLeft(s))
  }

  lemma {:induction false} StripLeftCuts(s: string)
    ensures |StripLeft(s)| <= |s| && StripLeft(s) == s[|s| - |StripLeft(s)|..]
    ensures |StripLeft(s)| > 0 ==> !IsSpace(StripLeft(s)[0])
    ensures forall i :: 0 <= i < |s| - |StripLeft(s)| ==> IsSpace(s[i])
    decreases |s|
  {
    if |s| > 0 && IsSpace(s[0]) {
      StripLeftCuts(s[1..]);
      assert forall i :: 1 <= i < |s| ==> s[1..][i - 1] == s[i];
    }
  }

  lemma {:induction false} StripRightCuts(s: string)
    ensures |StripRight(s)| <= |s| && StripRight(s) == s[..|StripRight(s)|]
    ensures |StripRight(s)| > 0 ==> !IsSpace(StripRight(s)[|StripRight(s)| - 1])
    ensures forall i :: |StripRight(s)| <= i < |s| ==> IsSpace(s[i])
    decreases |s|
  {
    if |s| > 0 && IsSpace(s[|s| - 1]) {
      StripRightCuts(s[..|s| - 1]);
      assert forall i :: 0 <= i < |s| - 1 ==> s[..|s| - 1][i] == s[i];
    }
  }

  /** `s.strip()` is the slice of `s` that neither starts nor ends with
      whitespace, and everything cut off on either side is whitespace. */
  lemma StripCuts(s: string)
    ensures exists i, j :: 0 <= i <= j <= |s| && Strip(s) == s[i..j]
              && (forall k :: 0 <= k < i ==> IsSpace(s[k])) && (forall k :: j <= k < |s| ==> IsSpace(s[k]))
    ensures |Strip(s)| > 0 ==> !IsSpace(Strip(s)[0]) && !IsSpace(Strip(s)[|Strip(s)| - 1])
  {
    var l := StripLeft(s);
    StripLeftCuts(s);
    StripRightCuts(l);
    var r := StripRight(l);
    var i := |s| - |l|;
    var j := i + |r|;
    assert r == s[i..j];
    forall k | j <= k < |s| ensures IsSpace(s[k]) {
      assert s[k] == l[k - i];
    }
  }

  // ---------------------------------------------------------------- dictionaries

  /** A Python dictionary from strings to strings, as its (key, value)
      pairs; its keys are distinct, so the first matching pair is the
      dictionary's entry. */
  type Vocabulary = seq<(string, string)>

  function Values(table: Vocabulary): set<string>
  {
    set i | 0 <= i < |table| :: table[i].1
  }

  /** `key in table`. */
  predicate HasKey(table: Vocabulary, key: string)
  {
    exists i :: 0 <= i < |table| && table[i].0 == key
  }

  /** `table.get(key, default)`. */
  function Lookup(table: Vocabulary, key: string, default: string): string
  {
    if |table| == 0 then default
    else if table[0].0 == key then table[0].1
    else Lookup(table[1..], key, default)
  }

  /** The dictionary gives one of its values, or the default exactly when
      no key matches. */
  lemma {:induction false} LookupCases(table: Vocabulary, key: string, default: string)
    ensures Lookup(table, key, default) == default || Lookup(table, key, default) in Values(table)
    ensures !HasKey(table, key) ==> Lookup(table, key, default) == default
    ensures HasKey(table, key) ==> Lookup(table, key, default) in Values(table)
  {
    if |table| > 0 && table[0].0 != key {
      LookupCases(table[1..], key, default);
      assert forall i :: 1 <= i < |table| ==> table[i] == table[1..][i - 1];
      forall v | v in Values(table[1..]) ensures v in Values(table) {
        var i :| 0 <= i < |table[1..]| && table[1..][i].1 == v;
        assert table[i + 1].1 == v;
      }
      if HasKey(table, key) {
        var i :| 0 <= i < |table| && table[i].0 == key;
        assert table[1..][i - 1].0 == key;
      }
      if HasKey(table[1..], key) {
        var i :| 0 <= i < |table[1..]| && table[1..][i].0 == key;
        assert table[i + 1].0 == key;
      }
    } else if |table| > 0 {
      assert table[0].1 in Values(table);
    }
  }

  function LowerChar(ch: char): char
  {
    if 'A' <= ch <= 'Z' then (ch as int + 32) as char else ch
  }

  /** `lower()` / `toLowerCase()` on the ASCII letters. */
  function Lower(s: string): (r: string)
    ensures |r| == |s|
    ensures forall i :: 0 <= i < |s| ==> r[i] == LowerChar(s[i])
  {
    seq(|s|, i requires 0 <= i < |s| => LowerChar(s[i]))
  }

  /** Python `s.replace(a, b)` for one-character `a` and `b`. */
  function ReplaceChar(s: string, a: char, b: char): (r: string)
    ensures |r| == |s|
    ensures forall i :: 0 <= i < |s| ==> r[i] == (if s[i] == a then b else s[i])
  {
    seq(|s|, i requires 0 <= i < |s| => if s[i] == a then b else s[i])
  }

  /** JavaScript `s.lastIndexOf(c)`: the last position of `c`, or -1. */
  function LastIndexOf(s: string, c: char): (r: int)
    ensures -1 <= r < |s|
    ensures r >= 0 ==> s[r] == c
    ensures forall i :: r < i < |s| ==> s[i] != c
  {
    if |s| == 0 then -1
    else if s[|s| - 1] == c then |s| - 1
    else LastIndexOf(s[..|s| - 1], c)
  }

  /** JavaScript `s.substring(start)`: a negative start counts as 0 and a start
      beyond the end gives "". */
  function SubstringFrom(s: string, start: int): (r: string)
    ensures r == s[if start < 0 then 0 else if start > |s| then |s| else start..]
  {
    if start < 0 then s else if start > |s| then "" else s[start..]
  }
}
