/** Decimal numerals as the program prints and reads them. */
module Decimal {
  import opened Basics

  predicate IsDigit(c: char) {
    '0' <= c <= '9'
  }

  predicate AllDigits(s: string) {
    forall i :: 0 <= i < |s| ==> IsDigit(s[i])
  }

  function DigitChar(d: nat): char
    requires d < 10
  {
    '0' + d as char
  }

  function DigitValue(c: char): nat
    requires IsDigit(c)
  {
    (c - '0') as nat
  }

  /** The numeral of `n`, without leading zeros. */
  function Print(n: nat): (s: string)
    ensures s != [] && AllDigits(s)
  {
    if n < 10 then [DigitChar(n)] else Print(n / 10) + [DigitChar(n % 10)]
  }

  function Read(s: string): (n: int)
    requires AllDigits(s)
    ensures n >= 0
  {
    if s == [] then 0 else Read(s[..|s| - 1]) * 10 + DigitValue(s[|s| - 1])
  }

  lemma {:induction false} ReadPrint(n: nat)
    ensures Read(Print(n)) == n
  {
    if n >= 10 {
      ReadPrint(n / 10);
      assert Print(n)[..|Print(n)| - 1] == Print(n / 10);
    }
  }

  function Zeros(k: nat): (s: string)
    ensures |s| == k && AllDigits(s)
  {
    if k == 0 then [] else Zeros(k - 1) + ['0']
  }

  lemma {:induction false} ReadZeros(k: nat)
    ensures Read(Zeros(k)) == 0
  {
    if k > 0 {
      ReadZeros(k - 1);
      assert Zeros(k)[..k - 1] == Zeros(k - 1);
    }
  }

  lemma {:induction false} ReadPadded(k: nat, s: string)
    requires AllDigits(s)
    ensures AllDigits(Zeros(k) + s) && Read(Zeros(k) + s) == Read(s)
  {
    if s == [] {
      assert Zeros(k) + s == Zeros(k);
      ReadZeros(k);
    } else {
      ReadPadded(k, s[..|s| - 1]);
      assert (Zeros(k) + s)[..k + |s| - 1] == Zeros(k) + s[..|s| - 1];
    }
  }

  function PadNat(n: nat, w: nat): string {
    var digits := Print(n);
    Zeros(if |digits| < w then w - |digits| else 0) + digits
  }

  /** `format(n, "0{w}d")`: at least `w` characters, the sign counted, zeros after the sign. */
  function Pad(n: int, w: nat): string {
    if n < 0 then "-" + PadNat(-n, if w == 0 then 0 else w - 1) else PadNat(n, w)
  }

  lemma {:induction false} ReadPad(n: nat, w: nat)
    ensures PadNat(n, w) != [] && AllDigits(PadNat(n, w)) && Read(PadNat(n, w)) == n
  {
    var digits := Print(n);
    ReadPadded(if |digits| < w then w - |digits| else 0, digits);
    ReadPrint(n);
  }

  lemma {:induction false} ReadIsPositive(s: string)
    requires s != [] && AllDigits(s) && s[0] != '0'
    ensures Read(s) >= 1
  {
    if |s| > 1 {
      ReadIsPositive(s[..|s| - 1]);
    }
  }

  /** Without a leading zero, text is the numeral of what it reads. */
  lemma {:induction false} PrintRead(s: string)
    requires s != [] && AllDigits(s) && (|s| == 1 || s[0] != '0')
    ensures Print(Read(s)) == s
  {
    var front := s[..|s| - 1];
    if front == [] {
      assert Read(front) == 0 && s == [s[0]];
    } else {
      ReadIsPositive(front);
      PrintRead(front);
      assert Read(s) / 10 == Read(front) && Read(s) % 10 == DigitValue(s[|s| - 1]);
      assert s == front + [s[|s| - 1]];
    }
  }

  lemma {:induction false} ZerosMore(k: nat, s: string)
    ensures ['0'] + (Zeros(k) + s) == Zeros(k + 1) + s
  {
    if k > 0 {
      ZerosMore(k - 1, ['0']);
    }
    assert ['0'] + Zeros(k) == Zeros(k) + ['0'];
    assert ['0'] + (Zeros(k) + s) == (['0'] + Zeros(k)) + s;
  }

  /** Any digits are the numeral of what they read, padded to their own length. */
  lemma {:induction false} PadRead(s: string)
    requires s != [] && AllDigits(s)
    ensures PadNat(Read(s), |s|) == s
  {
    if |s| == 1 || s[0] != '0' {
      PrintRead(s);
    } else {
      var rest, n := s[1..], Read(s[1..]);
      PadRead(rest);
      var k := |rest| - |Print(n)|;
      assert rest == Zeros(k) + Print(n);
      ZerosMore(k, Print(n));
      assert s == ['0'] + rest;
      ReadPadded(k + 1, Print(n));
      ReadPrint(n);
    }
  }

  /** What padding to width `w` prints is the one text of digits that reads as the number, is at least
      `w` long, and has no leading zero beyond that width. */
  lemma {:induction false} PadIsUnique(n: nat, w: nat, s: string)
    ensures s == Pad(n, w)
            <==> s != [] && AllDigits(s) && Read(s) == n && |s| >= w && (|s| > w && |s| > 1 ==> s[0] != '0')
  {
    ReadPad(n, w);
    NoLeadingZero(n);
    if s != [] && AllDigits(s) && Read(s) == n && |s| >= w {
      if |s| == w {
        PadRead(s);
      } else if |s| == 1 || s[0] != '0' {
        PrintRead(s);
      }
    }
  }

  lemma {:induction false} NoLeadingZero(n: nat)
    ensures n > 0 ==> Print(n)[0] != '0'
    ensures n == 0 ==> Print(n) == "0"
  {
    if n >= 10 {
      NoLeadingZero(n / 10);
    }
  }

  lemma NumeralExamples()
    ensures Pad(7, 2) == "07" && Pad(42, 3) == "042"
  {
    ReadTwo('0', '7');
    assert "07" == ['0', '7'];
    PadIsUnique(7, 2, "07");
    ReadTwo('0', '4');
    assert "042"[..2] == ['0', '4'];
    PadIsUnique(42, 3, "042");
  }

  lemma ReadTwo(a: char, b: char)
    requires IsDigit(a) && IsDigit(b)
    ensures Read([a, b]) == DigitValue(a) * 10 + DigitValue(b)
  {
    assert [a, b][..1] == [a] && [a][..0] == [];
    assert Read([a]) == DigitValue(a);
  }

  // ---------------------------------------------------------------------------
  // int(s)
  // ---------------------------------------------------------------------------

  function WithoutUnderscores(s: string): string {
    if s == [] then [] else (if s[0] == '_' then [] else [s[0]]) + WithoutUnderscores(s[1..])
  }

  /** Digits with single underscores between them; `open` says that a digit came just before. */
  predicate IsUnsigned(s: string, open: bool) {
    if s == [] then open
    else if IsDigit(s[0]) then IsUnsigned(s[1..], true)
    else s[0] == '_' && open && IsUnsigned(s[1..], false)
  }

  lemma {:induction false} UnsignedIsDigits(s: string, open: bool)
    requires IsUnsigned(s, open)
    ensures AllDigits(WithoutUnderscores(s))
  {
    if s != [] {
      UnsignedIsDigits(s[1..], IsDigit(s[0]));
    }
  }

  lemma {:induction false} DigitsAreUnsigned(s: string, open: bool)
    requires AllDigits(s) && (open || s != [])
    ensures IsUnsigned(s, open) && WithoutUnderscores(s) == s
  {
    if s != [] {
      DigitsAreUnsigned(s[1..], true);
      assert s == [s[0]] + s[1..];
    }
  }

  function UnsignedValue(s: string): Option<int> {
    if IsUnsigned(s, false) then
      UnsignedIsDigits(s, false);
      Some(Read(WithoutUnderscores(s)))
    else None
  }

  /** Python's `int(s)` on ASCII text: surrounding space, a sign, underscores; None for ValueError. */
  function ParseInt(s: string): Option<int> {
    var t := Strip(s);
    if t != [] && t[0] == '-' then
      var v := UnsignedValue(t[1..]);
      if v.None? then None else Some(-v.value)
    else if t != [] && t[0] == '+' then UnsignedValue(t[1..])
    else UnsignedValue(t)
  }

  lemma ParseDigits(body: string)
    requires body != [] && AllDigits(body)
    ensures ParseInt(body) == Some(Read(body))
    ensures ParseInt("-" + body) == Some(-Read(body))
  {
    DigitsAreUnsigned(body, false);
    StripIsTight(body);
    var negative := "-" + body;
    StripIsTight(negative);
    assert negative[0] == '-' && negative[1..] == body;
  }

  lemma {:induction false} ParsePadNat(n: int, w: nat)
    requires n >= 0
    ensures ParseInt(PadNat(n, w)) == Some(n)
    ensures ParseInt("-" + PadNat(n, w)) == Some(-n)
  {
    ReadPad(n, w);
    ParseDigits(PadNat(n, w));
  }

  /** Reading back what was printed gives the number, whatever its size, sign and padding. */
  lemma {:induction false} ParsePad(n: int, w: nat)
    ensures ParseInt(Pad(n, w)) == Some(n)
  {
    if n < 0 {
      ParsePadNat(-n, if w == 0 then 0 else w - 1);
    } else {
      ParsePadNat(n, w);
    }
  }
}
