/**
 * Appending an unsigned number in decimal to a NUL-terminated character
 * buffer, the way the common header's two helpers for 32-bit and 64-bit
 * values do: walk to the terminator, collect the digits in reverse into a
 * number, emit them back most significant first, re-terminate.
 */
module DecimalText {
  import opened Base

  const NUL: char := '\0'

  predicate IsDigitChar(c: char) { '0' <= c <= '9' }

  function DigitChar(d: nat): (c: char)
    requires d < 10
    ensures IsDigitChar(c)
  {
    (48 + d) as char
  }

  function CharValue(c: char): (d: nat)
    requires IsDigitChar(c)
    ensures d < 10 && DigitChar(d) == c
  {
    c as int - 48
  }

  /** The digits of `n`, most significant first; no digits for zero. */
  function Digits(n: nat): (ds: string)
    ensures forall k | 0 <= k < |ds| :: IsDigitChar(ds[k])
    ensures n > 0 ==> |ds| > 0 && ds[0] != '0'
  {
    if n == 0 then [] else Digits(n / 10) + [DigitChar(n % 10)]
  }

  /** The decimal text of `n`: its digits, or "0" for zero. */
  function Decimal(n: nat): (s: string)
    ensures |s| > 0
    ensures forall k | 0 <= k < |s| :: IsDigitChar(s[k])
  {
    if n == 0 then "0" else Digits(n)
  }

  /** The number a string of digits denotes (most significant first). */
  function ValueOf(ds: string): nat
    requires forall k | 0 <= k < |ds| :: IsDigitChar(ds[k])
  {
    if ds == [] then 0 else ValueOf(ds[..|ds| - 1]) * 10 + CharValue(ds[|ds| - 1])
  }

  function Reverse<T>(s: seq<T>): (r: seq<T>)
    ensures |r| == |s|
    ensures forall i | 0 <= i < |s| :: r[i] == s[|s| - 1 - i]
  {
    if s == [] then [] else Reverse(s[1..]) + [s[0]]
  }

  // ---------------------------------------------------------------
  // Reading the digits back
  // ---------------------------------------------------------------

  lemma ValueOfSnoc(ds: string, c: char)
    requires forall k | 0 <= k < |ds| :: IsDigitChar(ds[k])
    requires IsDigitChar(c)
    ensures ValueOf(ds + [c]) == ValueOf(ds) * 10 + CharValue(c)
  {
    assert (ds + [c])[..|ds|] == ds;
  }

  /** Reading the decimal text of `n` gives back `n`. */
  lemma {:induction false} DecimalRoundTrip(n: nat)
    ensures ValueOf(Decimal(n)) == n
  {
    if n > 0 {
      DigitsRoundTrip(n);
    } else {
      assert Decimal(0)[..0] == [];
    }
  }

  lemma {:induction false} DigitsRoundTrip(n: nat)
    ensures ValueOf(Digits(n)) == n
    decreases n
  {
    if n > 0 {
      DigitsRoundTrip(n / 10);
      ValueOfSnoc(Digits(n / 10), DigitChar(n % 10));
    }
  }

  // ---------------------------------------------------------------
  // C strings in a buffer
  // ---------------------------------------------------------------

  /** Index of the first terminator: the length of the C string in `s`. */
  function StrLen(s: seq<char>): (n: nat)
    requires NUL in s
    ensures n < |s| && s[n] == NUL
    ensures forall k | 0 <= k < n :: s[k] != NUL
  {
    if s[0] == NUL then 0 else 1 + StrLen(s[1..])
  }

  /**
   * The buffer after `text` is written over the terminator of `s` and a
   * new terminator is placed after it; the rest of the buffer is kept.
   */
  function Appended(s: seq<char>, text: string): (r: seq<char>)
    requires NUL in s
    requires StrLen(s) + |text| < |s|
    ensures |r| == |s|
  {
    s[..StrLen(s)] + text + [NUL] + s[StrLen(s) + |text| + 1..]
  }

  /**
   * Appending text without terminators extends the C string by exactly
   * that text.
   */
  lemma AppendedExtendsString(s: seq<char>, text: string)
    requires NUL in s
    requires StrLen(s) + |text| < |s|
    requires forall k | 0 <= k < |text| :: text[k] != NUL
    ensures NUL in Appended(s, text)
    ensures StrLen(Appended(s, text)) == StrLen(s) + |text|
    ensures Appended(s, text)[..StrLen(Appended(s, text))] == s[..StrLen(s)] + text
  {
    var r := Appended(s, text);
    var m := StrLen(s);
    var n := m + |text|;
    assert r[..n] == s[..m] + text;
    assert r[n] == NUL;
    forall k | 0 <= k < n
      ensures r[k] != NUL
    {
      assert r[k] == r[..n][k];
    }
    StrLenIsFirstTerminator(r, n);
  }

  lemma StrLenIsFirstTerminator(s: seq<char>, n: nat)
    requires n < |s| && s[n] == NUL
    requires forall k | 0 <= k < n :: s[k] != NUL
    ensures NUL in s && StrLen(s) == n
  {
  }

  // ---------------------------------------------------------------
  // strcat_u32 / strcat_u64
  // ---------------------------------------------------------------

  /** Appends the decimal text of a 32-bit value. */
  method StrcatU32(dst: array<char>, src: nat)
    requires src <= U32_MAX
    requires NUL in dst[..]
    requires StrLen(dst[..]) + |Decimal(src)| < dst.Length
    modifies dst
    ensures dst[..] == Appended(old(dst[..]), Decimal(src))
  {
    AppendDecimal(dst, src);
  }

  /** Appends the decimal text of a 64-bit value. */
  method StrcatU64(dst: array<char>, src: nat)
    requires src <= U64_MAX
    requires NUL in dst[..]
    requires StrLen(dst[..]) + |Decimal(src)| < dst.Length
    modifies dst
    ensures dst[..] == Appended(old(dst[..]), Decimal(src))
  {
    AppendDecimal(dst, src);
  }

  /**
   * The shared body of both helpers, with the digit reversal held in a
   * number wide enough for every reversal.
   */
  method AppendDecimal(dst: array<char>, src: nat)
    requires NUL in dst[..]
    requires StrLen(dst[..]) + |Decimal(src)| < dst.Length
    modifies dst
    ensures dst[..] == Appended(old(dst[..]), Decimal(src))
  {
    ghost var before := dst[..];
    var p := FindTerminator(dst);
    if src == 0 {
      dst[p] := '0';
      p := p + 1;
    } else {
      var reverse, digits := ReverseDigits(src);
      p := EmitReversed(dst, p, reverse, digits, Digits(src));
    }
    dst[p] := NUL;
    assert dst[..] == Appended(before, Decimal(src)) by {
      forall k | 0 <= k < dst.Length
        ensures dst[k] == Appended(before, Decimal(src))[k]
      {
      }
    }
  }

  /** Walks to the terminator: the returned index is the string length. */
  method FindTerminator(dst: array<char>) returns (p: nat)
    requires NUL in dst[..]
    ensures p == StrLen(dst[..])
  {
    ghost var end := StrLen(dst[..]);
    p := 0;
    while dst[p] != NUL
      invariant 0 <= p <= end
      invariant forall k | 0 <= k < p :: dst[k] != NUL
      decreases end - p
    {
      p := p + 1;
    }
    StrLenIsFirstTerminator(dst[..], p);
  }

  /**
   * The first digit loop: the digits of `src` read least significant
   * first, as one number, and how many there are.
   */
  method ReverseDigits(src: nat) returns (reverse: nat, digits: nat)
    requires src > 0
    ensures reverse == ValueOf(Reverse(Digits(src)))
    ensures digits == |Digits(src)|
  {
    var s := src;
    reverse := 0;
    digits := 0;
    ghost var consumed: string := [];
    while s != 0
      invariant Digits(src) == Digits(s) + consumed
      invariant forall k | 0 <= k < |consumed| :: IsDigitChar(consumed[k])
      invariant forall k | 0 <= k < |consumed| :: IsDigitChar(Reverse(consumed)[k])
      invariant reverse == ValueOf(Reverse(consumed))
      invariant digits == |consumed|
      decreases s
    {
      var c := DigitChar(s % 10);
      assert Reverse([c] + consumed) == Reverse(consumed) + [c] by {
        assert ([c] + consumed)[1..] == consumed;
      }
      ValueOfSnoc(Reverse(consumed), c);
      reverse := reverse * 10 + s % 10;
      consumed := [c] + consumed;
      s := s / 10;
      digits := digits + 1;
    }
    assert Digits(s) == [] && Digits(src) == consumed;
  }

  /**
   * The second digit loop: writes the reversed digits back from `p` on,
   * which puts `text` there, most significant digit first.
   */
  method EmitReversed(dst: array<char>, p0: nat, reverse0: nat, digits0: nat, ghost text: string)
    returns (p: nat)
    requires forall k | 0 <= k < |text| :: IsDigitChar(text[k])
    requires reverse0 == ValueOf(Reverse(text)) && digits0 == |text|
    requires p0 + |text| <= dst.Length
    modifies dst
    ensures p == p0 + |text|
    ensures forall k | 0 <= k < p0 :: dst[k] == old(dst[k])
    ensures forall k | p0 <= k < p :: dst[k] == text[k - p0]
    ensures forall k | p <= k < dst.Length :: dst[k] == old(dst[k])
  {
    var reverse, digits := reverse0, digits0;
    p := p0;
    assert Reverse(text)[..digits] == Reverse(text);
    while digits != 0
      invariant 0 <= digits <= |text|
      invariant p == p0 + (|text| - digits)
      invariant reverse == ValueOf(Reverse(text)[..digits])
      invariant forall k | 0 <= k < p0 :: dst[k] == old(dst[k])
      invariant forall k | p0 <= k < p :: dst[k] == text[k - p0]
      invariant forall k | p <= k < dst.Length :: dst[k] == old(dst[k])
    {
      var y := Reverse(text)[..digits];
      assert y[..digits - 1] == Reverse(text)[..digits - 1];
      LastDigit(y);
      dst[p] := DigitChar(reverse % 10);
      p := p + 1;
      reverse := reverse / 10;
      digits := digits - 1;
    }
  }

  lemma LastDigit(y: string)
    requires |y| > 0
    requires forall k | 0 <= k < |y| :: IsDigitChar(y[k])
    ensures ValueOf(y) % 10 == CharValue(y[|y| - 1])
    ensures ValueOf(y) / 10 == ValueOf(y[..|y| - 1])
  {
  }

  // ---------------------------------------------------------------
  // The reversal as written: held in a 32- or 64-bit variable
  // ---------------------------------------------------------------

  const U32_MODULUS: nat := 0x1_0000_0000
  const U64_MODULUS: nat := 0x1_0000_0000_0000_0000

  /** The first digit loop with `reverse` wrapping modulo `modulus`. */
  function ReverseWrapping(s: nat, reverse: nat, digits: nat, modulus: nat): (nat, nat)
    requires modulus > 0
    decreases s
  {
    if s == 0 then (reverse, digits)
    else ReverseWrapping(s / 10, (reverse * 10 + s % 10) % modulus, digits + 1, modulus)
  }

  /** The second digit loop: emits `digits` low digits of `reverse`. */
  function EmitDigits(reverse: nat, digits: nat): string
    decreases digits
  {
    if digits == 0 then [] else [DigitChar(reverse % 10)] + EmitDigits(reverse / 10, digits - 1)
  }

  /** The text the helper appends when `reverse` wraps modulo `modulus`. */
  function DecimalAsWritten(src: nat, modulus: nat): string
    requires modulus > 0
  {
    if src == 0 then "0"
    else
      var loop := ReverseWrapping(src, 0, 0, modulus);
      EmitDigits(loop.0, loop.1)
  }

  /** The number the first digit loop computes when nothing wraps. */
  function Reversal(src: nat): nat
  {
    ValueOf(Reverse(Digits(src)))
  }

  function Pow10(k: nat): (p: nat)
    ensures p > 0
  {
    if k == 0 then 1 else 10 * Pow10(k - 1)
  }

  /**
   * The helper as written appends the right text exactly when the digit
   * reversal fits in its variable; otherwise the digits come out wrong.
   */
  lemma AsWrittenCorrectIffReversalFits(src: nat, modulus: nat)
    requires modulus > 0
    ensures DecimalAsWritten(src, modulus) == Decimal(src) <==> Reversal(src) < modulus
  {
    if src > 0 {
      if Reversal(src) < modulus {
        AsWrittenCorrectWhenFits(src, modulus);
      } else {
        AsWrittenWrongWhenWraps(src, modulus);
      }
    }
  }

  lemma AsWrittenCorrectWhenFits(src: nat, modulus: nat)
    requires src > 0 && modulus > 0 && Reversal(src) < modulus
    ensures DecimalAsWritten(src, modulus) == Decimal(src)
  {
    AsWrittenEmitsWrappedReversal(src, modulus);
    EmitReversal(src);
    ModOfMultiplePlus(0, modulus, Reversal(src));
  }

  lemma AsWrittenWrongWhenWraps(src: nat, modulus: nat)
    requires src > 0 && modulus > 0 && Reversal(src) >= modulus
    ensures DecimalAsWritten(src, modulus) != Decimal(src)
  {
    var d := Digits(src);
    var v := Reversal(src);
    var w := v % modulus;
    AsWrittenEmitsWrappedReversal(src, modulus);
    EmitReversal(src);
    ValueBound(Reverse(d));
    assert w < modulus <= v;
    if EmitDigits(w, |d|) == d {
      EmitInjective(w, v, |d|);
    }
  }

  lemma AsWrittenEmitsWrappedReversal(src: nat, modulus: nat)
    requires src > 0 && modulus > 0
    ensures DecimalAsWritten(src, modulus) == EmitDigits(Reversal(src) % modulus, |Digits(src)|)
  {
    var none: string := [];
    assert Reverse(none) == none;
    assert ValueOf(none) == 0;
    ZeroMod(modulus);
    assert Digits(src) + none == Digits(src);
    WrappingReversal(src, none, modulus);
    assert ReverseWrapping(src, 0, 0, modulus) == (Reversal(src) % modulus, |Digits(src)|);
  }

  lemma ZeroMod(m: nat)
    requires m > 0
    ensures 0 % m == 0
  {
    ModOfMultiplePlus(0, m, 0);
  }

  /** Emitting the unwrapped reversal gives the digits in order. */
  lemma EmitReversal(src: nat)
    ensures EmitDigits(Reversal(src), |Digits(src)|) == Digits(src)
  {
    var d := Digits(src);
    EmitValue(Reverse(d));
    assert Reverse(Reverse(d)) == d;
  }

  /**
   * Below ten digits (twenty for the 64-bit helper) the reversal always
   * fits, so the helpers as written are right there.
   */
  lemma AsWrittenCorrectBelow(src: nat, digitsBound: nat, modulus: nat)
    requires modulus > 0
    requires src < Pow10(digitsBound) <= modulus
    ensures DecimalAsWritten(src, modulus) == Decimal(src)
  {
    DigitsLength(src, digitsBound);
    ValueBound(Reverse(Digits(src)));
    Pow10Monotone(|Digits(src)|, digitsBound);
    AsWrittenCorrectIffReversalFits(src, modulus);
  }

  lemma Pow10Fits()
    ensures Pow10(9) <= U32_MODULUS && Pow10(19) <= U64_MODULUS
  {
  }

  /** A ten-digit value whose reversal does not fit in 32 bits. */
  lemma StrcatU32ReversalOverflows()
    ensures Reversal(1000000009) >= U32_MODULUS
    ensures DecimalAsWritten(1000000009, U32_MODULUS) != Decimal(1000000009)
  {
    assert Pow10(9) == 1000000000 && Pow10(10) == 10000000000;
    ReversalStartsWithNine(1000000009, 10);
    AsWrittenCorrectIffReversalFits(1000000009, U32_MODULUS);
  }

  /** A twenty-digit value whose reversal does not fit in 64 bits. */
  lemma StrcatU64ReversalOverflows()
    ensures Reversal(10000000000000000019) >= U64_MODULUS
    ensures DecimalAsWritten(10000000000000000019, U64_MODULUS) != Decimal(10000000000000000019)
  {
    assert Pow10(10) == 10000000000;
    assert Pow10(19) == 10000000000000000000;
    assert Pow10(20) == 100000000000000000000;
    ReversalStartsWithNine(10000000000000000019, 20);
    AsWrittenCorrectIffReversalFits(10000000000000000019, U64_MODULUS);
  }

  /** A k-digit value ending in 9 reverses to at least nine times 10^(k-1). */
  lemma ReversalStartsWithNine(n: nat, k: nat)
    requires k > 0 && Pow10(k - 1) <= n < Pow10(k) && n % 10 == 9
    ensures Reversal(n) >= 9 * Pow10(k - 1)
  {
    var d := Digits(n);
    DigitsLengthExact(n, k);
    assert d[|d| - 1] == DigitChar(9);
    assert Reverse(d)[0] == d[|d| - 1];
    ValueLowerBound(Reverse(d));
  }

  lemma {:induction false} DigitsLengthExact(n: nat, k: nat)
    requires k > 0 && Pow10(k - 1) <= n < Pow10(k)
    ensures |Digits(n)| == k
    decreases k
  {
    if k > 1 {
      DigitsLengthExact(n / 10, k - 1);
    }
  }

  lemma {:induction false} ValueLowerBound(y: string)
    requires |y| > 0
    requires forall k | 0 <= k < |y| :: IsDigitChar(y[k])
    ensures ValueOf(y) >= CharValue(y[0]) * Pow10(|y| - 1)
    decreases |y|
  {
    var pre := y[..|y| - 1];
    if |pre| > 0 {
      ValueLowerBound(pre);
      assert pre[0] == y[0];
      assert ValueOf(y) >= ValueOf(pre) * 10;
      ScaleLowerBound(ValueOf(pre), CharValue(y[0]), Pow10(|pre| - 1));
    }
  }

  /** A lower bound `v >= d * p` scales by ten. */
  lemma ScaleLowerBound(v: nat, d: nat, p: nat)
    requires v >= d * p
    ensures v * 10 >= d * (10 * p)
  {
    assert d * (10 * p) == (d * p) * 10;
  }

  // Lemmas behind the characterisation above.

  /** Continuing the wrapping loop from the reversal of `c` modulo `m`. */
  lemma {:induction false} WrappingReversal(s: nat, c: string, m: nat)
    requires m > 0
    requires forall k | 0 <= k < |c| :: IsDigitChar(c[k])
    ensures forall k | 0 <= k < |Digits(s) + c| :: IsDigitChar((Digits(s) + c)[k])
    ensures ReverseWrapping(s, ValueOf(Reverse(c)) % m, |c|, m)
         == (ValueOf(Reverse(Digits(s) + c)) % m, |Digits(s) + c|)
    decreases s
  {
    if s > 0 {
      var ch := DigitChar(s % 10);
      var c' := [ch] + c;
      assert Reverse(c') == Reverse(c) + [ch] by {
        assert c'[1..] == c;
      }
      ValueOfSnoc(Reverse(c), ch);
      var v := ValueOf(Reverse(c));
      ModTimesTenPlus(v, s % 10, m);
      WrappingReversal(s / 10, c', m);
      assert Digits(s / 10) + c' == Digits(s) + c;
    } else {
      assert Digits(s) + c == c;
    }
  }

  lemma ModTimesTenPlus(v: nat, d: nat, m: nat)
    requires m > 0
    ensures ((v % m) * 10 + d) % m == (v * 10 + d) % m
  {
    var q := v / m;
    var x := (v % m) * 10 + d;
    assert v == q * m + v % m;
    assert v * 10 + d == (q * 10) * m + x;
    ModAddMultiple(q * 10, m, x);
  }

  lemma ModAddMultiple(k: nat, m: nat, x: nat)
    requires m > 0
    ensures (k * m + x) % m == x % m
  {
    var q := x / m;
    assert x == q * m + x % m;
    assert k * m + x == (k + q) * m + x % m;
    ModOfMultiplePlus(k + q, m, x % m);
  }

  /** Emitting the low digits of the value of `y` spells `y` backwards. */
  lemma {:induction false} EmitValue(y: string)
    requires forall k | 0 <= k < |y| :: IsDigitChar(y[k])
    ensures EmitDigits(ValueOf(y), |y|) == Reverse(y)
    decreases |y|
  {
    if |y| > 0 {
      var pre := y[..|y| - 1];
      LastDigit(y);
      EmitValue(pre);
    }
  }

  lemma {:induction false} EmitInjective(x: nat, z: nat, k: nat)
    requires x < Pow10(k) && z < Pow10(k)
    requires EmitDigits(x, k) == EmitDigits(z, k)
    ensures x == z
    decreases k
  {
    if k > 0 {
      assert EmitDigits(x, k)[0] == DigitChar(x % 10);
      assert EmitDigits(z, k)[0] == DigitChar(z % 10);
      assert EmitDigits(x, k)[1..] == EmitDigits(x / 10, k - 1);
      assert EmitDigits(z, k)[1..] == EmitDigits(z / 10, k - 1);
      EmitInjective(x / 10, z / 10, k - 1);
    }
  }

  lemma {:induction false} ValueBound(y: string)
    requires forall k | 0 <= k < |y| :: IsDigitChar(y[k])
    ensures ValueOf(y) < Pow10(|y|)
    decreases |y|
  {
    if |y| > 0 {
      ValueBound(y[..|y| - 1]);
    }
  }

  lemma {:induction false} DigitsLength(n: nat, k: nat)
    requires n < Pow10(k)
    ensures |Digits(n)| <= k
    decreases k
  {
    if n > 0 {
      DigitsLength(n / 10, k - 1);
    }
  }

  lemma {:induction false} Pow10Monotone(j: nat, k: nat)
    requires j <= k
    ensures Pow10(j) <= Pow10(k)
    decreases k
  {
    if j < k {
      Pow10Monotone(j, k - 1);
    }
  }
}
