/**
 The user library's number printer and number reader, and why they undo each other.
 */
module NumberText {
  type Byte = b: int | 0 <= b < 256
  const SPACE := 32
  const ZERO := 48
  const MINUS := 45
  const PLUS := 43
  const BUF_SIZE := 256
  const INT_MIN := -0x8000_0000
  const INT_MAX := 0x7FFF_FFFF

  // ----- digits -----------------------------------------------------------------------------

  function DigitChar(d: nat, upcase: bool): Byte
    requires d < 36
  {
    if d <= 9 then ZERO + d else if upcase then 65 + d - 10 else 97 + d - 10
  }

  /** u / base, which is smaller while there is more than one digit. */
  function Rest(u: nat, base: nat): (q: nat)
    requires 2 <= base
    ensures u >= base ==> 0 < q < u
    ensures u < base ==> q == 0
  {
    Shrinks(u, base);
    u / base
  }

  function Last(u: nat, base: nat): (d: nat)
    requires 2 <= base
    ensures d < base
    ensures u < base ==> d == u
  {
    u % base
  }

  lemma Shrinks(u: nat, base: nat)
    requires 2 <= base
    ensures u >= base ==> 0 < u / base < u
    ensures u < base ==> u / base == 0
  {
    var q := u / base;
    assert u == q * base + u % base;
    assert q >= 1 ==> q * base >= q + q by {
      if q >= 1 {
        assert q * base == q * 2 + q * (base - 2);
        assert q * (base - 2) >= 0;
      }
    }
  }

  /** The digits of u, least significant first. */
  function Backwards(u: nat, base: nat, upcase: bool): (s: seq<Byte>)
    requires 2 <= base <= 36
    ensures |s| >= 1
  {
    [DigitChar(Last(u, base), upcase)] + if u < base then [] else Backwards(Rest(u, base), base, upcase)
  }

  /** The digits of u as one reads them. */
  function Digits(u: nat, base: nat, upcase: bool): (s: seq<Byte>)
    requires 2 <= base <= 36
    ensures |s| >= 1
  {
    (if u < base then [] else Digits(Rest(u, base), base, upcase)) + [DigitChar(Last(u, base), upcase)]
  }

  /** The characters behind the numbers. */
  lemma Characters()
    ensures ZERO == '0' as int && 57 == '9' as int && 65 == 'A' as int && 97 == 'a' as int
    ensures SPACE == ' ' as int && MINUS == '-' as int && PLUS == '+' as int
  {
  }

  /** What a digit counts: '0' to '9', then the letters of either case. */
  function Counts(c: Byte): nat {
    if 48 <= c <= 57 then c - 48 else if 65 <= c <= 90 then c - 65 + 10 else if 97 <= c <= 122 then c - 97 + 10 else 0
  }

  /** The number that a row of digits stands for. */
  function Number(s: seq<Byte>, base: nat): nat {
    if s == [] then 0 else Number(s[..|s| - 1], base) * base + Counts(s[|s| - 1])
  }

  lemma NumberMore(t: seq<Byte>, c: Byte, base: nat)
    ensures Number(t + [c], base) == Number(t, base) * base + Counts(c)
  {
    assert (t + [c])[..|t|] == t;
  }

  lemma DigitCounts(d: nat, upcase: bool)
    requires d < 36
    ensures var c := DigitChar(d, upcase);
            && Counts(c) == d && (c == 48 <==> d == 0)
            && (48 <= c <= 57 || (if upcase then 65 <= c <= 90 else 97 <= c <= 122))
  {
  }

  /** The printed digits stand for the number. */
  lemma {:induction false} DigitsNumber(u: nat, base: nat, upcase: bool)
    requires 2 <= base <= 36
    ensures Number(Digits(u, base, upcase), base) == u
  {
    hide Number, Counts, DigitChar, Rest, Last;
    var c := DigitChar(Last(u, base), upcase);
    DigitCounts(Last(u, base), upcase);
    Together(u, base);
    if u >= base {
      DigitsNumber(Rest(u, base), base, upcase);
      NumberMore(Digits(Rest(u, base), base, upcase), c, base);
    } else {
      NumberMore([], c, base);
      NumberNone(base);
    }
  }

  lemma NumberNone(base: nat)
    ensures Number([], base) == 0
  {
  }

  /** None of them is too large, and the first is not zero unless the number is. */
  lemma {:induction false} DigitsShape(u: nat, base: nat, upcase: bool)
    requires 2 <= base <= 36
    ensures u > 0 ==> Digits(u, base, upcase)[0] != 48
    ensures forall k :: 0 <= k < |Digits(u, base, upcase)| ==>
              var c := Digits(u, base, upcase)[k];
              Counts(c) < base && (48 <= c <= 57 || (if upcase then 65 <= c <= 90 else 97 <= c <= 122))
  {
    hide Counts, DigitChar, Rest, Last;
    DigitCounts(Last(u, base), upcase);
    Together(u, base);
    if u >= base {
      DigitsShape(Rest(u, base), base, upcase);
    }
  }

  lemma Together(u: nat, base: nat)
    requires 2 <= base
    ensures Rest(u, base) * base + Last(u, base) == u
  {
  }

  function Reverse(s: seq<Byte>): (r: seq<Byte>)
    ensures |r| == |s|
  {
    seq<Byte>(|s|, (i: nat) requires i < |s| => s[|s| - 1 - i])
  }

  lemma ReverseConcat(a: seq<Byte>, b: seq<Byte>)
    ensures Reverse(a + b) == Reverse(b) + Reverse(a)
  {
  }

  lemma {:induction false} ReverseBackwards(u: nat, base: nat, upcase: bool)
    requires 2 <= base <= 36
    ensures Reverse(Backwards(u, base, upcase)) == Digits(u, base, upcase)
  {
    hide Rest, Last;
    if u >= base {
      ReverseBackwards(Rest(u, base), base, upcase);
      ReverseConcat([DigitChar(Last(u, base), upcase)], Backwards(Rest(u, base), base, upcase));
    }
  }

  function Rep(c: Byte, n: int): (s: seq<Byte>)
    ensures |s| == if n < 0 then 0 else n
  {
    seq<Byte>(if n < 0 then 0 else n, _ => c)
  }

  /** What printNum leaves in its buffer: sign and digits, padded to the width. */
  function Text(u: nat, base: nat, neg: bool, width: int, ladjust: bool, padc: Byte, upcase: bool): seq<Byte>
    requires 2 <= base <= 36
  {
    var sign := if neg then [MINUS] else [];
    var digits := Digits(u, base, upcase);
    var gap := width - |sign| - |digits|;
    if ladjust then sign + digits + Rep(SPACE, gap)
    else if padc == ZERO then sign + Rep(ZERO, gap) + digits
    else Rep(padc, gap) + sign + digits
  }

  lemma {:induction false} SameSize(u: nat, base: nat, upcase: bool)
    requires 2 <= base <= 36
    ensures |Backwards(u, base, upcase)| == |Digits(u, base, upcase)|
  {
    ReverseBackwards(u, base, upcase);
  }

  // ----- printing ---------------------------------------------------------------------------

  /** The characters of the buffer before it is turned round. */
  function Raw(u: nat, base: nat, neg: bool, width: int, ladjust: bool, padc: Byte, upcase: bool): seq<Byte>
    requires 2 <= base <= 36
  {
    var b := Backwards(u, base, upcase);
    var n := if neg then [MINUS] else [];
    var gap := width - |n| - |b|;
    if ladjust then b + n + Rep(SPACE, gap)
    else if neg && padc == ZERO then b + Rep(ZERO, gap) + n
    else b + n + Rep(padc, gap)
  }

  /** Turning the right part of the raw characters round gives the text. */
  lemma RawText(u: nat, base: nat, neg: bool, width: int, ladjust: bool, padc: Byte, upcase: bool)
    requires 2 <= base <= 36
    ensures var r, t := Raw(u, base, neg, width, ladjust, padc, upcase), Text(u, base, neg, width, ladjust, padc, upcase);
            var k := if ladjust then |Backwards(u, base, upcase)| + (if neg then 1 else 0) else |r|;
            (|r| == |t| && k <= |r| && t == Reverse(r[..k]) + r[k..])
  {
    hide Rest, Last, Backwards, Digits, Reverse, Rep;
    var b, n, d := Backwards(u, base, upcase), if neg then [MINUS] else [], Digits(u, base, upcase);
    var gap := width - |n| - |b|;
    SameSize(u, base, upcase);
    ReverseBackwards(u, base, upcase);
    ReverseSign(neg);
    if ladjust {
      LeftPart(b, n, Rep(SPACE, gap));
    } else if neg && padc == ZERO {
      MiddleTurned(b, n, d, ZERO, gap);
    } else {
      EndTurned(b, n, d, padc, gap);
      assert n == [] ==> Rep(padc, gap) + n + d == n + Rep(padc, gap) + d;
    }
  }

  lemma MiddleTurned(b: seq<Byte>, n: seq<Byte>, d: seq<Byte>, c: Byte, gap: int)
    requires Reverse(b) == d && Reverse(n) == n
    ensures var r := b + Rep(c, gap) + n; Reverse(r[..|r|]) + r[|r|..] == n + Rep(c, gap) + d
  {
    hide Reverse, Rep;
    WholePart(b, Rep(c, gap), n);
    ReverseRep(c, gap);
  }

  lemma EndTurned(b: seq<Byte>, n: seq<Byte>, d: seq<Byte>, c: Byte, gap: int)
    requires Reverse(b) == d && Reverse(n) == n
    ensures var r := b + n + Rep(c, gap); Reverse(r[..|r|]) + r[|r|..] == Rep(c, gap) + n + d
  {
    hide Reverse, Rep;
    WholePart(b, n, Rep(c, gap));
    ReverseRep(c, gap);
  }

  lemma LeftPart(b: seq<Byte>, n: seq<Byte>, pad: seq<Byte>)
    ensures var r, k := b + n + pad, |b| + |n|; Reverse(r[..k]) + r[k..] == Reverse(n) + Reverse(b) + pad
  {
    hide Reverse;
    ReverseConcat(b, n);
    SplitAt(b + n, pad);
  }

  lemma WholePart(a: seq<Byte>, b: seq<Byte>, c: seq<Byte>)
    ensures var r := a + b + c; Reverse(r[..|r|]) + r[|r|..] == Reverse(c) + Reverse(b) + Reverse(a)
  {
    hide Reverse;
    ReverseThree(a, b, c);
    SplitAt(a + b + c, []);
  }

  lemma SplitAt(a: seq<Byte>, b: seq<Byte>)
    ensures (a + b)[..|a|] == a && (a + b)[|a|..] == b && (b == [] ==> a + b == a)
  {
  }

  lemma ReverseThree(a: seq<Byte>, b: seq<Byte>, c: seq<Byte>)
    ensures Reverse(a + b + c) == Reverse(c) + Reverse(b) + Reverse(a)
  {
  }

  lemma ReverseRep(c: Byte, n: int)
    ensures Reverse(Rep(c, n)) == Rep(c, n)
  {
  }

  lemma ReverseSign(neg: bool)
    ensures Reverse(if neg then [MINUS] else []) == if neg then [MINUS] else []
  {
  }

  /** The digit loop of printNum. */
  method PutDigits(buf: array<Byte>, u0: nat, base: nat, upcase: bool) returns (p: nat)
    requires 2 <= base <= 36 && buf.Length >= |Backwards(u0, base, upcase)|
    modifies buf
    ensures p == |Backwards(u0, base, upcase)| && buf[..p] == Backwards(u0, base, upcase)
  {
    hide Rest, Last;
    ghost var all := Backwards(u0, base, upcase);
    p := 0;
    var u: nat := u0;
    while true
      invariant 0 <= p < |all| <= buf.Length && Backwards(u, base, upcase) == all[p..]
      invariant forall k :: 0 <= k < p ==> buf[k] == all[k]
      decreases u
    {
      var tmp := Last(u, base);
      NextDigit(all, p, u, base, upcase);
      if tmp <= 9 {
        buf[p] := ZERO + tmp;
      } else if upcase {
        buf[p] := 65 + tmp - 10;
      } else {
        buf[p] := 97 + tmp - 10;
      }
      p := p + 1;
      u := Rest(u, base);
      if u == 0 {
        break;
      }
    }
  }

  lemma NextDigit(all: seq<Byte>, p: nat, u: nat, base: nat, upcase: bool)
    requires 2 <= base <= 36 && p < |all| && Backwards(u, base, upcase) == all[p..]
    ensures all[p] == DigitChar(Last(u, base), upcase)
    ensures if Rest(u, base) == 0 then |all| == p + 1 else p + 1 < |all| && Backwards(Rest(u, base), base, upcase) == all[p + 1..]
  {
    hide Rest, Last;
    assert all[p..][0] == all[p] && all[p..][1..] == all[p + 1..];
  }

  /** The padding of printNum, before the turn. */
  method PadOut(buf: array<Byte>, actual: nat, length: nat, neg: bool, ladjust: bool, padc: Byte)
    requires actual <= length < buf.Length && (neg ==> actual > 0 && buf[actual - 1] == MINUS)
    modifies buf
    ensures buf[..length] == old(buf[..actual]) + Rep(if ladjust then SPACE else padc, length - actual)
         || (neg && !ladjust && padc == ZERO)
    ensures neg && !ladjust && padc == ZERO ==>
              buf[..length] == old(buf[..actual - 1]) + Rep(ZERO, length - actual) + [MINUS]
  {
    var pad := if ladjust then SPACE else padc;
    if neg && !ladjust && pad == ZERO {
      var i := actual - 1;
      while i < length - 1
        invariant actual - 1 <= i <= length - 1
        invariant forall k :: 0 <= k < i ==> buf[k] == if k < actual - 1 then old(buf[k]) else ZERO
      {
        buf[i] := pad;
        i := i + 1;
      }
      buf[length - 1] := MINUS;
    } else {
      var i := actual;
      while i < length
        invariant actual <= i <= length
        invariant forall k :: 0 <= k < i ==> buf[k] == if k < actual then old(buf[k]) else pad
      {
        buf[i] := pad;
        i := i + 1;
      }
    }
  }

  /** The reversing loop of printNum, on the first n characters. */
  method TurnRound(buf: array<Byte>, n: nat)
    requires n <= buf.Length
    modifies buf
    ensures buf[..n] == Reverse(old(buf[..n])) && buf[n..] == old(buf[n..])
  {
    var begin, end := 0, n - 1;
    while end > begin
      invariant 0 <= begin && end == n - 1 - begin && end >= begin - 1
      invariant forall k :: 0 <= k < begin || end < k < n ==> buf[k] == old(buf[n - 1 - k])
      invariant forall k :: begin <= k <= end || n <= k < buf.Length ==> buf[k] == old(buf[k])
    {
      buf[begin], buf[end] := buf[end], buf[begin];
      begin, end := begin + 1, end - 1;
    }
  }

  /** printNum. */
  method PrintNum(buf: array<Byte>, u: nat, base: nat, neg: bool, width: int, ladjust: bool, padc: Byte, upcase: bool)
    requires 2 <= base <= 36 && buf.Length > |Text(u, base, neg, width, ladjust, padc, upcase)|
    modifies buf
    ensures var t := Text(u, base, neg, width, ladjust, padc, upcase); buf[..|t|] == t && buf[|t|] == 0
    ensures var n := |Text(u, base, neg, width, ladjust, padc, upcase)|;
            Shown(buf[..n + 1], Digits(u, base, upcase), if neg then 1 else 0, width, ladjust, padc)
  {
    hide Text, Backwards, Digits, Reverse, Rep, Raw, Shown;
    RawText(u, base, neg, width, ladjust, padc, upcase);
    RawIs(u, base, neg, width, ladjust, padc, upcase);
    ghost var b, r := Backwards(u, base, upcase), Raw(u, base, neg, width, ladjust, padc, upcase);
    var actual := PutDigits(buf, u, base, upcase);
    if neg {
      buf[actual] := MINUS;
      actual := actual + 1;
    }
    assert buf[..actual] == b + if neg then [MINUS] else [];
    assert neg ==> buf[..actual - 1] == b;
    var length := if width < actual then actual else width;
    PadOut(buf, actual, length, neg, ladjust, padc);
    assert buf[..length] == r;
    Turn(buf, if ladjust then actual else length, length, r);
    buf[length] := 0;
    TextShown(u, base, neg, width, ladjust, padc, upcase);
    ghost var t := Text(u, base, neg, width, ladjust, padc, upcase);
    assert buf[..|t| + 1] == t + [0];
  }

  /** From the left: sign, digits, spaces; or sign, zeros, digits; or padding, sign, digits; as wide as asked for, or wider; then a zero. */
  ghost predicate Shown(b: seq<Byte>, digits: seq<Byte>, signs: nat, width: int, ladjust: bool, padc: Byte) {
    var d, n := |digits|, if width < |digits| + signs then |digits| + signs else width;
    && n < |b| && b[n] == 0
    && if ladjust then b[..signs + d] == Sign(signs) + digits && forall k :: signs + d <= k < n ==> b[k] == 32
       else if padc == 48 then b[..signs] == Sign(signs) && b[n - d..n] == digits && forall k :: signs <= k < n - d ==> b[k] == 48
       else b[n - d - signs..n] == Sign(signs) + digits && forall k :: 0 <= k < n - d - signs ==> b[k] == padc
  }

  /** A minus sign, if there is one. */
  function Sign(signs: nat): (s: seq<Byte>)
    ensures |s| == signs
  {
    seq<Byte>(signs, _ => 45)
  }

  lemma TextShown(u: nat, base: nat, neg: bool, width: int, ladjust: bool, padc: Byte, upcase: bool)
    requires 2 <= base <= 36
    ensures var n := |Digits(u, base, upcase)| + if neg then 1 else 0;
            |Text(u, base, neg, width, ladjust, padc, upcase)| == if width < n then n else width
    ensures Shown(Text(u, base, neg, width, ladjust, padc, upcase) + [0], Digits(u, base, upcase), if neg then 1 else 0, width, ladjust, padc)
  {
    hide Digits;
    var d := Digits(u, base, upcase);
    var sign := if neg then [MINUS] else [];
    assert sign == Sign(|sign|);
    PartsShown(sign, d, width - |sign| - |d|, width, ladjust, padc);
  }

  lemma PartsShown(sign: seq<Byte>, d: seq<Byte>, gap: int, width: int, ladjust: bool, padc: Byte)
    requires gap == width - |sign| - |d| && sign == Sign(|sign|)
    ensures var t := if ladjust then sign + d + Rep(SPACE, gap) else if padc == ZERO then sign + Rep(ZERO, gap) + d else Rep(padc, gap) + sign + d;
            Shown(t + [0], d, |sign|, width, ladjust, padc)
  {
    hide Sign, Rep, Shown;
    if ladjust {
      LeftShown(sign, d, Rep(SPACE, gap), gap, width, padc);
    } else if padc == ZERO {
      ZeroShown(sign, d, Rep(ZERO, gap), gap, width, padc);
    } else {
      PadShown(sign, d, Rep(padc, gap), gap, width, padc);
    }
  }

  lemma Slices(x: seq<Byte>, y: seq<Byte>, z: seq<Byte>)
    ensures var t := x + y + z + [0];
            && t[..|x|] == x && t[..|x| + |y|] == x + y && t[|x|..|x| + |y| + |z|] == y + z
            && t[|x| + |y|..|x| + |y| + |z|] == z && t[|x| + |y| + |z|] == 0
    ensures var t := x + y + z + [0];
            && (forall k :: 0 <= k < |x| ==> t[k] == x[k]) && (forall k :: |x| <= k < |x| + |y| ==> t[k] == y[k - |x|])
            && forall k :: |x| + |y| <= k < |x| + |y| + |z| ==> t[k] == z[k - |x| - |y|]
  {
  }

  lemma LeftShown(sign: seq<Byte>, d: seq<Byte>, pad: seq<Byte>, gap: int, width: int, padc: Byte)
    requires gap == width - |sign| - |d| && sign == Sign(|sign|) && pad == Rep(SPACE, gap)
    ensures Shown(sign + d + pad + [0], d, |sign|, width, true, padc)
  {
    hide Sign;
    Slices(sign, d, pad);
  }

  lemma ZeroShown(sign: seq<Byte>, d: seq<Byte>, pad: seq<Byte>, gap: int, width: int, padc: Byte)
    requires gap == width - |sign| - |d| && sign == Sign(|sign|) && pad == Rep(ZERO, gap) && padc == ZERO
    ensures Shown(sign + pad + d + [0], d, |sign|, width, false, padc)
  {
    hide Sign;
    Slices(sign, pad, d);
  }

  lemma PadShown(sign: seq<Byte>, d: seq<Byte>, pad: seq<Byte>, gap: int, width: int, padc: Byte)
    requires gap == width - |sign| - |d| && sign == Sign(|sign|) && pad == Rep(padc, gap) && padc != ZERO
    ensures Shown(pad + sign + d + [0], d, |sign|, width, false, padc)
  {
    hide Sign;
    Slices(pad, sign, d);
  }

  /** Reversing the first k of n characters. */
  method Turn(buf: array<Byte>, k: nat, n: nat, ghost r: seq<Byte>)
    requires k <= n <= buf.Length && buf[..n] == r
    modifies buf
    ensures buf[..n] == Reverse(r[..k]) + r[k..]
  {
    hide Reverse;
    assert buf[..k] == r[..k];
    ghost var tail := buf[k..];
    TurnRound(buf, k);
    TwoParts(buf[..], k, n);
    assert tail[..n - k] == r[k..];
  }

  lemma TwoParts(s: seq<Byte>, k: nat, n: nat)
    requires k <= n <= |s|
    ensures s[..n] == s[..k] + s[k..][..n - k]
  {
  }

  lemma RawIs(u: nat, base: nat, neg: bool, width: int, ladjust: bool, padc: Byte, upcase: bool)
    requires 2 <= base <= 36
    ensures var b, n := Backwards(u, base, upcase), if neg then [MINUS] else [];
            var r, actual := Raw(u, base, neg, width, ladjust, padc, upcase), |b| + |n|;
            var length := if width < actual then actual else width;
            (|r| == length
            && if neg && !ladjust && padc == ZERO then r == b + Rep(ZERO, length - actual) + [MINUS]
               else r == b + n + Rep(if ladjust then SPACE else padc, length - actual))
  {
    hide Backwards;
    var actual := |Backwards(u, base, upcase)| + if neg then 1 else 0;
    assert width < actual ==> Rep(SPACE, width - actual) == [] == Rep(SPACE, 0) && Rep(padc, width - actual) == [] == Rep(padc, 0)
                              && Rep(ZERO, width - actual) == [] == Rep(ZERO, 0);
  }

  // ----- reading ----------------------------------------------------------------------------

  predicate IsSpace(c: Byte) { c in {32, 10, 9, 11, 12, 13} }

  predicate IsDigit(c: Byte) { 48 <= c <= 57 }

  /** Where the digits begin: past white space and one sign. */
  function SkipSpace(s: seq<Byte>, i: nat): (k: nat)
    requires i <= |s|
    ensures i <= k <= |s|
    decreases |s| - i
  {
    if i < |s| && IsSpace(s[i]) then SkipSpace(s, i + 1) else i
  }

  /** atoi's accumulator, which runs through the negative numbers. */
  function Fold(s: seq<Byte>, i: nat, n: int): int
    requires i <= |s|
    decreases |s| - i
  {
    if i < |s| && IsDigit(s[i]) then Fold(s, i + 1, 10 * n - (s[i] - ZERO)) else n
  }

  /** No step of the accumulator leaves the range of int. */
  ghost predicate FoldFits(s: seq<Byte>, i: nat, n: int)
    requires i <= |s|
    decreases |s| - i
  {
    INT_MIN <= n && (i < |s| && IsDigit(s[i]) ==> FoldFits(s, i + 1, 10 * n - (s[i] - ZERO)))
  }

  function Negative(s: seq<Byte>, i: nat): bool {
    i < |s| && s[i] == MINUS
  }

  function Signed(s: seq<Byte>, i: nat): bool {
    i < |s| && (s[i] == MINUS || s[i] == PLUS)
  }

  function Value(s: seq<Byte>): int {
    var i := SkipSpace(s, 0);
    var n := Fold(s, if Signed(s, i) then i + 1 else i, 0);
    if Negative(s, i) then n else -n
  }

  /** Reading s overflows nowhere. */
  ghost predicate Fits(s: seq<Byte>) {
    var i := SkipSpace(s, 0);
    FoldFits(s, if Signed(s, i) then i + 1 else i, 0) && Value(s) <= INT_MAX
  }

  /** atoi on a zero-terminated string that overflows nowhere. */
  method Atoi(s: seq<Byte>) returns (r: int)
    requires s != [] && s[|s| - 1] == 0 && Fits(s)
    ensures r == Value(s) && -0x8000_0000 <= r <= 0x7FFF_FFFF
  {
    var i, n, neg := 0, 0, false;
    while IsSpace(s[i])
      invariant 0 <= i < |s| && SkipSpace(s, i) == SkipSpace(s, 0)
      decreases |s| - i
    {
      i := i + 1;
    }
    ghost var start := i;
    if s[i] == MINUS {
      neg := true;
      i := i + 1;
    } else if s[i] == PLUS {
      i := i + 1;
    }
    ghost var first := i;
    FoldDown(s, first, 0);
    while IsDigit(s[i])
      invariant 0 <= i < |s| && INT_MIN <= n <= 0 && FoldFits(s, i, n) && Fold(s, i, n) == Fold(s, first, 0)
      decreases |s| - i
    {
      n := 10 * n - (s[i] - ZERO);
      i := i + 1;
    }
    return if neg then n else -n;
  }

  lemma {:induction false} FoldDown(s: seq<Byte>, i: nat, n: int)
    requires i <= |s| && n <= 0
    ensures Fold(s, i, n) <= n
    decreases |s| - i
  {
    if i < |s| && IsDigit(s[i]) {
      FoldDown(s, i + 1, 10 * n - (s[i] - ZERO));
    }
  }

  lemma {:induction false} FoldNumber(s: seq<Byte>, i: nat, d: seq<Byte>)
    requires i + |d| <= |s| && s[i..i + |d|] == d && forall k :: 0 <= k < |d| ==> 48 <= d[k] <= 57
    ensures Fold(s, i, 0) == Fold(s, i + |d|, 0 - Number(d, 10))
  {
    if d != [] {
      var n := |d| - 1;
      assert s[i..i + n] == d[..n];
      FoldNumber(s, i, d[..n]);
      assert s[i + n] == s[i..i + |d|][n] == d[n];
    }
  }

  /** Space, tab, line feed, vertical tab, form feed and carriage return. */
  lemma {:induction false} SkipWhite(s: seq<Byte>, i: nat, n: nat)
    requires i + n < |s| && (forall k :: i <= k < i + n ==> s[k] == 32 || 9 <= s[k] <= 13) && s[i + n] > 32
    ensures SkipSpace(s, i) == i + n
    decreases n
  {
    if n > 0 {
      SkipWhite(s, i + 1, n - 1);
    }
  }

  lemma FoldEnds(s: seq<Byte>, i: nat, n: int)
    requires i < |s| && !(48 <= s[i] <= 57)
    ensures Fold(s, i, n) == n
  {
  }

  /** What comes before the digits. */
  lemma PartsAt(s: seq<Byte>, blanks: nat, signs: nat)
    requires signs <= 1 && blanks + signs < |s| && 48 <= s[blanks + signs] <= 57
    requires forall k :: 0 <= k < blanks ==> s[k] == 32 || 9 <= s[k] <= 13
    requires signs == 1 ==> s[blanks] == 45 || s[blanks] == 43
    ensures SkipSpace(s, 0) == blanks && (Signed(s, blanks) <==> signs == 1) && (Negative(s, blanks) <==> signs == 1 && s[blanks] == 45)
  {
    SkipWhite(s, 0, blanks);
    hide SkipSpace;
  }

  /** A text of white space, a sign or none, digits and something else is read as the number that the digits stand for. */
  lemma ValueIs(s: seq<Byte>, blanks: nat, signs: nat, digits: seq<Byte>)
    requires signs <= 1 && digits != [] && blanks + signs + |digits| < |s|
    requires forall k :: 0 <= k < blanks ==> s[k] == 32 || 9 <= s[k] <= 13
    requires signs == 1 ==> s[blanks] == 45 || s[blanks] == 43
    requires s[blanks + signs..blanks + signs + |digits|] == digits && forall k :: 0 <= k < |digits| ==> 48 <= digits[k] <= 57
    requires !(48 <= s[blanks + signs + |digits|] <= 57)
    ensures Value(s) == if signs == 1 && s[blanks] == 45 then 0 - Number(digits, 10) else Number(digits, 10)
  {
    hide *;
    var j := blanks + signs;
    assert s[j] == s[j..j + |digits|][0] == digits[0];
    PartsAt(s, blanks, signs);
    FoldNumber(s, j, digits);
    FoldEnds(s, j + |digits|, 0 - Number(digits, 10));
    ValueFrom(s, blanks, signs, 0 - Number(digits, 10));
  }

  lemma ValueFrom(s: seq<Byte>, i: nat, signs: nat, n: int)
    requires i + signs < |s| && signs <= 1 && SkipSpace(s, 0) == i && (Signed(s, i) <==> signs == 1) && Fold(s, i + signs, 0) == n
    ensures Value(s) == if Negative(s, i) then n else -n
  {
    hide SkipSpace, Fold, Signed, Negative;
  }

  // ----- printing and reading undo each other -------------------------------------------------

  /** Reading the digits of u. */
  lemma {:induction false} FoldDigits(s: seq<Byte>, i: nat, u: nat)
    requires i + |Digits(u, 10, false)| <= |s| && s[i..i + |Digits(u, 10, false)|] == Digits(u, 10, false)
    ensures var j := i + |Digits(u, 10, false)|;
            (Fold(s, i, 0) == Fold(s, j, 0 - u) && (u <= -INT_MIN && FoldFits(s, j, 0 - u) ==> FoldFits(s, i, 0)))
  {
    hide Digits;
    var d, k := Digits(u, 10, false), |Digits(u, 10, false)|;
    DigitsLast(u);
    assert s[i + k - 1] == s[i..i + k][k - 1] == 48 + u % 10;
    if u >= 10 {
      Shorter(s, i, i + k - 1, i + k);
      assert s[i..i + k - 1] == d[..k - 1] == Digits(u / 10, 10, false);
      FoldDigits(s, i, u / 10);
    }
  }

  lemma DigitsLast(u: nat)
    ensures var d := Digits(u, 10, false);
            && d[|d| - 1] == 48 + u % 10 && d[..|d| - 1] == (if u < 10 then [] else Digits(u / 10, 10, false))
  {
    assert u >= 10 ==> Rest(u, 10) == u / 10;
  }

  lemma Shorter(s: seq<Byte>, i: nat, j: nat, k: nat)
    requires i <= j <= k <= |s|
    ensures s[i..j] == s[i..k][..j - i]
  {
  }

  /** Leading zeros change nothing. */
  lemma {:induction false} FoldZeros(s: seq<Byte>, i: nat, n: nat)
    requires i + n <= |s| && forall k :: i <= k < i + n ==> s[k] == ZERO
    ensures Fold(s, i, 0) == Fold(s, i + n, 0) && (FoldFits(s, i + n, 0) ==> FoldFits(s, i, 0))
    decreases n
  {
    if n > 0 {
      FoldZeros(s, i + 1, n - 1);
    }
  }

  lemma {:induction false} SkipSpaces(s: seq<Byte>, i: nat, n: nat)
    requires i + n < |s| && (forall k :: i <= k < i + n ==> s[k] == SPACE) && !IsSpace(s[i + n])
    ensures SkipSpace(s, i) == i + n
    decreases n
  {
    if n > 0 {
      SkipSpaces(s, i + 1, n - 1);
    }
  }

  lemma {:induction false} DigitsAreDigits(u: nat)
    ensures forall k :: 0 <= k < |Digits(u, 10, false)| ==> IsDigit(Digits(u, 10, false)[k])
  {
    if u >= 10 {
      DigitsAreDigits(Rest(u, 10));
    }
  }

  /** A string with the parts that printNum writes reads as the number. */
  lemma PartsRead(s: seq<Byte>, blanks: nat, neg: bool, zeros: nat, u: nat)
    requires var at := blanks + (if neg then 1 else 0) + zeros; at + |Digits(u, 10, false)| < |s|
    requires forall k :: 0 <= k < blanks ==> s[k] == SPACE
    requires neg ==> s[blanks] == MINUS
    requires var at := blanks + (if neg then 1 else 0);
             (forall k :: at <= k < at + zeros ==> s[k] == ZERO) && s[at + zeros..at + zeros + |Digits(u, 10, false)|] == Digits(u, 10, false)
    requires !IsDigit(s[blanks + (if neg then 1 else 0) + zeros + |Digits(u, 10, false)|])
    requires u <= if neg then -INT_MIN else INT_MAX
    ensures Value(s) == (if neg then 0 - u else u) && Fits(s)
  {
    var at := blanks + if neg then 1 else 0;
    var d := Digits(u, 10, false);
    DigitsAreDigits(u);
    assert s[at + zeros] == s[at + zeros..at + zeros + |d|][0];
    hide Digits;
    SkipSpaces(s, 0, blanks);
    FoldDigits(s, at + zeros, u);
    FoldZeros(s, at, zeros);
  }

  /** The buffer of %d, read up to its zero, for every 32-bit number, width, and kind of padding. */
  lemma TextReads(v: int, width: nat, ladjust: bool, padc: Byte)
    requires -0x8000_0000 <= v <= 0x7FFF_FFFF && (padc == 48 || padc == 32)
    ensures var t := Text(if v < 0 then -v else v, 10, v < 0, width, ladjust, padc, false) + [0];
            Value(t) == v && Fits(t)
  {
    var u, neg := if v < 0 then -v else v, v < 0;
    if ladjust {
      LeftReads(u, neg, width, padc);
    } else if padc == ZERO {
      ZeroReads(u, neg, width);
    } else {
      BlankReads(u, neg, width);
    }
  }

  lemma LeftReads(u: nat, neg: bool, width: nat, padc: Byte)
    requires u <= if neg then -INT_MIN else INT_MAX
    ensures var t := Text(u, 10, neg, width, true, padc, false) + [0]; Value(t) == (if neg then 0 - u else u) && Fits(t)
  {
    hide Value, Fits, Digits;
    var d, t := Digits(u, 10, false), Text(u, 10, neg, width, true, padc, false) + [0];
    var at := if neg then 1 else 0;
    assert t[at..at + |d|] == d;
    PartsRead(t, 0, neg, 0, u);
  }

  lemma ZeroReads(u: nat, neg: bool, width: nat)
    requires u <= if neg then -INT_MIN else INT_MAX
    ensures var t := Text(u, 10, neg, width, false, ZERO, false) + [0]; Value(t) == (if neg then 0 - u else u) && Fits(t)
  {
    hide Value, Fits, Digits;
    var d, t := Digits(u, 10, false), Text(u, 10, neg, width, false, ZERO, false) + [0];
    var at := if neg then 1 else 0;
    var gap := width - |d| - at;
    var n := if gap < 0 then 0 else gap;
    assert t[at + n..at + n + |d|] == d;
    PartsRead(t, 0, neg, n, u);
  }

  lemma BlankReads(u: nat, neg: bool, width: nat)
    requires u <= if neg then -INT_MIN else INT_MAX
    ensures var t := Text(u, 10, neg, width, false, SPACE, false) + [0]; Value(t) == (if neg then 0 - u else u) && Fits(t)
  {
    hide Value, Fits, Digits;
    var d, t := Digits(u, 10, false), Text(u, 10, neg, width, false, SPACE, false) + [0];
    var at := if neg then 1 else 0;
    var gap := width - |d| - at;
    var n := if gap < 0 then 0 else gap;
    assert t[n + at..n + at + |d|] == d;
    PartsRead(t, n, neg, 0, u);
  }

  /** A carriage return before each line feed. */
  function Crlf(s: seq<Byte>): seq<Byte> {
    if s == [] then [] else Crlf(s[..|s| - 1]) + if s[|s| - 1] == 10 then [13, 10] else [s[|s| - 1]]
  }

  lemma {:induction false} NoLineFeed(s: seq<Byte>)
    requires forall k :: 0 <= k < |s| ==> s[k] != 10
    ensures Crlf(s) == s
  {
    if s != [] {
      NoLineFeed(s[..|s| - 1]);
    }
  }

  lemma CrlfMore(s: seq<Byte>, c: Byte)
    ensures Crlf(s + [c]) == Crlf(s) + if c == 10 then [13, 10] else [c]
  {
    assert (s + [c])[..|s|] == s;
  }

  lemma CrlfNone()
    ensures Crlf([]) == []
  {
  }

  /** The first line feed gets a carriage return before it, and so on in the rest. */
  lemma {:induction false} CrlfSplits(s: seq<Byte>, t: seq<Byte>)
    requires 10 !in s
    ensures Crlf(s) == s && Crlf(s + [10] + t) == s + [13, 10] + Crlf(t)
  {
    NoLineFeed(s);
    CrlfNone();
    hide Crlf;
    if t == [] {
      CrlfMore(s, 10);
      assert s + [10] + t == s + [10];
    } else {
      var n := |t| - 1;
      CrlfSplits(s, t[..n]);
      CrlfMore(t[..n], t[n]);
      CrlfMore(s + [10] + t[..n], t[n]);
      assert t == t[..n] + [t[n]];
      assert s + [10] + t == s + [10] + t[..n] + [t[n]];
    }
  }

  /** putBuffer, on a buffer with a zero at n. */
  method PutBuffer(buf: array<Byte>, ghost n: nat) returns (out: seq<Byte>)
    requires n < buf.Length && buf[n] == 0 && forall k :: 0 <= k < n ==> buf[k] != 0
    ensures out == Crlf(buf[..n])
  {
    out := [];
    var i := 0;
    while buf[i] != 0
      invariant 0 <= i <= n && out == Crlf(buf[..i])
      decreases n - i
    {
      assert buf[..i + 1][..i] == buf[..i];
      if buf[i] == 10 {
        out := out + [13];
      }
      out := out + [buf[i]];
      i := i + 1;
    }
  }

  function Pow10(k: nat): nat { if k == 0 then 1 else 10 * Pow10(k - 1) }

  lemma {:induction false} DigitsBound(u: nat, k: nat)
    requires k >= 1 && u < Pow10(k)
    ensures |Digits(u, 10, false)| <= k
  {
    if u >= 10 {
      DigitsBound(u / 10, k - 1);
    }
  }

  /** The text fits the buffer with its zero, and holds neither a zero nor a line feed. */
  lemma TextShort(u: nat, neg: bool, width: nat, ladjust: bool, padc: Byte)
    requires u <= -INT_MIN && width < BUF_SIZE && (padc == ZERO || padc == SPACE)
    ensures var t := Text(u, 10, neg, width, ladjust, padc, false);
            (|t| < BUF_SIZE && forall k :: 0 <= k < |t| ==> t[k] != 0 && t[k] != 10)
  {
    assert Pow10(10) == 10000000000 by {
      assert Pow10(5) == 100000;
    }
    DigitsBound(u, 10);
    DigitsAreDigits(u);
    hide Digits;
  }

  /** The %d path of fprint, for widths that its 256-byte buffer holds. */
  method PrintInt(v: int, width: nat, ladjust: bool, padc: Byte) returns (out: seq<Byte>)
    requires -0x8000_0000 <= v <= 0x7FFF_FFFF && width < 256 && (padc == 48 || padc == 32)
    ensures out == Text(if v < 0 then -v else v, 10, v < 0, width, ladjust, padc, false)
  {
    hide Shown, Text, Digits, Crlf;
    var buf := new Byte[BUF_SIZE];
    var num, negFlag := v, false;
    if num < 0 {
      num := -num;
      negFlag := true;
    }
    TextShort(num, negFlag, width, ladjust, padc);
    PrintNum(buf, num, 10, negFlag, width, ladjust, padc, false);
    ghost var t := Text(num, 10, negFlag, width, ladjust, padc, false);
    assert forall k :: 0 <= k < |t| ==> buf[..|t|][k] == t[k];
    NoLineFeed(t);
    out := PutBuffer(buf, |t|);
  }
}
