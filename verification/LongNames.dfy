/**
 Directory entries on disk: a file is a run of 32-byte long-name entries, last part first, and a
 short entry. Building the entries of a name, and scanning a directory for the next file.
 */
module LongNames {
  type Byte = b: int | 0 <= b < 256
  const ENTRY := 32
  const LONG := 13
  const SHORT := 11
  const MAX_NAME := 255
  const ATTR_LONG_NAME := 0x0F
  const ATTR_DIRECTORY := 0x10
  const LAST := 0x40
  const EMPTY := 0xE5
  const SPACE := 32
  const DOT := 46

  /** What an entry records of a file. */
  datatype Info = Info(attr: Byte, clus: nat, size: nat, reserve: Byte)

  /** Byte offset in a long entry of its k-th character: five, then six, then two. */
  function Slot(k: nat): nat {
    if k < 5 then 1 + 2 * k else if k < 11 then 14 + 2 * (k - 5) else 28 + 2 * (k - 11)
  }

  /** The two bytes stored for character k of part i of a name: itself, the end mark, or padding. */
  function Low(name: seq<Byte>, i: nat, k: nat): Byte
    requires i > 0
  {
    var p := (i - 1) * LONG + k;
    if p < |name| then name[p] else if p == |name| then 0 else 0xFF
  }

  function High(name: seq<Byte>, i: nat, k: nat): Byte
    requires i > 0
  {
    if (i - 1) * LONG + k <= |name| then 0 else 0xFF
  }

  function Parts(name: seq<Byte>): nat {
    (|name| + LONG - 1) / LONG
  }

  ghost predicate IsLong(e: seq<Byte>, name: seq<Byte>, i: nat, sum: Byte) {
    && |e| == ENTRY && 0 < i <= Parts(name) < LAST
    && e[0] == (if i == Parts(name) then i + LAST else i)
    && e[11] == ATTR_LONG_NAME && e[12] == 0 && e[13] == sum && e[26] == 0 && e[27] == 0
    && forall k: nat :: k < LONG ==> e[Slot(k)] == Low(name, i, k) && e[Slot(k) + 1] == High(name, i, k)
  }

  /** The short entry of a file: 11 name bytes, the attribute, and the split cluster number. */
  function ShortEntry(short: seq<Byte>, d: Info): (e: seq<Byte>)
    requires |short| == SHORT
    ensures |e| == ENTRY
  {
    short + [d.attr, d.reserve, 0, 0, 0, 0, 0, 0, 0, Octet(d.clus, 2), Octet(d.clus, 3), 0, 0, 0, 0, Octet(d.clus, 0), Octet(d.clus, 1),
             Octet(d.size, 0), Octet(d.size, 1), Octet(d.size, 2), Octet(d.size, 3)]
  }

  /**
   A long entry byte by byte: 32 bytes, the part number with 0x40 on the last part, the attribute 0x0F,
   type 0, the checksum, no cluster, and thirteen 16-bit characters at 1, 14 and 28: the name's, then a
   zero, then 0xFFFF.
   */
  lemma LongLayout(e: seq<Byte>, name: seq<Byte>, i: nat, sum: Byte)
    requires IsLong(e, name, i, sum)
    ensures |e| == 32 && e[0] == (if 13 * i >= |name| then i + 0x40 else i)
    ensures e[11] == 0x0F && e[12] == 0 && e[13] == sum && e[26] == 0 && e[27] == 0
    ensures forall k: nat :: k < 13 ==> Char16(e, if k < 5 then 2 * k + 1 else if k < 11 then 2 * k + 4 else 2 * k + 6)
                                        == var p := 13 * (i - 1) + k; if p < |name| then name[p] as int else if p == |name| then 0 else 0xFFFF
  {
    forall k: nat | k < 13
      ensures Char16(e, if k < 5 then 2 * k + 1 else if k < 11 then 2 * k + 4 else 2 * k + 6)
              == var p := 13 * (i - 1) + k; if p < |name| then name[p] as int else if p == |name| then 0 else 0xFFFF
    {
      assert e[Slot(k)] == Low(name, i, k) && e[Slot(k) + 1] == High(name, i, k);
    }
  }

  ghost function Char16(e: seq<Byte>, at: nat): int
    requires at + 1 < |e|
  {
    (e[at] as int) + 0x100 * (e[at + 1] as int)
  }

  /** There are as many parts as the characters need, thirteen to a part. */
  lemma PartsFit(name: seq<Byte>)
    ensures 13 * Parts(name) - 13 < |name| <= 13 * Parts(name)
  {
  }

  /** A short entry byte by byte: the name, the attribute, the high and the low half of the cluster number, and the size. */
  lemma ShortLayout(short: seq<Byte>, d: Info)
    requires |short| == 11 && d.clus < 0x1_0000_0000 && d.size < 0x1_0000_0000
    ensures var e := ShortEntry(short, d);
            && |e| == 32 && e[..11] == short && e[11] == d.attr && e[12] == d.reserve
            && (forall k :: 13 <= k < 20 || 22 <= k < 26 ==> e[k] == 0)
            && Char16(e, 20) * 0x1_0000 + Char16(e, 26) == d.clus
            && Char16(e, 28) + Char16(e, 30) * 0x1_0000 == d.size
  {
    OctetsSum(d.clus);
    OctetsSum(d.size);
  }

  /** Byte k of a 32-bit number stored low byte first. */
  function Octet(n: nat, k: nat): Byte {
    (if k == 0 then n else if k == 1 then n / 0x100 else if k == 2 then n / 0x1_0000 else n / 0x100_0000) % 0x100
  }

  function Word(e: seq<Byte>, at: nat): nat
    requires at + 1 < |e|
  {
    var lo: int, hi: int := e[at], e[at + 1];
    lo + 0x100 * hi
  }

  /** readDentryInfo. */
  function ReadInfo(e: seq<Byte>): Info
    requires |e| == ENTRY
  {
    Info(e[11], Word(e, 20) * 0x1_0000 + Word(e, 26), Word(e, 28) + 0x1_0000 * Word(e, 30), e[12])
  }

  lemma InfoRoundTrip(short: seq<Byte>, d: Info)
    requires |short| == SHORT && d.clus < 0x1_0000_0000 && d.size < 0x1_0000_0000
    ensures ReadInfo(ShortEntry(short, d)) == d
  {
    OctetsSum(d.clus);
    OctetsSum(d.size);
    var e := ShortEntry(short, d);
    assert e[11] == d.attr && e[12] == d.reserve;
    assert Word(e, 20) == Octet(d.clus, 2) + 0x100 * Octet(d.clus, 3);
    assert Word(e, 26) == Octet(d.clus, 0) + 0x100 * Octet(d.clus, 1);
    assert Word(e, 28) == Octet(d.size, 0) + 0x100 * Octet(d.size, 1);
    assert Word(e, 30) == Octet(d.size, 2) + 0x100 * Octet(d.size, 3);
  }

  lemma OctetsSum(n: nat)
    requires n < 0x1_0000_0000
    ensures n == Octet(n, 0) + 0x100 * Octet(n, 1) + 0x1_0000 * (Octet(n, 2) + 0x100 * Octet(n, 3))
  {
    assert n == n % 0x100 + 0x100 * (n / 0x100);
    assert n / 0x100 == n / 0x100 % 0x100 + 0x100 * (n / 0x1_0000);
    assert n / 0x1_0000 == n / 0x1_0000 % 0x100 + 0x100 * (n / 0x100_0000);
  }

  // ----- building the entries ---------------------------------------------------------------

  /** calChecksum: the standard's checksum of the 11 short-name bytes, in 8-bit arithmetic. */
  function Sum(short: seq<Byte>): Byte {
    if short == [] then 0
    else
      var s := Sum(short[..|short| - 1]);
      ((if s % 2 == 1 then 0x80 else 0) + s / 2 + short[|short| - 1]) % 256
  }

  /** The checksum of one byte more: the sum so far, turned right by one bit, and the byte, modulo 256. */
  lemma SumRotates(short: seq<Byte>, c: Byte, turned: int)
    requires 0 <= turned < 256 && turned / 128 == Sum(short) % 2 && turned % 128 == Sum(short) / 2
    ensures Sum([]) == 0 && Sum(short + [c]) == (turned + c) % 256
  {
    assert (short + [c])[..|short|] == short;
  }

  method CalChecksum(short: seq<Byte>) returns (sum: Byte)
    requires |short| == SHORT
    ensures sum == Sum(short)
  {
    sum := 0;
    var i, at := SHORT, 0;
    while i != 0
      invariant 0 <= i <= SHORT && at == SHORT - i && sum == Sum(short[..at])
      decreases i
    {
      assert short[..at + 1][..at] == short[..at];
      sum := ((if sum % 2 == 1 then 0x80 else 0) + sum / 2 + short[at]) % 256;
      i, at := i - 1, at + 1;
    }
    assert short[..at] == short;
  }

  /** One long entry, as makeDentry's inner loop fills it. */
  method MakeLong(name: seq<Byte>, i: nat, sum: Byte, before: seq<Byte>) returns (de: seq<Byte>)
    requires 0 < i <= Parts(name) < LAST && forall p :: 0 <= p < |name| ==> name[p] != 0
    requires |before| == ENTRY && before[11] == ATTR_LONG_NAME && before[12] == 0 && before[13] == sum && before[26] == 0 && before[27] == 0
    ensures IsLong(de, name, i, sum)
  {
    de := before[0 := if i == Parts(name) then i + LAST else i];
    var p, w, end := (i - 1) * LONG, 1, false;
    var j := 1;
    while j <= LONG
      invariant 1 <= j <= LONG + 1 && w == (if j <= LONG then Slot(j - 1) else ENTRY) && |de| == ENTRY
      invariant end <==> (i - 1) * LONG + j - 1 > |name|
      invariant !end ==> p == (i - 1) * LONG + j - 1
      invariant de[0] == (if i == Parts(name) then i + LAST else i)
      invariant de[11] == ATTR_LONG_NAME && de[12] == 0 && de[13] == sum && de[26] == 0 && de[27] == 0
      invariant forall k: nat :: k < j - 1 ==> de[Slot(k)] == Low(name, i, k) && de[Slot(k) + 1] == High(name, i, k)
    {
      if end {
        de := de[w := 0xFF][w + 1 := 0xFF];
      } else {
        var c := if p < |name| then name[p] else 0;
        de := de[w := c];
        if c == 0 {
          end := true;
        }
        p := p + 1;
        de := de[w + 1 := 0];
      }
      w := w + 2;
      if j == 5 {
        w := 14;
      } else if j == 11 {
        w := 28;
      }
      j := j + 1;
    }
  }

  /** Upper case for a letter, an underscore for what a short name may not hold. */
  function Mapped(c: Byte): Byte {
    if 97 <= c <= 122 then c - 32 else if c in {43, 44, 59, 61, 91, 93} then 95 else c
  }

  /** In characters: lower case becomes upper case, each of + , ; = [ ] an underscore, and the rest stays. */
  lemma MappedIs(c: char)
    requires c < 128 as char
    ensures var m := Mapped(c as int) as char;
            m == if 'a' <= c <= 'z' then c - 'a' + 'A'
                 else if c == '+' || c == ',' || c == ';' || c == '=' || c == '[' || c == ']' then '_' else c
  {
  }

  /** A short-name byte is a space or the image of a character of the name. */
  ghost predicate ShortByte(name: seq<Byte>, b: Byte) {
    b == SPACE || exists m :: 0 <= m < |name| && name[m] != SPACE && name[m] != DOT && b == Mapped(name[m])
  }

  /** The characters that a short name takes over, mapped, in order. */
  function Kept(s: seq<Byte>): (r: seq<Byte>)
    ensures |r| <= |s|
  {
    if s == [] then []
    else if s[|s| - 1] == SPACE || s[|s| - 1] == DOT then Kept(s[..|s| - 1])
    else Kept(s[..|s| - 1]) + [Mapped(s[|s| - 1])]
  }

  /** Cut, or filled up with spaces, to n characters. */
  function Fit(s: seq<Byte>, n: nat): (r: seq<Byte>)
    ensures |r| == n
  {
    seq<Byte>(n, (k: nat) => if k < |s| then s[k] else SPACE)
  }

  /** Position of the last dot, or -1. */
  function LastDot(s: seq<Byte>): (d: int)
    ensures -1 <= d < |s| && (d >= 0 ==> s[d] == DOT) && forall q :: d < q < |s| ==> s[q] != DOT
  {
    if s == [] then -1 else if s[|s| - 1] == DOT then |s| - 1 else LastDot(s[..|s| - 1])
  }

  /** Eight characters of what comes before the last dot, three of what comes after it. */
  function ShortOf(name: seq<Byte>): (r: seq<Byte>)
    ensures |r| == SHORT
  {
    var d := LastDot(name);
    if d < 0 then Fit(Kept(name), 8) + Fit([], 3) else Fit(Kept(name[..d]), 8) + Fit(Kept(name[d + 1..]), 3)
  }

  lemma {:induction false} KeptBytes(name: seq<Byte>, s: seq<Byte>, from: nat)
    requires from + |s| <= |name| && s == name[from..from + |s|]
    ensures forall k :: 0 <= k < |Kept(s)| ==> ShortByte(name, Kept(s)[k])
  {
    if s != [] {
      var n := |s| - 1;
      KeptBytes(name, s[..n], from);
      assert name[from + n] == s[n];
    }
  }

  lemma ShortOfBytes(name: seq<Byte>)
    ensures forall k :: 0 <= k < SHORT ==> ShortByte(name, ShortOf(name)[k])
  {
    hide Kept, LastDot, Mapped;
    var d := LastDot(name);
    assert name[0..|name|] == name;
    KeptBytes(name, name, 0);
    if d >= 0 {
      KeptBytes(name, name[..d], 0);
      KeptBytes(name, name[d + 1..], d + 1);
    }
  }

  lemma {:induction false} KeptGrows(s: seq<Byte>, n: nat)
    requires n <= |s|
    ensures Kept(s[..n]) <= Kept(s)
  {
    if n < |s| {
      KeptGrows(s[..|s| - 1], n);
      assert s[..|s| - 1][..n] == s[..n];
    } else {
      assert s[..n] == s;
    }
  }

  /** n characters of s have been looked at and i bytes, at most top of them, taken. */
  ghost predicate Taking(s: seq<Byte>, n: nat, out: seq<Byte>, top: nat) {
    n <= |s| && out == Fit(Kept(s[..n]), |out|) && |out| == if |Kept(s[..n])| <= top then |Kept(s[..n])| else top
  }

  lemma TakeOne(s: seq<Byte>, n: nat, out: seq<Byte>, top: nat)
    requires n < |s| && Taking(s, n, out, top) && |out| < top
    ensures Taking(s, n + 1, if s[n] == SPACE || s[n] == DOT then out else out + [Mapped(s[n])], top)
  {
    assert s[..n + 1][..n] == s[..n] && s[..n + 1][n] == s[n];
  }

  /** Once all characters are looked at, or top bytes taken, filling up gives the fitted part. */
  lemma TakenAll(s: seq<Byte>, n: nat, out: seq<Byte>, top: nat)
    requires Taking(s, n, out, top) && (n == |s| || |out| == top)
    ensures |out| <= top && out + Fit([], top - |out|) == Fit(Kept(s), top)
  {
    KeptGrows(s, n);
    assert s[..|s|] == s;
    hide Kept;
  }

  /** The base is being read: nothing of the extension has been taken. */
  ghost predicate InBase(name: seq<Byte>, n: nat, i: nat, short: seq<Byte>) {
    var d := LastDot(name);
    |short| == SHORT && i <= 8 && Taking(if d < 0 then name else name[..d], n, short[..i], 8)
  }

  /** The base is done, and the extension is being read. */
  ghost predicate InExtension(name: seq<Byte>, n: nat, i: nat, short: seq<Byte>) {
    var d := LastDot(name);
    && |short| == SHORT && 0 <= d < n && 8 <= i <= SHORT && short[..8] == Fit(Kept(name[..d]), 8)
    && Taking(name[d + 1..], n - d - 1, short[8..i], 3)
  }

  lemma BaseStep(name: seq<Byte>, n: nat, i: nat, short: seq<Byte>)
    requires InBase(name, n, i, short) && i < 8 && n < |name| && (LastDot(name) >= 0 ==> n < LastDot(name))
    ensures InBase(name, n + 1, if name[n] == SPACE || name[n] == DOT then i else i + 1,
                   if name[n] == SPACE || name[n] == DOT then short else short[i := Mapped(name[n])])
  {
    hide Kept, LastDot;
    var d := LastDot(name);
    TakeOne(if d < 0 then name else name[..d], n, short[..i], 8);
    assert short[i := Mapped(name[n])][..i + 1] == short[..i] + [Mapped(name[n])];
  }

  lemma BaseDone(name: seq<Byte>, n: nat, i: nat, short: seq<Byte>, full: seq<Byte>)
    requires InBase(name, n, i, short) && (i == 8 || n == LastDot(name)) && 0 <= LastDot(name)
    requires |full| == SHORT && full[..i] == short[..i] && forall k :: i <= k < 8 ==> full[k] == SPACE
    ensures InExtension(name, LastDot(name) + 1, 8, full)
  {
    hide Kept, LastDot;
    var d := LastDot(name);
    TakenAll(name[..d], n, short[..i], 8);
    assert full[..8] == short[..i] + Fit([], 8 - i);
    assert Taking(name[d + 1..], 0, full[8..8], 3) by {
      NothingTaken(name[d + 1..]);
    }
  }

  lemma NothingTaken(s: seq<Byte>)
    ensures Taking(s, 0, [], 3) && Taking(s, 0, [], 8)
  {
  }

  lemma ExtensionStep(name: seq<Byte>, n: nat, i: nat, short: seq<Byte>)
    requires InExtension(name, n, i, short) && i < SHORT && n < |name|
    ensures name[n] != DOT
    ensures InExtension(name, n + 1, if name[n] == SPACE then i else i + 1, if name[n] == SPACE then short else short[i := Mapped(name[n])])
  {
    hide Kept, LastDot, Taking, Fit, Mapped;
    var d := LastDot(name);
    var e := name[d + 1..];
    assert e[n - d - 1] == name[n];
    TakeOne(e, n - d - 1, short[8..i], 3);
    var next := short[i := Mapped(name[n])];
    assert next[8..i + 1] == short[8..i] + [Mapped(name[n])];
    assert next[..8] == short[..8];
  }

  /** Filling up with spaces finishes the short name. */
  lemma ShortDone(name: seq<Byte>, n: nat, i: nat, short: seq<Byte>, full: seq<Byte>)
    requires |full| == SHORT == |short| && i <= SHORT && full[..i] == short[..i] && forall k :: i <= k < SHORT ==> full[k] == SPACE
    requires (InExtension(name, n, i, short) && (i == SHORT || n == |name|))
             || (InBase(name, n, i, short) && LastDot(name) < 0 && (i == 8 || n == |name|))
    ensures full == ShortOf(name)
  {
    hide Kept, LastDot, InBase, InExtension, ShortOf, Fit;
    if InExtension(name, n, i, short) && (i == SHORT || n == |name|) {
      ExtensionFilled(name, n, i, short, full);
    } else {
      BaseFilled(name, n, i, short, full);
    }
  }

  lemma ExtensionFilled(name: seq<Byte>, n: nat, i: nat, short: seq<Byte>, full: seq<Byte>)
    requires |full| == SHORT == |short| && i <= SHORT && full[..i] == short[..i] && forall k :: i <= k < SHORT ==> full[k] == SPACE
    requires InExtension(name, n, i, short) && (i == SHORT || n == |name|)
    ensures full == ShortOf(name)
  {
    hide Kept, LastDot, Taking;
    var d := LastDot(name);
    TakenAll(name[d + 1..], n - d - 1, short[8..i], 3);
    assert full[..8] == full[..i][..8] == short[..i][..8] == short[..8];
    assert full[8..] == short[8..i] + Fit([], SHORT - i) by {
      assert full[8..i] == full[..i][8..] == short[..i][8..] == short[8..i];
    }
    assert full == full[..8] + full[8..];
  }

  lemma BaseFilled(name: seq<Byte>, n: nat, i: nat, short: seq<Byte>, full: seq<Byte>)
    requires |full| == SHORT == |short| && i <= SHORT && full[..i] == short[..i] && forall k :: i <= k < SHORT ==> full[k] == SPACE
    requires InBase(name, n, i, short) && LastDot(name) < 0 && (i == 8 || n == |name|)
    ensures full == ShortOf(name)
  {
    hide Kept, LastDot, Taking;
    TakenAll(name, n, short[..i], 8);
    assert full == (short[..i] + Fit([], 8 - i)) + Fit([], 3);
  }

  /** generateShortName. Where the C code has a pointer into the name or null, p is a position in it or -1. */
  method GenerateShortName(name: seq<Byte>) returns (short: seq<Byte>)
    requires forall p :: 0 <= p < |name| ==> name[p] != 0
    ensures short == ShortOf(name) && forall k :: 0 <= k < SHORT ==> ShortByte(name, short[k])
    ensures |short| == 11 && forall d :: -1 <= d < |name| && IsLastDot(name, d) ==>
              && ShortPart(short[..8], Kept(if d == -1 then name else name[..d]))
              && ShortPart(short[8..], if d == -1 then [] else Kept(name[d + 1..]))
  {
    hide Kept, LastDot, ShortByte, InBase, InExtension, Mapped, ShortOf;
    short := seq(SHORT, _ => 0);
    var i, n, p := 0, 0, 0;
    var j := |name| - 1;
    while j >= 0
      invariant -1 <= j < |name| && p == 0
      invariant forall q :: j < q < |name| ==> name[q] != DOT
    {
      if name[j] == DOT {
        p := j;
        break;
      }
      j := j - 1;
    }
    ghost var d := LastDot(name);
    BaseStart(name, short);
    ghost var m := 0;
    while i < SHORT && n < |name|
      invariant 0 <= i <= SHORT && n <= |name| && |short| == SHORT && m == n
      invariant if p == -1 then InExtension(name, n, i, short)
                else InBase(name, n, i, short) && i <= 8 && i <= n && p == (if d < 0 then 0 else d) && (d >= 0 ==> n <= d)
      decreases |name| - n
    {
      var c := name[n];
      n := n + 1;
      if i == 8 && p != -1 {
        if p + 1 < n {
          break;
        } else {
          BaseDone(name, m, i, short, short);
          n, p := p + 1, -1;
          m := n;
          continue;
        }
      }
      if c == SPACE {
        if p == -1 {
          ExtensionStep(name, m, i, short);
        } else {
          BaseStep(name, m, i, short);
        }
        m := n;
        continue;
      }
      if c == DOT {
        if p == -1 {
          ExtensionStep(name, m, i, short);
        }
        if n > p {
          ghost var was, at := short, i;
          while i < 8
            invariant at <= i <= 8 && |short| == SHORT && short[..at] == was[..at]
            invariant forall k :: at <= k < i ==> short[k] == SPACE
          {
            short := short[i := SPACE];
            i := i + 1;
          }
          BaseDone(name, m, at, was, short);
          p := -1;
        } else {
          BaseStep(name, m, i, short);
        }
        m := n;
        continue;
      }
      if p == -1 {
        ExtensionStep(name, m, i, short);
      } else {
        BaseStep(name, m, i, short);
      }
      short := short[i := Mapped(c)];
      i := i + 1;
      m := n;
    }
    ghost var was, at := short, i;
    while i < SHORT
      invariant at <= i <= SHORT && |short| == SHORT && short[..at] == was[..at]
      invariant forall k :: at <= k < i ==> short[k] == SPACE
    {
      short := short[i := SPACE];
      i := i + 1;
    }
    ShortDone(name, m, at, was, short);
    ShortOfBytes(name);
    ShortParts(name, short);
  }

  /** d is where the last '.' is, or -1. */
  ghost predicate IsLastDot(name: seq<Byte>, d: int) {
    -1 <= d < |name| && (d != -1 ==> name[d] == 46) && forall q :: d < q < |name| ==> name[q] != 46
  }

  /** The characters of s as far as there is room, then ' '. */
  ghost predicate ShortPart(p: seq<Byte>, s: seq<Byte>) {
    forall k :: 0 <= k < |p| ==> p[k] == if k < |s| then s[k] else 32
  }

  lemma ShortParts(name: seq<Byte>, short: seq<Byte>)
    requires short == ShortOf(name)
    ensures |short| == 11
    ensures forall d :: -1 <= d < |name| && IsLastDot(name, d) ==>
              && ShortPart(short[..8], Kept(if d == -1 then name else name[..d]))
              && ShortPart(short[8..], if d == -1 then [] else Kept(name[d + 1..]))
  {
    hide Kept, Fit, LastDot, IsLastDot;
    var d := LastDot(name);
    forall c | -1 <= c < |name| && IsLastDot(name, c) ensures c == d {
      LastDotIs(name, c);
    }
    FitIs(Kept(if d == -1 then name else name[..d]), 8);
    FitIs(if d == -1 then [] else Kept(name[d + 1..]), 3);
    KeptOne([], 0);
    assert short[..8] == Fit(Kept(if d == -1 then name else name[..d]), 8);
    assert short[8..] == Fit(if d == -1 then [] else Kept(name[d + 1..]), 3);
  }

  lemma LastDotIs(name: seq<Byte>, c: int)
    requires IsLastDot(name, c)
    ensures c == LastDot(name)
  {
    var d := LastDot(name);
    hide LastDot;
  }

  lemma FitIs(s: seq<Byte>, n: nat)
    ensures ShortPart(Fit(s, n), s)
  {
  }

  /** Spaces and dots are left out, everything else is taken over. */
  lemma KeptOne(s: seq<Byte>, c: Byte)
    ensures Kept([]) == [] && Kept(s + [c]) == Kept(s) + if c == 32 || c == 46 then [] else [Mapped(c)]
  {
    assert (s + [c])[..|s|] == s;
  }

  lemma BaseStart(name: seq<Byte>, short: seq<Byte>)
    requires |short| == SHORT
    ensures InBase(name, 0, 0, short)
  {
    hide LastDot;
    var d := LastDot(name);
    NothingTaken(if d < 0 then name else name[..d]);
  }

  lemma AsciiShort(name: seq<Byte>, b: Byte)
    requires ShortByte(name, b) && forall p :: 0 <= p < |name| ==> 0 < name[p] < 128
    ensures 0 < b < 128
  {
  }

  // ----- reading the entries ----------------------------------------------------------------

  /** How many of the wide characters come before the first zero. */
  function Upto(src: seq<nat>): (z: nat)
    ensures z <= |src| && (forall k :: 0 <= k < z ==> src[k] != 0) && (z < |src| ==> src[z] == 0)
  {
    if src == [] || src[0] == 0 then 0 else 1 + Upto(src[1..])
  }

  /** snstr: the characters before the first zero, then zeros, one short of the full length. */
  function Narrowed(dst: seq<Byte>, at: nat, src: seq<nat>): (r: seq<Byte>)
    requires at + |src| <= |dst|
    ensures |r| == |dst|
  {
    var z := Upto(src);
    seq<Byte>(|dst|, (q: nat) requires q < |dst| =>
      if at <= q < at + z then src[q - at] % 256 else if at + z <= q < at + |src| - 1 then 0 else dst[q])
  }

  method Snstr(dst: seq<Byte>, at: nat, src: seq<nat>) returns (r: seq<Byte>)
    requires at + |src| <= |dst|
    ensures r == Narrowed(dst, at, src)
  {
    r := dst;
    var len, d, s := |src|, at, 0;
    while true
      invariant 0 <= s <= Upto(src) && len == |src| - s && d == at + s && |r| == |dst|
      invariant forall q :: 0 <= q < |dst| ==> r[q] == if at <= q < d then src[q - at] % 256 else dst[q]
      decreases |src| - s
    {
      len := len - 1;
      if !(len + 1 != 0 && src[s] != 0) {
        break;
      }
      r := r[d := src[s] % 256];
      d, s := d + 1, s + 1;
    }
    ghost var z := s;
    while len > 0
      invariant at + z <= d <= at + |src| && (len >= 0 ==> d + len == at + |src| - 1) && (len < 0 ==> d == at + z && z == |src|)
      invariant |r| == |dst| && z == Upto(src)
      invariant forall q :: 0 <= q < |dst| ==>
                  r[q] == if at <= q < at + z then src[q - at] % 256 else if at + z <= q < d then 0 else dst[q]
      decreases len
    {
      len := len - 1;
      r := r[d := 0];
      d := d + 1;
    }
  }

  function Wide(e: seq<Byte>, from: nat, n: nat): (s: seq<nat>)
    requires |e| == ENTRY && from + n <= LONG
    ensures |s| == n
  {
    seq<nat>(n, (k: nat) requires k < n => Word(e, Slot(from + k)))
  }

  /** readDentryName on a long entry. */
  function LongInto(buf: seq<Byte>, at: nat, e: seq<Byte>): (r: seq<Byte>)
    requires |e| == ENTRY && at + LONG <= |buf|
    ensures |r| == |buf|
  {
    Narrowed(Narrowed(Narrowed(buf, at, Wide(e, 0, 5)), at + 5, Wide(e, 5, 6)), at + 11, Wide(e, 11, 2))
  }

  /** readDentryName on a short entry: base, a dot and the extension if there is one. */
  function ShortName(e: seq<Byte>): (s: seq<Byte>)
    requires |e| == ENTRY
    ensures |s| <= SHORT + 1
  {
    var base := e[..Blank(e[..8])];
    if e[8] == SPACE then base else base + [DOT] + e[8..8 + Blank(e[8..11])]
  }

  function Blank(s: seq<Byte>): (n: nat)
    ensures n <= |s| && (forall k :: 0 <= k < n ==> s[k] != SPACE) && (n < |s| ==> s[n] == SPACE)
  {
    if s == [] || s[0] == SPACE then 0 else 1 + Blank(s[1..])
  }

  /** A short entry with base b and extension x spells b, or b, a dot and x. */
  lemma ShortNameIs(e: seq<Byte>, b: seq<Byte>, x: seq<Byte>)
    requires |e| == 32 && |b| <= 8 && |x| <= 3 && 32 !in b && 32 !in x
    requires e[..|b|] == b && (forall k :: |b| <= k < 8 ==> e[k] == 32)
    requires e[8..8 + |x|] == x && forall k :: 8 + |x| <= k < 11 ==> e[k] == 32
    ensures ShortName(e) == if x == [] then b else b + [46] + x
  {
    var n, m := Blank(e[..8]), Blank(e[8..11]);
    assert forall k :: 0 <= k < |b| ==> e[..8][k] == b[k];
    assert forall k :: 0 <= k < |x| ==> e[8..11][k] == x[k];
    forall k | 0 <= k < |b| ensures e[..8][k] != 32 {
      assert b[k] in b;
    }
    forall k | 0 <= k < |x| ensures e[8..11][k] != 32 {
      assert x[k] in x;
    }
    assert |b| < 8 ==> e[..8][|b|] == 32;
    assert |x| < 3 ==> e[8..11][|x|] == e[8 + |x|];
    assert n == |b| && m == |x|;
    assert e[..8][..n] == b;
  }

  function Overlaid(buf: seq<Byte>, s: seq<Byte>): (r: seq<Byte>)
    requires SHORT + 2 <= |buf| && |s| <= SHORT + 1
    ensures |r| == |buf|
  {
    s + seq<Byte>(SHORT + 2 - |s|, _ => 0) + buf[SHORT + 2..]
  }

  method ReadDentryName(buf: seq<Byte>, at: nat, e: seq<Byte>) returns (r: seq<Byte>)
    requires |e| == ENTRY && at + LONG <= |buf| && (e[11] != ATTR_LONG_NAME ==> at == 0)
    ensures r == if e[11] == ATTR_LONG_NAME then LongInto(buf, at, e) else Overlaid(buf, ShortName(e))
    ensures |r| == |buf| && forall q :: 0 <= q < |r| && e[11] != 0x0F ==>
              r[q] == if q < |ShortName(e)| then ShortName(e)[q] else if q < 13 then 0 else buf[q]
  {
    if e[11] == ATTR_LONG_NAME {
      r := Snstr(buf, at, Wide(e, 0, 5));
      r := Snstr(r, at + 5, Wide(e, 5, 6));
      r := Snstr(r, at + 11, Wide(e, 11, 2));
    } else {
      r := ReadShortName(buf, e);
    }
  }

  /** r is buf with its first 13 bytes holding t and zeros. */
  ghost predicate Shows(r: seq<Byte>, buf: seq<Byte>, t: seq<Byte>) {
    && |r| == |buf| >= LONG >= |t|
    && forall q :: 0 <= q < |r| ==> r[q] == if q < |t| then t[q] else if q < LONG then 0 else buf[q]
  }

  lemma ShowsMore(r: seq<Byte>, buf: seq<Byte>, t: seq<Byte>, c: Byte)
    requires Shows(r, buf, t) && |t| < LONG
    ensures Shows(r[|t| := c], buf, t + [c])
  {
  }

  lemma ShowsOverlaid(r: seq<Byte>, buf: seq<Byte>, t: seq<Byte>)
    requires Shows(r, buf, t) && |t| < LONG
    ensures r == Overlaid(buf, t)
  {
  }

  method ReadShortName(buf: seq<Byte>, e: seq<Byte>) returns (r: seq<Byte>)
    requires |e| == ENTRY && LONG <= |buf|
    ensures r == Overlaid(buf, ShortName(e))
  {
    r := seq<Byte>(LONG, _ => 0) + buf[LONG..];
    var i := 0;
    ghost var t: seq<Byte> := [];
    assert Shows(r, buf, t);
    hide Shows, Overlaid;
    while e[i] != SPACE && i < 8
      invariant 0 <= i <= 8 && |r| == |buf| && i <= Blank(e[..8]) && t == e[..i] && Shows(r, buf, t)
      decreases 8 - i
    {
      assert e[..8][i] == e[i];
      ShowsMore(r, buf, t, e[i]);
      r, t := r[i := e[i]], t + [e[i]];
      i := i + 1;
    }
    assert i == Blank(e[..8]) by {
      assert i < 8 ==> e[..8][i] == SPACE;
    }
    if e[8] != SPACE {
      ShowsMore(r, buf, t, DOT);
      r, t := r[i := DOT], t + [DOT];
      i := i + 1;
    }
    ghost var s := t;
    var j := 8;
    while j < SHORT && e[j] != SPACE
      invariant 8 <= j <= SHORT && i == |t| && |s| <= 9 && |r| == |buf| && j - 8 <= Blank(e[8..11])
      invariant t == s + e[8..j] && Shows(r, buf, t)
    {
      assert e[8..11][j - 8] == e[j];
      ShowsMore(r, buf, t, e[j]);
      r, t := r[i := e[j]], t + [e[j]];
      j, i := j + 1, i + 1;
    }
    assert j - 8 == Blank(e[8..11]) by {
      assert j < SHORT ==> e[8..11][j - 8] == SPACE;
    }
    assert t == ShortName(e);
    ShowsOverlaid(r, buf, t);
  }

  /** The three groups of a long entry, where its layout has them. */
  lemma GroupsAt(e: seq<Byte>)
    requires |e| == 32
    ensures forall k: nat :: k < 5 ==> Wide(e, 0, 5)[k] == Char16(e, 1 + 2 * k)
    ensures forall k: nat :: k < 6 ==> Wide(e, 5, 6)[k] == Char16(e, 14 + 2 * k)
    ensures forall k: nat :: k < 2 ==> Wide(e, 11, 2)[k] == Char16(e, 28 + 2 * k)
  {
    forall k: nat | k < 5 ensures Wide(e, 0, 5)[k] == Char16(e, 1 + 2 * k) {
      WideAt(e, 0, 5, k);
    }
    forall k: nat | k < 6 ensures Wide(e, 5, 6)[k] == Char16(e, 14 + 2 * k) {
      WideAt(e, 5, 6, k);
    }
    forall k: nat | k < 2 ensures Wide(e, 11, 2)[k] == Char16(e, 28 + 2 * k) {
      WideAt(e, 11, 2, k);
    }
  }

  lemma WideAt(e: seq<Byte>, from: nat, n: nat, k: nat)
    requires |e| == ENTRY && from + n <= LONG && k < n
    ensures var m := from + k;
            Wide(e, from, n)[k] == Char16(e, if m < 5 then 2 * m + 1 else if m < 11 then 2 * m + 4 else 2 * m + 6)
  {
    var m := from + k;
    assert Wide(e, from, n)[k] == Word(e, Slot(m));
    assert Word(e, Slot(m)) == (e[Slot(m)] as int) + 0x100 * (e[Slot(m) + 1] as int);
  }

  // ----- scanning a directory ---------------------------------------------------------------

  /** dirMetaNext's outcomes; Fault is a store through a null pointer or outside the name buffer. */
  datatype Next = End | Holes(n: nat) | File(buf: seq<Byte>, info: Info, count: nat) | Fault

  /** The part number of a long entry: its order byte without the last-part flag. */
  function Part(order: Byte): nat {
    if order / LAST % 2 == 1 then order - LAST else order
  }

  datatype Look = Stop(r: Next) | Go(cnt: nat, buf: seq<Byte>, seen: int)

  /** What dirMetaNext does about one entry that is not the end mark. */
  function LookAt(e: seq<Byte>, cnt: nat, buf: seq<Byte>, seen: int): (l: Look)
    requires |e| == ENTRY && |buf| == MAX_NAME + 1 && seen >= -1
    ensures l.Go? ==> |l.buf| == MAX_NAME + 1 && l.seen >= -1
  {
    if e[0] == 0 then Stop(End)
    else if e[0] == EMPTY then Go(cnt + 1, buf, seen)
    else if cnt > 0 then Stop(if seen == -1 then Holes(cnt) else Fault)
    else if e[11] == ATTR_LONG_NAME then
      if !LongFits(e[0], seen) then Stop(Fault) else Go(cnt, LongInto(buf, (Part(e[0]) - 1) * LONG, e), Seen(e[0], seen))
    else if seen == -1 then Stop(File(Overlaid(buf, ShortName(e)), ReadInfo(e), 1))
    else Stop(File(buf, ReadInfo(e), seen))
  }

  /** The body of dirMetaNext's loop. */
  method ConsumeEntry(e: seq<Byte>, cnt: nat, buf: seq<Byte>, seen: int) returns (l: Look)
    requires |e| == 32 && |buf| == 256 && seen >= -1
    ensures l == LookAt(e, cnt, buf, seen)
    ensures e[0] == 0 ==> l == Stop(End)
    ensures e[0] == 0xE5 ==> l == Go(cnt + 1, buf, seen)
    ensures e[0] !in {0, 0xE5} && cnt > 0 ==> l == Stop(if seen == -1 then Holes(cnt) else Fault)
    ensures e[0] !in {0, 0xE5} && cnt == 0 && e[11] == 0x0F ==>
              var last, part := e[0] / 64 % 2 == 1, if e[0] / 64 % 2 == 1 then e[0] - 64 else e[0];
              if 1 <= part <= 19 && (last ==> seen == -1)
              then l == Go(0, LongInto(buf, 13 * (part - 1), e), if last then part + 1 else seen) else l == Stop(Fault)
    ensures e[0] !in {0, 0xE5} && cnt == 0 && e[11] != 0x0F ==>
              && l.Stop? && l.r.File? && l.r.count == (if seen == -1 then 1 else seen)
              && l.r.buf == (if seen == -1 then Overlaid(buf, ShortName(e)) else buf)
              && l.r.info.attr == e[11] && l.r.info.clus == Char16(e, 20) * 0x1_0000 + Char16(e, 26)
              && l.r.info.size == Char16(e, 28) + Char16(e, 30) * 0x1_0000 && l.r.info.reserve == e[12]
  {
    hide LongInto, Overlaid, ShortName;
    if e[0] == 0 {
      return Stop(End);
    }
    if e[0] == EMPTY {
      return Go(cnt + 1, buf, seen);
    } else if cnt > 0 {
      return Stop(if seen == -1 then Holes(cnt) else Fault);
    }
    var count, name := seen, buf;
    if e[11] == ATTR_LONG_NAME {
      var part := Part(e[0]);
      if !LongFits(e[0], seen) {
        return Stop(Fault);
      }
      if e[0] / LAST % 2 == 1 {
        count := part + 1;
      }
      assert part == if e[0] / 64 % 2 == 1 then e[0] - 64 else e[0];
      name := ReadDentryName(name, (part - 1) * LONG, e);
      assert name == LongInto(buf, 13 * (part - 1), e);
      return Go(cnt, name, count);
    }
    if count == -1 {
      count := 1;
      name := ReadDentryName(name, 0, e);
    }
    return Stop(File(name, ReadInfo(e), count));
  }

  /**
   dirMetaNext from byte off of the directory d on, with cnt free entries behind it, the name buffer
   so far, and `seen` the count that the last-part entry stored (-1 before one is met).
   */
  function Scan(d: seq<Byte>, off: nat, cnt: nat, buf: seq<Byte>, seen: int): Next
    requires |buf| == MAX_NAME + 1 && seen >= -1
    decreases |d| - off
  {
    if off + ENTRY > |d| then End
    else
      match LookAt(d[off..off + ENTRY], cnt, buf, seen) {
        case Stop(r) => r
        case Go(c, b, s) => Scan(d, off + ENTRY, c, b, s)
      }
  }

  lemma ScanStep(d: seq<Byte>, off: nat, cnt: nat, buf: seq<Byte>, seen: int)
    requires |buf| == MAX_NAME + 1 && seen >= -1
    ensures off + ENTRY > |d| ==> Scan(d, off, cnt, buf, seen) == End
    ensures off + ENTRY <= |d| ==>
              var l := LookAt(d[off..off + ENTRY], cnt, buf, seen);
              Scan(d, off, cnt, buf, seen) == if l.Stop? then l.r else Scan(d, off + ENTRY, l.cnt, l.buf, l.seen)
  {
  }

  predicate LongFits(order: Byte, seen: int) {
    1 <= Part(order) && Part(order) * LONG <= MAX_NAME + 1 && (order / LAST % 2 == 1 ==> seen == -1)
  }

  function Seen(order: Byte, seen: int): int {
    if order / LAST % 2 == 1 then Part(order) + 1 else seen
  }

  /** The C string in a buffer. */
  ghost predicate Spells(buf: seq<Byte>, name: seq<Byte>) {
    |name| < |buf| && buf[..|name|] == name && buf[|name|] == 0
  }

  function ZeroName(): (s: seq<Byte>)
    ensures |s| == MAX_NAME + 1 && forall k :: 0 <= k < |s| ==> s[k] == 0
  {
    seq<Byte>(MAX_NAME + 1, _ => 0)
  }

  /** The directory holds the entries of a file at off. */
  ghost predicate Holds(d: seq<Byte>, off: nat, name: seq<Byte>, short: seq<Byte>, info: Info) {
    && |short| == SHORT && off + ENTRY * (Parts(name) + 1) <= |d|
    && (forall i: nat :: 0 < i <= Parts(name) ==> LongAt(d, off, name, short, i))
    && d[off + ENTRY * Parts(name)..off + ENTRY * (Parts(name) + 1)] == ShortEntry(short, info)
  }

  /** Part i of the name, the parts being stored last first. */
  ghost predicate LongAt(d: seq<Byte>, off: nat, name: seq<Byte>, short: seq<Byte>, i: nat) {
    && i <= Parts(name) && off + ENTRY * (Parts(name) - i + 1) <= |d|
    && IsLong(d[off + ENTRY * (Parts(name) - i)..off + ENTRY * (Parts(name) - i + 1)], name, i, Sum(short))
  }

  /** Parts above i have been read: their characters are there, and before them only zeros. */
  ghost predicate ReadDown(buf: seq<Byte>, name: seq<Byte>, i: nat) {
    && |buf| == MAX_NAME + 1 && |name| <= 247
    && forall k :: 0 <= k <= |name| ==> buf[k] == if i * LONG <= k < |name| then name[k] else 0
  }

  lemma SlotWide(e: seq<Byte>, name: seq<Byte>, i: nat, sum: Byte, from: nat, n: nat, k: nat)
    requires IsLong(e, name, i, sum) && from + n <= LONG && k < n
    ensures Wide(e, from, n)[k] == (Low(name, i, from + k) as int) + 0x100 * (High(name, i, from + k) as int)
  {
    var m := from + k;
    assert m < LONG && e[Slot(m)] == Low(name, i, m) && e[Slot(m) + 1] == High(name, i, m);
    assert Wide(e, from, n)[k] == Word(e, Slot(m));
    assert Word(e, Slot(m)) == (e[Slot(m)] as int) + 0x100 * (e[Slot(m) + 1] as int);
  }

  /** Storing one group of a part's characters. */
  lemma GroupRead(buf: seq<Byte>, name: seq<Byte>, i: nat, e: seq<Byte>, sum: Byte, from: nat, n: nat)
    requires IsLong(e, name, i, sum) && from + n <= LONG && |buf| == MAX_NAME + 1 && i * LONG <= 247 && |name| <= 247
    requires forall p :: 0 <= p < |name| ==> name[p] != 0
    ensures (i - 1) * LONG + from + n <= |buf|
    ensures forall q :: 0 <= q < |buf| && (q < |name| || (q == |name| && buf[q] == 0)) ==>
              Narrowed(buf, (i - 1) * LONG + from, Wide(e, from, n))[q]
              == if (i - 1) * LONG + from <= q < (i - 1) * LONG + from + n && q < |name| then name[q] else buf[q]
  {
    var at := (i - 1) * LONG + from;
    var w := Wide(e, from, n);
    forall k: nat | k < n ensures w[k] == if at + k < |name| then name[at + k] else if at + k == |name| then 0 else 0xFFFF {
      SlotWide(e, name, i, sum, from, n, k);
    }
    assert Upto(w) < n ==> at + Upto(w) >= |name|;
  }

  /** From a to b the characters of the name in [at, at + n) have been put in place. */
  ghost predicate Laid(a: seq<Byte>, b: seq<Byte>, name: seq<Byte>, at: nat, n: nat) {
    && |a| == |b| == MAX_NAME + 1 && |name| <= 247 && a[|name|] == 0
    && forall q :: 0 <= q <= |name| ==> b[q] == if at <= q < at + n && q < |name| then name[q] else a[q]
  }

  lemma GroupLaid(buf: seq<Byte>, name: seq<Byte>, i: nat, e: seq<Byte>, sum: Byte, from: nat, n: nat)
    requires IsLong(e, name, i, sum) && from + n <= LONG && |buf| == MAX_NAME + 1 && 1 <= i && i * LONG <= 247 && |name| <= 247
    requires buf[|name|] == 0 && forall p :: 0 <= p < |name| ==> name[p] != 0
    ensures |e| == ENTRY && Laid(buf, Narrowed(buf, (i - 1) * LONG + from, Wide(e, from, n)), name, (i - 1) * LONG + from, n)
  {
    assert |e| == ENTRY;
    hide IsLong, Narrowed, Wide;
    GroupRead(buf, name, i, e, sum, from, n);
  }

  lemma LaidTrans(a: seq<Byte>, b: seq<Byte>, c: seq<Byte>, name: seq<Byte>, at: nat, n: nat, m: nat)
    requires Laid(a, b, name, at, n) && Laid(b, c, name, at + n, m)
    ensures Laid(a, c, name, at, n + m)
  {
  }

  lemma LaidDown(a: seq<Byte>, b: seq<Byte>, name: seq<Byte>, i: nat)
    requires ReadDown(a, name, i) && i > 0 && Laid(a, b, name, (i - 1) * LONG, LONG)
    ensures ReadDown(b, name, i - 1)
  {
  }

  lemma LaidEnd(a: seq<Byte>, b: seq<Byte>, name: seq<Byte>, at: nat, n: nat)
    requires Laid(a, b, name, at, n)
    ensures |b| == MAX_NAME + 1 && b[|name|] == 0
  {
  }

  lemma PartFacts(buf: seq<Byte>, name: seq<Byte>, i: nat, e: seq<Byte>, sum: Byte)
    requires IsLong(e, name, i, sum) && ReadDown(buf, name, i)
    ensures i > 0 && |e| == ENTRY && |buf| == MAX_NAME + 1 && |name| <= 247 && buf[|name|] == 0
  {
  }

  lemma PartRead(buf: seq<Byte>, name: seq<Byte>, i: nat, e: seq<Byte>, sum: Byte)
    requires IsLong(e, name, i, sum) && i * LONG <= 247 && ReadDown(buf, name, i) && forall p :: 0 <= p < |name| ==> name[p] != 0
    ensures ReadDown(LongInto(buf, (i - 1) * LONG, e), name, i - 1)
  {
    hide IsLong, Narrowed, Wide, Laid, ReadDown;
    PartFacts(buf, name, i, e, sum);
    var at := (i - 1) * LONG;
    var b1 := Narrowed(buf, at, Wide(e, 0, 5));
    GroupLaid(buf, name, i, e, sum, 0, 5);
    LaidEnd(buf, b1, name, at, 5);
    var b2 := Narrowed(b1, at + 5, Wide(e, 5, 6));
    GroupLaid(b1, name, i, e, sum, 5, 6);
    LaidEnd(b1, b2, name, at + 5, 6);
    var b3 := Narrowed(b2, at + 11, Wide(e, 11, 2));
    GroupLaid(b2, name, i, e, sum, 11, 2);
    LaidTrans(buf, b1, b2, name, at, 5, 6);
    LaidTrans(buf, b2, b3, name, at, 11, 2);
    LaidDown(buf, b3, name, i);
  }

  lemma OrderPart(name: seq<Byte>, i: nat, order: Byte)
    requires 0 < i <= Parts(name) <= 19 && order == if i == Parts(name) then i + LAST else i
    ensures Part(order) == i && (order / LAST % 2 == 1 <==> i == Parts(name)) && order != 0 && order != EMPTY
  {
  }

  /** One long entry of the file. */
  lemma ScanPart(d: seq<Byte>, off: nat, name: seq<Byte>, short: seq<Byte>, i: nat, buf: seq<Byte>)
    requires LongAt(d, off, name, short, i) && 0 < i <= Parts(name) <= 19 && |buf| == MAX_NAME + 1
    ensures var at := off + ENTRY * (Parts(name) - i);
            Scan(d, at, 0, buf, if i == Parts(name) then -1 else Parts(name) + 1)
            == Scan(d, at + ENTRY, 0, LongInto(buf, (i - 1) * LONG, d[at..at + ENTRY]), Parts(name) + 1)
  {
    var at := off + ENTRY * (Parts(name) - i);
    OrderPart(name, i, d[at..at + ENTRY][0]);
  }

  lemma HoldsPart(d: seq<Byte>, off: nat, name: seq<Byte>, short: seq<Byte>, info: Info, i: nat)
    requires Holds(d, off, name, short, info) && 0 < i <= Parts(name)
    ensures var at := off + ENTRY * (Parts(name) - i);
            (LongAt(d, off, name, short, i) && at + ENTRY <= |d| && IsLong(d[at..at + ENTRY], name, i, Sum(short)))
  {
    assert LongAt(d, off, name, short, i);
  }

  /** Reading the entry of part i takes the scan to the next one. */
  lemma OnePart(d: seq<Byte>, off: nat, name: seq<Byte>, short: seq<Byte>, info: Info, i: nat, buf: seq<Byte>) returns (b: seq<Byte>)
    requires Holds(d, off, name, short, info) && 0 < i <= Parts(name) && 1 <= |name| <= 247
    requires ReadDown(buf, name, i) && forall p :: 0 <= p < |name| ==> name[p] != 0
    ensures ReadDown(b, name, i - 1)
    ensures Scan(d, off + ENTRY * (Parts(name) - i), 0, buf, if i == Parts(name) then -1 else Parts(name) + 1)
            == Scan(d, off + ENTRY * (Parts(name) - (i - 1)), 0, b, Parts(name) + 1)
  {
    assert |buf| == MAX_NAME + 1 && 1 <= Parts(name) <= 19;
    hide IsLong, LongAt, Holds, LongInto, Scan, ReadDown, Sum, Parts;
    HoldsPart(d, off, name, short, info, i);
    var at := off + ENTRY * (Parts(name) - i);
    ScanPart(d, off, name, short, i, buf);
    PartRead(buf, name, i, d[at..at + ENTRY], Sum(short));
    b := LongInto(buf, (i - 1) * LONG, d[at..at + ENTRY]);
  }

  /** The long entries from part i down leave the name in the buffer. */
  lemma {:induction false} ScanParts(d: seq<Byte>, off: nat, name: seq<Byte>, short: seq<Byte>, info: Info, i: nat, buf: seq<Byte>)
    returns (b: seq<Byte>)
    requires Holds(d, off, name, short, info) && i <= Parts(name) && 1 <= |name| <= 247
    requires ReadDown(buf, name, i) && forall p :: 0 <= p < |name| ==> name[p] != 0
    ensures ReadDown(b, name, 0)
    ensures Scan(d, off + ENTRY * (Parts(name) - i), 0, buf, if i == Parts(name) then -1 else Parts(name) + 1)
            == Scan(d, off + ENTRY * Parts(name), 0, b, Parts(name) + 1)
  {
    assert Parts(name) > 0;
    hide Holds, Scan, ReadDown, Parts;
    if i == 0 {
      b := buf;
    } else {
      var c := OnePart(d, off, name, short, info, i, buf);
      b := ScanParts(d, off, name, short, info, i - 1, c);
    }
  }

  /** A scan past free entries finds no file; a file it finds has an ordinary attribute. */
  lemma {:induction false} ScanFile(d: seq<Byte>, off: nat, cnt: nat, buf: seq<Byte>, seen: int)
    requires |buf| == MAX_NAME + 1 && seen >= -1
    ensures cnt > 0 ==> !Scan(d, off, cnt, buf, seen).File?
    ensures Scan(d, off, cnt, buf, seen).File? ==> Scan(d, off, cnt, buf, seen).info.attr != ATTR_LONG_NAME
    decreases |d| - off
  {
    if off + ENTRY <= |d| {
      var e := d[off..off + ENTRY];
      if e[0] == EMPTY {
        ScanFile(d, off + ENTRY, cnt + 1, buf, seen);
      } else if cnt == 0 && e[11] == ATTR_LONG_NAME && LongFits(e[0], seen) {
        ScanFile(d, off + ENTRY, cnt, LongInto(buf, (Part(e[0]) - 1) * LONG, e), Seen(e[0], seen));
      }
    }
  }

  ghost predicate ReadsBack(d: seq<Byte>, off: nat, name: seq<Byte>, info: Info) {
    var r := Scan(d, off, 0, ZeroName(), -1);
    r.File? && Spells(r.buf, name) && r.info == info && r.count == Parts(name) + 1
  }

  /**
   The name, attribute, first cluster, size and entry count come back exactly when the name has at
   most 247 characters, the short name does not begin like a free entry and the attribute is not the
   one that marks long entries.
   */
  lemma RoundTripIff(d: seq<Byte>, off: nat, name: seq<Byte>, short: seq<Byte>, info: Info)
    requires Holds(d, off, name, short, info) && 1 <= |name| <= 255 && forall p :: 0 <= p < |name| ==> name[p] != 0
    requires info.clus < 0x1_0000_0000 && info.size < 0x1_0000_0000 && short[0] != 0
    ensures ReadsBack(d, off, name, info) <==> |name| <= 247 && short[0] != EMPTY && info.attr != ATTR_LONG_NAME
  {
    if |name| > 247 {
      TooLong(d, off, name, short, info);
    } else {
      var b := ScanParts(d, off, name, short, info, Parts(name), ZeroName());
      LastEntry(d, off, name, short, info, b);
    }
  }

  lemma LastEntry(d: seq<Byte>, off: nat, name: seq<Byte>, short: seq<Byte>, info: Info, b: seq<Byte>)
    requires Holds(d, off, name, short, info) && 1 <= |name| <= 247 && ReadDown(b, name, 0)
    requires info.clus < 0x1_0000_0000 && info.size < 0x1_0000_0000 && short[0] != 0
    ensures var r := Scan(d, off + ENTRY * Parts(name), 0, b, Parts(name) + 1);
            (r.File? && Spells(r.buf, name) && r.info == info && r.count == Parts(name) + 1
            <==> short[0] != EMPTY && info.attr != ATTR_LONG_NAME)
  {
    InfoRoundTrip(short, info);
    var at := off + ENTRY * Parts(name);
    assert d[at..at + ENTRY] == ShortEntry(short, info);
    assert b[..|name|] == name;
    ScanFile(d, at, 0, b, Parts(name) + 1);
    if short[0] == EMPTY {
      ScanFile(d, at + ENTRY, 1, b, Parts(name) + 1);
    }
  }

  lemma TooLong(d: seq<Byte>, off: nat, name: seq<Byte>, short: seq<Byte>, info: Info)
    requires Holds(d, off, name, short, info) && 247 < |name| <= MAX_NAME
    ensures Scan(d, off, 0, ZeroName(), -1) == Fault
  {
    assert LongAt(d, off, name, short, Parts(name));
    var e := d[off..off + ENTRY];
    assert e[0] == 20 + LAST;
  }

  /** Every ASCII name of 1 to 247 characters comes back. */
  lemma RoundTrip(d: seq<Byte>, off: nat, name: seq<Byte>, short: seq<Byte>, info: Info)
    requires Holds(d, off, name, short, info) && 1 <= |name| <= 247 && forall p :: 0 <= p < |name| ==> 0 < name[p] < 128
    requires info.clus < 0x1_0000_0000 && info.size < 0x1_0000_0000 && info.attr != ATTR_LONG_NAME
    requires ShortByte(name, short[0])
    ensures ReadsBack(d, off, name, info)
  {
    AsciiShort(name, short[0]);
    RoundTripIff(d, off, name, short, info);
  }
}
