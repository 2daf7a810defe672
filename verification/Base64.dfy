/** The codec of the web protocol: base 64 of RFC 4648, section 4, where decoding also strips trailing
    NUL bytes, because padding decodes to them. */
module Base64 {
  import opened Wrappers

  type Byte = b: int | 0 <= b < 256
  type Sextet = v: int | 0 <= v < 64

  datatype Failure = NotInAlphabet | CutShort

  // ----- The regrouping of three bytes into four sextets, and back -----

  function First(a: Byte): Sextet {
    a / 4
  }

  function Second(a: Byte, b: Byte): Sextet {
    16 * (a % 4) + b / 16
  }

  function Third(b: Byte, c: Byte): Sextet {
    4 * (b % 16) + c / 64
  }

  function Fourth(c: Byte): Sextet {
    c % 64
  }

  function HighByte(v: Sextet, w: Sextet): Byte {
    var high: int, low: int := v, w;
    4 * high + low / 16
  }

  function MiddleByte(v: Sextet, w: Sextet): Byte {
    var high: int, low: int := v, w;
    16 * (high % 16) + low / 4
  }

  function LowByte(v: Sextet, w: Sextet): Byte {
    var high: int, low: int := v, w;
    64 * (high % 4) + low
  }

  /** The byte sequence regrouped into six-bit values, the last one filled up with zero bits. */
  function Sextets(s: seq<Byte>): (v: seq<Sextet>)
    ensures 8 * |s| <= 6 * |v| < 8 * |s| + 6
  {
    if |s| == 0 then []
    else if |s| == 1 then [First(s[0]), Second(s[0], 0)]
    else if |s| == 2 then [First(s[0]), Second(s[0], s[1]), Third(s[1], 0)]
    else [First(s[0]), Second(s[0], s[1]), Third(s[1], s[2]), Fourth(s[2])] + Sextets(s[3..])
  }

  /** The reverse regrouping; bits that do not fill a byte are dropped. */
  function Octets(v: seq<Sextet>): (s: seq<Byte>)
    ensures 8 * |s| <= 6 * |v| < 8 * |s| + 8
  {
    if |v| <= 1 then []
    else if |v| == 2 then [HighByte(v[0], v[1])]
    else if |v| == 3 then [HighByte(v[0], v[1]), MiddleByte(v[1], v[2])]
    else [HighByte(v[0], v[1]), MiddleByte(v[1], v[2]), LowByte(v[2], v[3])] + Octets(v[4..])
  }

  // ----- Text -----

  function Letter(v: Sextet): char {
    if v < 26 then 'A' + v as char
    else if v < 52 then 'a' + (v - 26) as char
    else if v < 62 then '0' + (v - 52) as char
    else if v == 62 then '+'
    else '/'
  }

  /** The value of a letter; the padding character counts as 0. */
  function Value(c: char): Option<Sextet> {
    if 'A' <= c <= 'Z' then Some((c - 'A') as int)
    else if 'a' <= c <= 'z' then Some((c - 'a') as int + 26)
    else if '0' <= c <= '9' then Some((c - '0') as int + 52)
    else if c == '+' then Some(62)
    else if c == '/' then Some(63)
    else if c == '=' then Some(0)
    else None
  }

  function Letters(v: seq<Sextet>): (t: string)
    ensures |t| == |v| && forall i :: 0 <= i < |t| ==> t[i] == Letter(v[i])
  {
    seq(|v|, i requires 0 <= i < |v| => Letter(v[i]))
  }

  /** How many bytes are missing from a multiple of three. */
  function Padding(n: nat): (k: nat)
    ensures k < 3
  {
    if n == 0 then 0 else if n == 1 then 2 else if n == 2 then 1 else Padding(n - 3)
  }

  predicate Whole(n: nat) {
    n == 0 || (n >= 3 && Whole(n - 3))
  }

  function Pad(k: nat): (p: string)
    ensures |p| == k && forall i :: 0 <= i < k ==> p[i] == '='
  {
    seq(k, _ => '=')
  }

  function Zeros(k: nat): (z: seq<Byte>)
    ensures |z| == k && forall i :: 0 <= i < k ==> z[i] == 0
  {
    seq(k, _ => 0)
  }

  function Encode(s: seq<Byte>): string {
    Letters(Sextets(s)) + Pad(Padding(|s|))
  }

  function Values(t: string): (r: Result<seq<Sextet>, Failure>)
    ensures r.Ok? <==> forall i :: 0 <= i < |t| ==> Value(t[i]).Some?
    ensures r.Ok? ==> |r.value| == |t| && forall i :: 0 <= i < |t| ==> Value(t[i]) == Some(r.value[i])
  {
    if t == [] then Ok([])
    else
      var rest := Values(t[1..]);
      if Value(t[0]).None? then Err(NotInAlphabet)
      else if rest.Err? then rest
      else
        assert forall i :: 1 <= i < |t| ==> t[i] == t[1..][i - 1];
        Ok([Value(t[0]).value] + rest.value)
  }

  function TrimNuls(s: seq<Byte>): (r: seq<Byte>)
    ensures r <= s && (r == [] || r[|r| - 1] != 0)
    ensures forall i :: |r| <= i < |s| ==> s[i] == 0
  {
    if s == [] || s[|s| - 1] != 0 then s else TrimNuls(s[..|s| - 1])
  }

  /** A single letter left over makes the decoder read past the end of its input. */
  function Decode(t: string): Result<seq<Byte>, Failure> {
    var values := Values(t);
    if values.Err? then Err(values.error)
    else if |t| % 4 == 1 then Err(CutShort)
    else Ok(TrimNuls(Octets(values.value)))
  }

  // ----- The alphabet -----

  lemma LetterValue(v: Sextet)
    ensures Value(Letter(v)) == Some(v) && Letter(v) != '='
  {
  }

  // ----- The round trip -----

  function ZeroSextets(k: nat): (z: seq<Sextet>)
    ensures |z| == k && forall i :: 0 <= i < k ==> z[i] == 0
  {
    seq(k, _ => 0)
  }

  lemma BytesBack(a: Byte, b: Byte, c: Byte)
    ensures HighByte(First(a), Second(a, b)) == a
    ensures MiddleByte(Second(a, b), Third(b, c)) == b
    ensures LowByte(Third(b, c), Fourth(c)) == c
  {
  }

  lemma ZeroPadding(a: Byte, b: Byte)
    ensures MiddleByte(Second(a, 0), 0) == LowByte(Third(b, 0), 0) == LowByte(0, 0) == 0
  {
  }

  lemma OctetsOfGroup(v0: Sextet, v1: Sextet, v2: Sextet, v3: Sextet, rest: seq<Sextet>)
    ensures Octets([v0, v1, v2, v3] + rest) == [HighByte(v0, v1), MiddleByte(v1, v2), LowByte(v2, v3)] + Octets(rest)
  {
    assert ([v0, v1, v2, v3] + rest)[4..] == rest;
  }

  lemma RegroupOne(a: Byte)
    ensures Octets(Sextets([a]) + ZeroSextets(2)) == [a] + Zeros(2)
  {
    hide HighByte, MiddleByte, LowByte, First, Second, Third, Fourth;
    BytesBack(a, 0, 0);
    ZeroPadding(a, 0);
    assert Sextets([a]) + ZeroSextets(2) == [First(a), Second(a, 0), 0, 0] + [];
    OctetsOfGroup(First(a), Second(a, 0), 0, 0, []);
  }

  lemma RegroupTwo(a: Byte, b: Byte)
    ensures Octets(Sextets([a, b]) + ZeroSextets(1)) == [a, b] + Zeros(1)
  {
    hide HighByte, MiddleByte, LowByte, First, Second, Third, Fourth;
    BytesBack(a, b, 0);
    ZeroPadding(a, b);
    assert Sextets([a, b]) + ZeroSextets(1) == [First(a), Second(a, b), Third(b, 0), 0] + [];
    OctetsOfGroup(First(a), Second(a, b), Third(b, 0), 0, []);
  }

  lemma {:induction false} Regroup(s: seq<Byte>)
    ensures Octets(Sextets(s) + ZeroSextets(Padding(|s|))) == s + Zeros(Padding(|s|))
  {
    hide HighByte, MiddleByte, LowByte, First, Second, Third, Fourth;
    if |s| == 1 {
      assert s == [s[0]];
      RegroupOne(s[0]);
    } else if |s| == 2 {
      assert s == [s[0], s[1]];
      RegroupTwo(s[0], s[1]);
    } else if |s| >= 3 {
      var k := Padding(|s|);
      assert Padding(|s[3..]|) == k;
      hide Padding, Sextets, Octets, Zeros, ZeroSextets;
      Regroup(s[3..]);
      BytesBack(s[0], s[1], s[2]);
      RegroupStep(s, ZeroSextets(k), Zeros(k));
    }
  }

  lemma RegroupStep(s: seq<Byte>, z: seq<Sextet>, zeros: seq<Byte>)
    requires |s| >= 3 && Octets(Sextets(s[3..]) + z) == s[3..] + zeros
    requires HighByte(First(s[0]), Second(s[0], s[1])) == s[0]
    requires MiddleByte(Second(s[0], s[1]), Third(s[1], s[2])) == s[1]
    requires LowByte(Third(s[1], s[2]), Fourth(s[2])) == s[2]
    ensures Octets(Sextets(s) + z) == s + zeros
  {
    hide HighByte, MiddleByte, LowByte, First, Second, Third, Fourth;
    var head := [First(s[0]), Second(s[0], s[1]), Third(s[1], s[2]), Fourth(s[2])];
    assert Sextets(s) == head + Sextets(s[3..]);
    hide Sextets, Octets;
    JoinRight(head, Sextets(s[3..]), z);
    OctetsOfGroup(head[0], head[1], head[2], head[3], Sextets(s[3..]) + z);
    assert s == [s[0], s[1], s[2]] + s[3..];
    JoinRight([s[0], s[1], s[2]], s[3..], zeros);
  }

  lemma JoinRight<T>(a: seq<T>, b: seq<T>, c: seq<T>)
    ensures (a + b) + c == a + (b + c)
  {
  }

  lemma {:induction false} ValuesOfEncoding(s: seq<Byte>)
    ensures Values(Encode(s)) == Ok(Sextets(s) + ZeroSextets(Padding(|s|)))
  {
    hide Sextets, Letter, Value;
    var t, v := Encode(s), Sextets(s) + ZeroSextets(Padding(|s|));
    assert |t| == |v|;
    assert Value('=') == Some(0) by {
      PaddingValue();
    }
    forall i | 0 <= i < |t| ensures Value(t[i]) == Some(v[i]) {
      if i < |Sextets(s)| {
        LetterValue(v[i]);
      }
    }
    ValuesAre(t, v);
  }

  lemma PaddingValue()
    ensures Value('=') == Some(0)
  {
  }

  lemma ValuesAre(t: string, v: seq<Sextet>)
    requires |t| == |v| && forall i :: 0 <= i < |t| ==> Value(t[i]) == Some(v[i])
    ensures Values(t) == Ok(v)
  {
    hide Value;
    var r := Values(t);
    assert r.Ok?;
    assert forall i :: 0 <= i < |t| ==> Some(r.value[i]) == Value(t[i]);
    assert r.value == v;
  }

  lemma {:induction false} TrimIgnoresZeros(s: seq<Byte>, k: nat)
    ensures TrimNuls(s + Zeros(k)) == TrimNuls(s)
  {
    var z := s + Zeros(k);
    if k == 0 {
      assert z == s;
    } else {
      assert z[..|z| - 1] == s + Zeros(k - 1);
      TrimIgnoresZeros(s, k - 1);
    }
  }

  lemma FourfoldLeavesNone(n: nat)
    ensures 4 * n % 4 == 0
  {
  }

  /** Decoding an encoding gives the bytes back without their trailing NULs. */
  lemma {:induction false} DecodeEncode(s: seq<Byte>)
    ensures Decode(Encode(s)) == Ok(TrimNuls(s))
  {
    hide Encode, Sextets, Octets, Values, TrimNuls, Padding, Zeros, ZeroSextets;
    ValuesOfEncoding(s);
    EncodedLength(s);
    FourfoldLeavesNone((|s| + 2) / 3);
    Regroup(s);
    TrimIgnoresZeros(s, Padding(|s|));
  }

  /** The round trip is exact for exactly the byte sequences that do not end in NUL. */
  lemma RoundTripExactly(s: seq<Byte>)
    ensures Decode(Encode(s)) == Ok(s) <==> s == [] || s[|s| - 1] != 0
  {
    DecodeEncode(s);
  }

  /** The failing case: a single NUL does not come back. */
  lemma TrailingNulIsLost()
    ensures Decode(Encode([0])) == Ok([])
  {
    DecodeEncode([0]);
    assert [0][..0] == [];
  }

  lemma {:induction false} PaddingFormula(n: nat)
    ensures Padding(n) == (3 - n % 3) % 3
  {
    if n >= 3 {
      PaddingFormula(n - 3);
      assert n % 3 == (n - 3) % 3;
    }
  }

  lemma {:induction false} SextetCount(s: seq<Byte>)
    ensures 3 * (|Sextets(s)| + Padding(|s|)) == 4 * (|s| + Padding(|s|))
  {
    if |s| >= 3 {
      SextetCount(s[3..]);
    }
  }

  /** Every started group of three bytes takes four characters. */
  lemma EncodedLength(s: seq<Byte>)
    ensures |Encode(s)| == 4 * ((|s| + 2) / 3)
  {
    hide Sextets, Padding;
    var n, k, t := |s|, Padding(|s|), |Encode(s)|;
    SextetCount(s);
    PaddingFormula(n);
    assert 3 * t == 4 * (n + k);
    CeilingOfThirds(n, k);
  }

  lemma CeilingOfThirds(n: nat, k: nat)
    requires k == (3 - n % 3) % 3
    ensures n + k == 3 * ((n + 2) / 3)
  {
  }

  lemma LettersThenPadding(s: seq<Byte>)
    ensures var t := Encode(s);
            forall i :: 0 <= i < |t| ==>
              if i < |t| - Padding(|s|) then t[i] != '=' && Value(t[i]).Some? else t[i] == '='
  {
    var t := Encode(s);
    forall i | 0 <= i < |t|
      ensures if i < |t| - Padding(|s|) then t[i] != '=' && Value(t[i]).Some? else t[i] == '='
    {
      if i < |Sextets(s)| {
        LetterValue(Sextets(s)[i]);
      }
    }
  }

  /** Different byte sequences have different encodings, trailing NULs included. */
  lemma EncodeInjective(s: seq<Byte>, r: seq<Byte>)
    requires Encode(s) == Encode(r)
    ensures s == r
  {
    var t := Encode(s);
    LettersThenPadding(s);
    LettersThenPadding(r);
    assert Padding(|s|) > 0 ==> t[|t| - Padding(|s|)] == '=';
    assert Padding(|r|) > 0 ==> t[|t| - Padding(|r|)] == '=';
    assert Padding(|s|) == Padding(|r|);
    ValuesOfEncoding(s);
    ValuesOfEncoding(r);
    Regroup(s);
    Regroup(r);
    assert (s + Zeros(Padding(|s|)))[..|s|] == s && (r + Zeros(Padding(|r|)))[..|r|] == r;
  }

  // ----- Bits -----

  function Bit(v: int, weight: int): int
    requires weight > 0
  {
    v / weight % 2
  }

  function ByteBits(b: Byte): (r: seq<int>)
    ensures |r| == 8
  {
    [Bit(b, 128), Bit(b, 64), Bit(b, 32), Bit(b, 16), Bit(b, 8), Bit(b, 4), Bit(b, 2), Bit(b, 1)]
  }

  function SextetBits(v: Sextet): (r: seq<int>)
    ensures |r| == 6
  {
    [Bit(v, 32), Bit(v, 16), Bit(v, 8), Bit(v, 4), Bit(v, 2), Bit(v, 1)]
  }

  function MessageBits(s: seq<Byte>): (r: seq<int>)
    ensures |r| == 8 * |s|
  {
    if s == [] then [] else ByteBits(s[0]) + MessageBits(s[1..])
  }

  function CodeBits(v: seq<Sextet>): (r: seq<int>)
    ensures |r| == 6 * |v|
  {
    if v == [] then [] else SextetBits(v[0]) + CodeBits(v[1..])
  }

  // A number below 4, 16, 64 or 256 has 2, 4, 6 or 8 bits, which are those of its parts.

  function PairBits(h: int): seq<int> {
    [Bit(h, 2), Bit(h, 1)]
  }

  function NibbleBits(l: int): seq<int> {
    [Bit(l, 8), Bit(l, 4), Bit(l, 2), Bit(l, 1)]
  }

  lemma BitsAbovePair(h: int, l: int)
    requires 0 <= l < 4
    ensures Bit(4 * h + l, 128) == Bit(h, 32) && Bit(4 * h + l, 64) == Bit(h, 16) && Bit(4 * h + l, 32) == Bit(h, 8)
    ensures Bit(4 * h + l, 16) == Bit(h, 4) && Bit(4 * h + l, 8) == Bit(h, 2) && Bit(4 * h + l, 4) == Bit(h, 1)
    ensures Bit(4 * h + l, 2) == Bit(l, 2) && Bit(4 * h + l, 1) == Bit(l, 1)
  {
  }

  lemma Halved(x: int, y: int)
    ensures (2 * x + y) % 2 == y % 2
  {
  }

  lemma BitsAboveNibble(h: int, l: int)
    requires 0 <= h < 16 && 0 <= l < 16
    ensures Bit(16 * h + l, 128) == Bit(h, 8) && Bit(16 * h + l, 64) == Bit(h, 4)
    ensures Bit(16 * h + l, 32) == Bit(h, 2) && Bit(16 * h + l, 16) == Bit(h, 1)
  {
    var v := 16 * h + l;
    assert v / 128 == h / 8 && v / 64 == h / 4;
    assert v / 32 == h / 2 && v / 16 == h;
  }

  lemma BitsOfNibble(h: int, l: int)
    requires 0 <= h < 16 && 0 <= l < 16
    ensures Bit(16 * h + l, 8) == Bit(l, 8) && Bit(16 * h + l, 4) == Bit(l, 4)
    ensures Bit(16 * h + l, 2) == Bit(l, 2) && Bit(16 * h + l, 1) == Bit(l, 1)
  {
    var v := 16 * h + l;
    assert v / 8 == 2 * h + l / 8 && v / 4 == 2 * (2 * h) + l / 4 && v / 2 == 2 * (4 * h) + l / 2;
    Halved(h, l / 8);
    Halved(2 * h, l / 4);
    Halved(4 * h, l / 2);
    Halved(8 * h, l);
  }

  lemma BitsAboveSextet(h: int, l: Sextet)
    requires 0 <= h < 4
    ensures Bit(64 * h + l, 128) == Bit(h, 2) && Bit(64 * h + l, 64) == Bit(h, 1)
    ensures Bit(64 * h + l, 32) == Bit(l, 32) && Bit(64 * h + l, 16) == Bit(l, 16)
  {
    var v := 64 * h + l;
    assert v / 128 == h / 2 && v / 64 == h;
    assert v / 32 == 2 * h + l / 32 && v / 16 == 2 * (2 * h) + l / 16;
    Halved(h, l / 32);
    Halved(2 * h, l / 16);
  }

  lemma BitsOfSextet(h: int, l: Sextet)
    requires 0 <= h < 4
    ensures Bit(64 * h + l, 8) == Bit(l, 8) && Bit(64 * h + l, 4) == Bit(l, 4)
    ensures Bit(64 * h + l, 2) == Bit(l, 2) && Bit(64 * h + l, 1) == Bit(l, 1)
  {
    var v := 64 * h + l;
    assert v / 8 == 2 * (4 * h) + l / 8 && v / 4 == 2 * (8 * h) + l / 4 && v / 2 == 2 * (16 * h) + l / 2;
    Halved(4 * h, l / 8);
    Halved(8 * h, l / 4);
    Halved(16 * h, l / 2);
    Halved(32 * h, l);
  }

  lemma PairThenNibble(h: int, l: int)
    requires 0 <= h < 4 && 0 <= l < 16
    ensures SextetBits(16 * h + l) == PairBits(h) + NibbleBits(l)
  {
    hide Bit;
    BitsAboveNibble(h, l);
    BitsOfNibble(h, l);
  }

  lemma NibbleThenPair(h: int, l: int)
    requires 0 <= h < 16 && 0 <= l < 4
    ensures SextetBits(4 * h + l) == NibbleBits(h) + PairBits(l)
  {
    hide Bit;
    BitsAbovePair(h, l);
  }

  lemma SextetThenPair(h: Sextet, l: int)
    requires 0 <= l < 4
    ensures ByteBits(4 * h as int + l) == SextetBits(h) + PairBits(l)
  {
    hide Bit;
    BitsAbovePair(h, l);
  }

  lemma NibbleThenNibble(h: int, l: int)
    requires 0 <= h < 16 && 0 <= l < 16
    ensures ByteBits(16 * h + l) == NibbleBits(h) + NibbleBits(l)
  {
    hide Bit;
    BitsAboveNibble(h, l);
    BitsOfNibble(h, l);
  }

  lemma PairThenSextet(h: int, l: Sextet)
    requires 0 <= h < 4
    ensures ByteBits(64 * h + l) == PairBits(h) + SextetBits(l)
  {
    hide Bit;
    BitsAboveSextet(h, l);
    BitsOfSextet(h, l);
  }

  /** The parts that a byte gives to the sextets around it. */
  lemma ByteParts(b: Byte)
    ensures ByteBits(b) == SextetBits(First(b)) + PairBits(b % 4)
    ensures ByteBits(b) == NibbleBits(b / 16) + NibbleBits(b % 16)
    ensures ByteBits(b) == PairBits(b / 64) + SextetBits(Fourth(b))
  {
    SextetThenPair(First(b), b % 4);
    NibbleThenNibble(b / 16, b % 16);
    PairThenSextet(b / 64, Fourth(b));
  }

  lemma {:induction false} GroupBits(a: Byte, b: Byte, c: Byte)
    ensures SextetBits(First(a)) + SextetBits(Second(a, b)) + SextetBits(Third(b, c)) + SextetBits(Fourth(c))
         == ByteBits(a) + ByteBits(b) + ByteBits(c)
  {
    hide SextetBits, ByteBits, PairBits, NibbleBits;
    ByteParts(a);
    ByteParts(b);
    ByteParts(c);
    PairThenNibble(a % 4, b / 16);
    NibbleThenPair(b % 16, c / 64);
  }

  lemma {:induction false} CodeBitsConcat(v: seq<Sextet>, w: seq<Sextet>)
    ensures CodeBits(v + w) == CodeBits(v) + CodeBits(w)
  {
    if v == [] {
      assert v + w == w;
    } else {
      assert (v + w)[1..] == v[1..] + w;
      CodeBitsConcat(v[1..], w);
    }
  }

  lemma {:induction false} WholeGroups(m: seq<Byte>)
    requires Whole(|m|)
    ensures CodeBits(Sextets(m)) == MessageBits(m)
  {
    hide SextetBits, ByteBits, First, Second, Third, Fourth;
    if m != [] {
      var head := [First(m[0]), Second(m[0], m[1]), Third(m[1], m[2]), Fourth(m[2])];
      var rest := m[3..];
      WholeGroups(rest);
      GroupBits(m[0], m[1], m[2]);
      assert Sextets(m) == head + Sextets(rest);
      CodeBitsConcat(head, Sextets(rest));
      CodeBitsOfFour(head);
      MessageBitsOfThree(m);
    }
  }

  lemma JoinedTwice(a: seq<int>, b: seq<int>, c: seq<int>, d: seq<int>)
    ensures a + (b + (c + d)) == a + b + c + d
  {
  }

  lemma {:induction false} MessageBitsOfThree(m: seq<Byte>)
    requires |m| >= 3
    ensures MessageBits(m) == ByteBits(m[0]) + ByteBits(m[1]) + ByteBits(m[2]) + MessageBits(m[3..])
  {
    hide ByteBits;
    assert m[1..][1..] == m[2..] && m[2..][1..] == m[3..];
    assert MessageBits(m) == ByteBits(m[0]) + MessageBits(m[1..]);
    assert MessageBits(m[1..]) == ByteBits(m[1]) + MessageBits(m[2..]);
    assert MessageBits(m[2..]) == ByteBits(m[2]) + MessageBits(m[3..]);
    hide MessageBits;
    JoinedTwice(ByteBits(m[0]), ByteBits(m[1]), ByteBits(m[2]), MessageBits(m[3..]));
  }

  lemma {:induction false} CodeBitsOfFour(v: seq<Sextet>)
    requires |v| == 4
    ensures CodeBits(v) == SextetBits(v[0]) + SextetBits(v[1]) + SextetBits(v[2]) + SextetBits(v[3])
  {
    hide SextetBits;
    assert v[1..][1..] == v[2..] && v[2..][1..] == v[3..] && v[3..][1..] == [];
    assert CodeBits(v) == SextetBits(v[0]) + CodeBits(v[1..]);
    assert CodeBits(v[1..]) == SextetBits(v[1]) + CodeBits(v[2..]);
    assert CodeBits(v[2..]) == SextetBits(v[2]) + CodeBits(v[3..]);
    assert CodeBits(v[3..]) == SextetBits(v[3]) + CodeBits([]);
  }

  lemma {:induction false} PaddedSextets(s: seq<Byte>)
    ensures Sextets(s) + ZeroSextets(Padding(|s|)) == Sextets(s + Zeros(Padding(|s|)))
  {
    hide First, Second, Third, Fourth;
    var k := Padding(|s|);
    var m := s + Zeros(k);
    ThirdOfZeros();
    FourthOfZero();
    if |s| == 1 {
      assert m == [s[0], 0, 0] && m[3..] == [];
    } else if |s| == 2 {
      assert m == [s[0], s[1], 0] && m[3..] == [];
    } else if |s| >= 3 {
      PaddedSextets(s[3..]);
      assert m[3..] == s[3..] + Zeros(k);
    }
  }

  lemma ThirdOfZeros()
    ensures Third(0, 0) == 0
  {
  }

  lemma FourthOfZero()
    ensures Fourth(0) == 0
  {
  }

  /** The encoder against the words of the standard: fill the message up with zero bytes to a multiple
      of three; then the letters (and the padding) stand for its bits, six at a time. */
  lemma {:induction false} SextetsAreTheBits(s: seq<Byte>)
    ensures var k := Padding(|s|);
            CodeBits(Sextets(s) + ZeroSextets(k)) == MessageBits(s + Zeros(k))
  {
    hide *;
    PaddedIsWhole(|s|);
    PaddedSextets(s);
    WholeGroups(s + Zeros(Padding(|s|)));
  }

  lemma {:induction false} PaddedIsWhole(n: nat)
    ensures Whole(n + Padding(n))
  {
    if n >= 3 {
      PaddedIsWhole(n - 3);
    }
  }
}
