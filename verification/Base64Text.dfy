/** The codec against the tables of RFC 4648, section 4: the alphabet, and text and bytes as strings of
    bits. */
module Base64Text {
  import opened Wrappers
  import opened Base64

  const ALPHABET := ("ABCDEFGHIJKLM" + "NOPQRSTUVWXYZ") + ("abcdefghijklm" + "nopqrstuvwxyz") + "0123456789" + "+/"

  /** `n` characters upwards from `c`. */
  function Upward(c: int, n: nat): (t: string)
    requires 0 <= c && c + n <= 128
    ensures |t| == n && forall i :: 0 <= i < n ==> t[i] as int == c + i
    decreases n
  {
    if n == 0 then "" else [c as char] + Upward(c + 1, n - 1)
  }

  lemma UpwardJoined(c: int, n: nat, m: nat)
    requires 0 <= c && c + n + m <= 128
    ensures Upward(c, n + m) == Upward(c, n) + Upward(c + n, m)
  {
  }

  lemma UpperCase()
    ensures Upward(65, 26) == "ABCDEFGHIJKLM" + "NOPQRSTUVWXYZ"
  {
    FirstUpperCase();
    SecondUpperCase();
    UpwardJoined(65, 13, 13);
  }

  lemma FirstUpperCase()
    ensures Upward(65, 13) == "ABCDEFGHIJKLM"
  {
  }

  lemma SecondUpperCase()
    ensures Upward(78, 13) == "NOPQRSTUVWXYZ"
  {
  }

  lemma LowerCase()
    ensures Upward(97, 26) == "abcdefghijklm" + "nopqrstuvwxyz"
  {
    FirstLowerCase();
    SecondLowerCase();
    UpwardJoined(97, 13, 13);
  }

  lemma FirstLowerCase()
    ensures Upward(97, 13) == "abcdefghijklm"
  {
  }

  lemma SecondLowerCase()
    ensures Upward(110, 13) == "nopqrstuvwxyz"
  {
  }

  lemma Numerals()
    ensures Upward(48, 10) == "0123456789"
  {
  }

  lemma AlphabetRuns()
    ensures ALPHABET == Upward(65, 26) + Upward(97, 26) + Upward(48, 10) + "+/"
  {
    hide Upward;
    UpperCase();
    LowerCase();
    Numerals();
  }

  lemma LetterFromAlphabet(v: Sextet)
    ensures |ALPHABET| == 64 && Letter(v) == ALPHABET[v]
  {
    AlphabetRuns();
    var u, l, d := Upward(65, 26), Upward(97, 26), Upward(48, 10);
    assert ALPHABET == u + l + d + "+/";
    if v < 26 {
      assert ALPHABET[v] == u[v];
    } else if v < 52 {
      assert ALPHABET[v] == l[v - 26];
    } else if v < 62 {
      assert ALPHABET[v] == d[v - 52];
    }
  }

  /** Exactly the alphabet and the padding have values: the place in the alphabet, and 0. */
  lemma ValueExactly(c: char)
    ensures Value(c).Some? <==> c in ALPHABET || c == '='
    ensures Value(c).Some? ==>
              |ALPHABET| == 64 && if c == '=' then Value(c).value == 0 else ALPHABET[Value(c).value] == c
  {
    if c in ALPHABET {
      var i :| 0 <= i < |ALPHABET| && ALPHABET[i] == c;
      LetterFromAlphabet(i);
      LetterValue(i);
    }
    if Value(c).Some? && c != '=' {
      ValueIsLetter(c);
      LetterFromAlphabet(Value(c).value);
    }
  }

  lemma ValueIsLetter(c: char)
    requires Value(c).Some? && c != '='
    ensures Letter(Value(c).value) == c
  {
  }

  // ----- Encoding -----

  function Number(bits: seq<int>): int
    requires |bits| == 6
  {
    32 * bits[0] + 16 * bits[1] + 8 * bits[2] + 4 * bits[3] + 2 * bits[4] + bits[5]
  }

  lemma NumberOfSextet(v: Sextet)
    ensures Number(SextetBits(v)) == v
  {
    var half, quarter, eighth, sixteenth := v / 2, v / 4, v / 8, v / 16;
    assert v == 2 * half + Bit(v, 1) && half == 2 * quarter + Bit(v, 2);
    assert quarter == 2 * eighth + Bit(v, 4) && eighth == 2 * sixteenth + Bit(v, 8);
    assert sixteenth == 2 * Bit(v, 32) + Bit(v, 16);
    hide Bit;
  }

  lemma {:induction false} CodeBitsAt(v: seq<Sextet>, i: nat)
    requires i < |v|
    ensures 6 * i + 6 <= |CodeBits(v)| && CodeBits(v)[6 * i..6 * i + 6] == SextetBits(v[i])
    decreases i
  {
    hide SextetBits;
    var rest := CodeBits(v[1..]);
    assert CodeBits(v) == SextetBits(v[0]) + rest;
    if i > 0 {
      CodeBitsAt(v[1..], i - 1);
      hide CodeBits;
      assert (SextetBits(v[0]) + rest)[6 * i..6 * i + 6] == rest[6 * i - 6..6 * i];
    }
  }

  /** The i-th letter of an encoding stands in the alphabet at the place that the i-th six bits of the
      message spell, when the message is filled up with zero bytes to a multiple of three. */
  lemma {:induction false} EncodingSpelledOut(s: seq<Byte>, i: nat)
    requires i < |Encode(s)| - Padding(|s|)
    ensures var bits := MessageBits(s + Zeros(Padding(|s|)));
            && 6 * i + 6 <= |bits| && |ALPHABET| == 64
            && 0 <= Number(bits[6 * i..6 * i + 6]) < 64
            && Encode(s)[i] == ALPHABET[Number(bits[6 * i..6 * i + 6])]
  {
    var v := Sextets(s) + ZeroSextets(Padding(|s|));
    assert Encode(s)[i] == Letter(v[i]);
    hide Sextets, Encode, Padding, Zeros, ZeroSextets, MessageBits, SextetBits, Letter, Number;
    SextetsAreTheBits(s);
    CodeBitsAt(v, i);
    NumberOfSextet(v[i]);
    LetterFromAlphabet(v[i]);
  }

  // ----- Decoding -----

  /** A text is refused exactly for a foreign character or for a letter that is left over alone. */
  lemma DecodeFailsExactly(t: string)
    ensures Decode(t).Err? <==> |t| % 4 == 1 || exists i :: 0 <= i < |t| && t[i] !in ALPHABET && t[i] != '='
  {
    forall i | 0 <= i < |t| ensures Value(t[i]).Some? <==> t[i] in ALPHABET || t[i] == '=' {
      ValueExactly(t[i]);
    }
    hide Value, TrimNuls, Octets;
  }

  lemma Cuts(v: Sextet)
    ensures SextetBits(v) == PairBits(v / 16) + NibbleBits(v % 16) == NibbleBits(v / 4) + PairBits(v % 4)
    ensures |PairBits(v / 16)| == |PairBits(v % 4)| == 2 && |NibbleBits(v % 16)| == |NibbleBits(v / 4)| == 4
  {
    PairThenNibble(v / 16, v % 16);
    NibbleThenPair(v / 4, v % 4);
    hide SextetBits, Bit;
  }

  lemma CutsTaken(v: Sextet)
    ensures SextetBits(v)[..2] == PairBits(v / 16) && SextetBits(v)[2..] == NibbleBits(v % 16)
    ensures SextetBits(v)[..4] == NibbleBits(v / 4) && SextetBits(v)[4..] == PairBits(v % 4)
  {
    Cuts(v);
    hide SextetBits, PairBits, NibbleBits;
  }

  lemma BytesOfSextets(u: Sextet, v: Sextet)
    ensures ByteBits(HighByte(u, v)) == SextetBits(u) + SextetBits(v)[..2]
    ensures ByteBits(MiddleByte(u, v)) == SextetBits(u)[2..] + SextetBits(v)[..4]
    ensures ByteBits(LowByte(u, v)) == SextetBits(u)[4..] + SextetBits(v)
  {
    hide ByteBits, SextetBits, PairBits, NibbleBits;
    SextetThenPair(u, v / 16);
    NibbleThenNibble(u % 16, v / 4);
    PairThenSextet(u % 4, v);
    CutsTaken(u);
    CutsTaken(v);
  }

  lemma CodeBitsOfGroup(v: seq<Sextet>)
    requires |v| >= 4
    ensures CodeBits(v) == SextetBits(v[0]) + SextetBits(v[1]) + SextetBits(v[2]) + SextetBits(v[3]) + CodeBits(v[4..])
  {
    assert v == v[..4] + v[4..];
    CodeBitsConcat(v[..4], v[4..]);
    CodeBitsOfFour(v[..4]);
  }

  lemma GroupBack(a: seq<int>, b: seq<int>, c: seq<int>, d: seq<int>)
    requires |a| == |b| == |c| == |d| == 6
    ensures (a + b[..2]) + (b[2..] + c[..4]) + (c[4..] + d) == a + b + c + d
  {
  }

  lemma {:induction false} OctetsAreTheBits(v: seq<Sextet>)
    ensures MessageBits(Octets(v)) == CodeBits(v)[..8 * |Octets(v)|]
  {
    var s := Octets(v);
    if |v| == 2 {
      TwoSextets(v);
    } else if |v| == 3 {
      ThreeSextets(v);
    } else if |v| >= 4 {
      OctetsAreTheBits(v[4..]);
      assert s[3..] == Octets(v[4..]);
      CodeBitsOfGroup(v);
      MessageBitsOfThree(s);
      assert s[0] == HighByte(v[0], v[1]) && s[1] == MiddleByte(v[1], v[2]) && s[2] == LowByte(v[2], v[3]);
      BytesOfSextets(v[0], v[1]);
      BytesOfSextets(v[1], v[2]);
      BytesOfSextets(v[2], v[3]);
      hide ByteBits, SextetBits, CodeBits, MessageBits, Octets, HighByte, MiddleByte, LowByte;
      GroupBack(SextetBits(v[0]), SextetBits(v[1]), SextetBits(v[2]), SextetBits(v[3]));
      var head := SextetBits(v[0]) + SextetBits(v[1]) + SextetBits(v[2]) + SextetBits(v[3]);
      TakeBehind(head, CodeBits(v[4..]), 8 * |s[3..]|);
    }
  }

  lemma TakeBehind(a: seq<int>, b: seq<int>, n: nat)
    requires n <= |b|
    ensures (a + b)[..|a| + n] == a + b[..n]
  {
  }

  lemma CodeBitsUnfold(v: seq<Sextet>)
    requires v != []
    ensures CodeBits(v) == SextetBits(v[0]) + CodeBits(v[1..])
  {
  }

  lemma MessageBitsUnfold(s: seq<Byte>)
    requires s != []
    ensures MessageBits(s) == ByteBits(s[0]) + MessageBits(s[1..])
  {
  }

  lemma TwoSextets(v: seq<Sextet>)
    requires |v| == 2
    ensures MessageBits(Octets(v)) == CodeBits(v)[..8]
  {
    var s := Octets(v);
    assert s == [HighByte(v[0], v[1])] && MessageBits([]) == [] && CodeBits([]) == [];
    hide ByteBits, SextetBits, CodeBits, MessageBits, Octets, HighByte, MiddleByte, LowByte;
    BytesOfSextets(v[0], v[1]);
    MessageBitsUnfold(s);
    assert s[1..] == [] && v[1..][1..] == [];
    CodeBitsUnfold(v);
    CodeBitsUnfold(v[1..]);
  }

  lemma ThreeSextets(v: seq<Sextet>)
    requires |v| == 3
    ensures MessageBits(Octets(v)) == CodeBits(v)[..16]
  {
    var s := Octets(v);
    assert s == [HighByte(v[0], v[1]), MiddleByte(v[1], v[2])] && MessageBits([]) == [] && CodeBits([]) == [];
    hide ByteBits, SextetBits, CodeBits, MessageBits, Octets, HighByte, MiddleByte, LowByte;
    BytesOfSextets(v[0], v[1]);
    BytesOfSextets(v[1], v[2]);
    MessageBitsUnfold(s);
    MessageBitsUnfold(s[1..]);
    assert s[1..][1..] == [] && v[1..][1..] == v[2..] && v[2..][1..] == [];
    CodeBitsUnfold(v);
    CodeBitsUnfold(v[1..]);
    CodeBitsUnfold(v[2..]);
    var a, b, c := SextetBits(v[0]), SextetBits(v[1]), SextetBits(v[2]);
    assert MessageBits(s) == (a + b[..2]) + (b[2..] + c[..4] + []);
    assert CodeBits(v) == a + (b + (c + []));
    CutOfThree(a, b, c);
  }

  lemma CutOfThree(a: seq<int>, b: seq<int>, c: seq<int>)
    requires |a| == |b| == |c| == 6
    ensures (a + b[..2]) + (b[2..] + c[..4] + []) == (a + (b + (c + [])))[..16]
  {
  }

  /** What any accepted text decodes to: the bits of the letters' places in the alphabet, cut to whole
      bytes, without trailing NULs; padding counts as the first letter. */
  lemma DecodingSpelledOut(t: string) returns (v: seq<Sextet>, s: seq<Byte>)
    requires Decode(t).Ok?
    ensures Decode(t) == Ok(TrimNuls(s))
    ensures |v| == |t| && |ALPHABET| == 64 &&
            forall i :: 0 <= i < |t| ==> if t[i] == '=' then v[i] == 0 else t[i] == ALPHABET[v[i]]
    ensures 8 * |s| <= 6 * |v| < 8 * |s| + 8 && MessageBits(s) == CodeBits(v)[..8 * |s|]
  {
    v := Values(t).value;
    s := Octets(v);
    OctetsAreTheBits(v);
    forall i | 0 <= i < |t| ensures |ALPHABET| == 64 && if t[i] == '=' then v[i] == 0 else t[i] == ALPHABET[v[i]] {
      ValueExactly(t[i]);
    }
    LetterFromAlphabet(0);
    hide Value, TrimNuls, Octets, MessageBits, CodeBits;
  }
}
