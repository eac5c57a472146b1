/** Unpadded base64url (section 5 of RFC 4648), as Go's RawURLEncoding reads and writes it. */
module Base64Url {
  import opened Common

  type Byte = x: int | 0 <= x < 256
  type Sextet = x: int | 0 <= x < 64

  function Digit(v: Sextet): char {
    if v < 26 then (v + 'A' as int) as char
    else if v < 52 then (v - 26 + 'a' as int) as char
    else if v < 62 then (v - 52 + '0' as int) as char
    else if v == 62 then '-'
    else '_'
  }

  function Value(c: char): Option<Sextet> {
    if 'A' <= c <= 'Z' then Some(c as int - 'A' as int)
    else if 'a' <= c <= 'z' then Some(c as int - 'a' as int + 26)
    else if '0' <= c <= '9' then Some(c as int - '0' as int + 52)
    else if c == '-' then Some(62)
    else if c == '_' then Some(63)
    else None
  }

  predicate Alphabet(c: char) { Value(c).Some? }

  // Eight-bit and six-bit groups are both made of two-bit crumbs: four to a byte, three to a sextet.

  type Crumb = x: int | 0 <= x < 4

  /** The `n` lowest base-four digits of a number, highest first. */
  function Base4(v: nat, n: nat): (r: seq<Crumb>)
    ensures |r| == n
  {
    if n == 0 then [] else Base4(v / 4, n - 1) + [v % 4]
  }

  function Number(cs: seq<Crumb>): (r: nat)
    ensures |cs| == 0 ==> r == 0
    ensures |cs| == 1 ==> r < 4
    ensures |cs| == 2 ==> r < 16
    ensures |cs| == 3 ==> r < 64
    ensures |cs| == 4 ==> r < 256
  {
    if cs == [] then 0 else Number(cs[..|cs| - 1]) * 4 + cs[|cs| - 1]
  }

  function BytesToCrumbs(bs: seq<Byte>): seq<Crumb> {
    if bs == [] then [] else Base4(bs[0], 4) + BytesToCrumbs(bs[1..])
  }

  /** Whole bytes only: fewer than four crumbs at the end are dropped. */
  function CrumbsToBytes(cs: seq<Crumb>): seq<Byte> {
    if |cs| < 4 then [] else [Number(cs[..4])] + CrumbsToBytes(cs[4..])
  }

  function SextetsToCrumbs(vs: seq<Sextet>): (r: seq<Crumb>)
    ensures |r| == 3 * |vs|
  {
    if vs == [] then [] else Base4(vs[0], 3) + SextetsToCrumbs(vs[1..])
  }

  /** The last sextet is filled up with zero bits. */
  function CrumbsToSextets(cs: seq<Crumb>): seq<Sextet> {
    if |cs| == 0 then []
    else if |cs| < 3 then [Number(cs + Zeros(3 - |cs|))]
    else [Number(cs[..3])] + CrumbsToSextets(cs[3..])
  }

  function Zeros(n: nat): (r: seq<Crumb>)
    ensures |r| == n && forall i :: 0 <= i < n ==> r[i] == 0
  {
    if n == 0 then [] else [0] + Zeros(n - 1)
  }

  function Pack(bs: seq<Byte>): seq<Sextet> {
    CrumbsToSextets(BytesToCrumbs(bs))
  }

  /** One lone character in the last group of four is malformed. */
  function Unpack(vs: seq<Sextet>): Option<seq<Byte>> {
    if |vs| % 4 == 1 then None else Some(CrumbsToBytes(SextetsToCrumbs(vs)))
  }

  function Digits(vs: seq<Sextet>): (r: string)
    ensures |r| == |vs| && forall i :: 0 <= i < |vs| ==> r[i] == Digit(vs[i])
  {
    if vs == [] then [] else [Digit(vs[0])] + Digits(vs[1..])
  }

  function Values(s: string): (r: Option<seq<Sextet>>)
    ensures r.Some? <==> forall i :: 0 <= i < |s| ==> Alphabet(s[i])
    ensures r.Some? ==> |r.value| == |s| && forall i :: 0 <= i < |s| ==> Value(s[i]) == Some(r.value[i])
  {
    if s == [] then Some([])
    else
      match (Value(s[0]), Values(s[1..]))
      case (Some(v), Some(rest)) => Some([v] + rest)
      case _ => None
  }

  function Encode(bs: seq<Byte>): string {
    Digits(Pack(bs))
  }

  /** The decoder skips carriage returns and line feeds wherever they stand. */
  function Strip(s: string): string {
    if s == [] then []
    else if s[0] == '\r' || s[0] == '\n' then Strip(s[1..])
    else [s[0]] + Strip(s[1..])
  }

  function DecodeClean(s: string): Option<seq<Byte>> {
    match Values(s)
    case None => None
    case Some(vs) => Unpack(vs)
  }

  function Decode(s: string): Option<seq<Byte>> {
    DecodeClean(Strip(s))
  }

  lemma DigitValue(v: Sextet)
    ensures Value(Digit(v)) == Some(v)
  {
  }

  lemma ValueDigit(c: char)
    requires Alphabet(c)
    ensures Digit(Value(c).value) == c
  {
  }

  lemma DigitsValues(vs: seq<Sextet>)
    ensures Values(Digits(vs)) == Some(vs)
  {
    var s := Digits(vs);
    forall i | 0 <= i < |vs| ensures Value(s[i]) == Some(vs[i]) { DigitValue(vs[i]); }
    assert Values(s).Some? && Values(s).value == vs;
  }

  lemma ValuesDigits(s: string)
    requires Values(s).Some?
    ensures Digits(Values(s).value) == s
  {
    var vs := Values(s).value;
    forall i | 0 <= i < |s| ensures Digits(vs)[i] == s[i] { ValueDigit(s[i]); }
  }

  /** An encoded text uses the alphabet only. */
  lemma EncodeAlphabet(bs: seq<Byte>)
    ensures forall i :: 0 <= i < |Encode(bs)| ==> Alphabet(Encode(bs)[i])
  {
    DigitsValues(Pack(bs));
  }

  lemma {:induction false} StripAlphabet(s: string)
    requires forall i :: 0 <= i < |s| ==> s[i] != '\r' && s[i] != '\n'
    ensures Strip(s) == s
  {
    if s != [] { StripAlphabet(s[1..]); }
  }

  lemma {:induction false} Base4Number(cs: seq<Crumb>)
    ensures Base4(Number(cs), |cs|) == cs
  {
    if cs != [] {
      var init := cs[..|cs| - 1];
      Base4Number(init);
      assert (Number(init) * 4 + cs[|cs| - 1]) / 4 == Number(init);
      assert cs == init + [cs[|cs| - 1]];
    }
  }

  /** A number below four to the power of `n`. */
  predicate Fits(v: nat, n: nat) {
    if n == 0 then v == 0 else Fits(v / 4, n - 1)
  }

  lemma {:induction false} NumberBase4(v: nat, n: nat)
    requires Fits(v, n)
    ensures Number(Base4(v, n)) == v
  {
    if n > 0 {
      NumberBase4(v / 4, n - 1);
      assert Base4(v, n)[..n - 1] == Base4(v / 4, n - 1);
    }
  }

  lemma BytesAndSextetsFit(b: Byte, v: Sextet)
    ensures Fits(b, 4) && Fits(v, 3)
  {
    assert Fits(b / 4 / 4 / 4 / 4, 0) && Fits(b / 4 / 4 / 4, 1) && Fits(b / 4 / 4, 2);
    assert Fits(v / 4 / 4 / 4, 0) && Fits(v / 4 / 4, 1);
  }

  lemma {:induction false} BytesSurvive(bs: seq<Byte>, pad: seq<Crumb>)
    requires |pad| < 4
    ensures CrumbsToBytes(BytesToCrumbs(bs) + pad) == bs
    ensures |BytesToCrumbs(bs)| == 4 * |bs|
  {
    if bs == [] {
      assert BytesToCrumbs(bs) + pad == pad;
    } else {
      var rest := BytesToCrumbs(bs[1..]) + pad;
      var cs := BytesToCrumbs(bs) + pad;
      assert cs == Base4(bs[0], 4) + rest;
      assert cs[..4] == Base4(bs[0], 4) && cs[4..] == rest;
      BytesSurvive(bs[1..], pad);
      BytesAndSextetsFit(bs[0], 0);
      NumberBase4(bs[0], 4);
      assert bs == [bs[0]] + bs[1..];
    }
  }

  lemma {:induction false} CrumbsSurvive(cs: seq<Crumb>) returns (pad: seq<Crumb>)
    ensures |pad| < 3 && SextetsToCrumbs(CrumbsToSextets(cs)) == cs + pad
    ensures |CrumbsToSextets(cs)| == (|cs| + 2) / 3
  {
    if |cs| == 0 {
      pad := [];
    } else if |cs| < 3 {
      pad := Zeros(3 - |cs|);
      Base4Number(cs + pad);
      assert SextetsToCrumbs(CrumbsToSextets(cs)) == Base4(Number(cs + pad), 3) + [];
    } else {
      pad := CrumbsSurvive(cs[3..]);
      Base4Number(cs[..3]);
      assert cs == cs[..3] + cs[3..];
    }
  }

  lemma PackedLength(k: nat)
    ensures (4 * k + 2) / 3 % 4 != 1
  {
    var j, i := k / 3, k % 3;
    assert k == 3 * j + i;
    assert (4 * k + 2) / 3 == 4 * j + (4 * i + 2) / 3;
  }

  lemma UnpackPack(bs: seq<Byte>)
    ensures Unpack(Pack(bs)) == Some(bs)
  {
    PackedLength(|bs|);
    BytesSurvive(bs, []);
    var pad := CrumbsSurvive(BytesToCrumbs(bs));
    BytesSurvive(bs, pad);
  }

  /** Decoding undoes encoding, for every byte string. */
  lemma RoundTrip(bs: seq<Byte>)
    ensures Decode(Encode(bs)) == Some(bs)
  {
    EncodeAlphabet(bs);
    StripAlphabet(Encode(bs));
    DigitsValues(Pack(bs));
    UnpackPack(bs);
  }

  /** The bits the decoder drops are all zero. */
  predicate NoSpareBits(vs: seq<Sextet>) {
    && (|vs| % 4 == 2 ==> vs[|vs| - 1] % 16 == 0)
    && (|vs| % 4 == 3 ==> vs[|vs| - 1] % 4 == 0)
  }

  lemma {:induction false} WholeBytes(cs: seq<Crumb>)
    ensures BytesToCrumbs(CrumbsToBytes(cs)) == cs[..|cs| - |cs| % 4]
  {
    if |cs| >= 4 {
      WholeBytes(cs[4..]);
      Base4Number(cs[..4]);
      assert |cs[4..]| % 4 == |cs| % 4;
      assert cs[..|cs| - |cs| % 4] == cs[..4] + cs[4..][..|cs[4..]| - |cs| % 4];
    }
  }

  lemma SextetDigits(v: Sextet)
    ensures Base4(v, 3)[2] == v % 4 && Base4(v, 3)[1] == v / 4 % 4
  {
    assert Base4(v, 3)[1] == Base4(v / 4, 2)[1];
  }

  lemma Sixteenths(v: int)
    ensures v % 16 == 0 <==> v / 4 % 4 == 0 && v % 4 == 0
  {
  }

  /** A sextet without its last `r` crumbs is rebuilt exactly when they were zero. */
  lemma SpareBits(v: Sextet, r: nat)
    requires r < 3
    ensures Number(Base4(v, 3)[..3 - r] + Zeros(r)) == v <==>
      (r == 1 ==> v % 4 == 0) && (r == 2 ==> v % 16 == 0)
  {
    var c := Base4(v, 3);
    BytesAndSextetsFit(0, v);
    NumberBase4(v, 3);
    SextetDigits(v);
    Sixteenths(v);
    RebuiltWhenZero(c, v, r);
  }

  lemma RebuiltWhenZero(c: seq<Crumb>, v: nat, r: nat)
    requires |c| == 3 && r < 3 && Number(c) == v
    ensures Number(c[..3 - r] + Zeros(r)) == v <==> (r >= 1 ==> c[2] == 0) && (r == 2 ==> c[1] == 0)
  {
    var kept := c[..3 - r] + Zeros(r);
    Base4Number(kept);
    Base4Number(c);
    assert Number(kept) == v <==> kept == c;
    assert kept[0] == c[0];
    assert c == [c[0], c[1], c[2]] && kept == [kept[0], kept[1], kept[2]];
  }

  /** Dropping up to two crumbs loses nothing exactly when they are zero. */
  lemma {:induction false} DroppedCrumbs(vs: seq<Sextet>, r: nat)
    requires r < 3 && r <= 3 * |vs|
    ensures CrumbsToSextets(SextetsToCrumbs(vs)[..3 * |vs| - r]) == vs <==>
      (r == 1 ==> vs[|vs| - 1] % 4 == 0) && (r == 2 ==> vs[|vs| - 1] % 16 == 0)
  {
    if vs != [] {
      var cs := SextetsToCrumbs(vs);
      var kept := cs[..3 * |vs| - r];
      SpareBits(vs[0], if |vs| == 1 then r else 0);
      if |vs| == 1 {
        assert cs == Base4(vs[0], 3);
        assert vs == [vs[0]];
        assert r == 0 ==> kept == Base4(vs[0], 3)[..3] + Zeros(0);
        assert r == 0 ==> kept[..3] == kept && kept[3..] == [];
        assert CrumbsToSextets(kept) == [Number(kept + Zeros(r))];
      } else {
        DroppedCrumbs(vs[1..], r);
        assert kept[..3] == Base4(vs[0], 3)[..3] + Zeros(0);
        assert kept[3..] == SextetsToCrumbs(vs[1..])[..3 * |vs[1..]| - r];
        assert vs == [vs[0]] + vs[1..];
        assert CrumbsToSextets(kept)[1..] == CrumbsToSextets(kept[3..]);
      }
    }
  }

  lemma SpareCrumbs(n: nat)
    requires n % 4 != 1
    ensures 3 * n % 4 == (if n % 4 == 2 then 2 else if n % 4 == 3 then 1 else 0)
  {
  }

  lemma PackUnpack(vs: seq<Sextet>)
    requires Unpack(vs).Some?
    ensures Pack(Unpack(vs).value) == vs <==> NoSpareBits(vs)
  {
    SpareCrumbs(|vs|);
    WholeBytes(SextetsToCrumbs(vs));
    DroppedCrumbs(vs, 3 * |vs| % 4);
  }

  /** Encoding undoes decoding exactly on the texts without line breaks and spare bits. */
  lemma CanonicalText(s: string)
    requires Decode(s).Some?
    ensures Encode(Decode(s).value) == s <==> Values(s).Some? && NoSpareBits(Values(s).value)
  {
    var bs := Decode(s).value;
    EncodeAlphabet(bs);
    if Values(s).Some? {
      StripAlphabet(s);
      var vs := Values(s).value;
      PackUnpack(vs);
      DigitsValues(Pack(bs));
      ValuesDigits(s);
    }
  }

  // ----- the encoding of the standard -----------------------------------------------------

  /** The sextet made of three crumbs. */
  function Six(x: int, y: int, z: int): (v: int)
    requires 0 <= x < 4 && 0 <= y < 4 && 0 <= z < 4
    ensures 0 <= v < 64
  {
    x * 16 + y * 4 + z
  }

  lemma NumberOfThree(cs: seq<Crumb>)
    requires |cs| == 3
    ensures Number(cs) == Six(cs[0], cs[1], cs[2])
  {
    assert Number(cs) == Number(cs[..2]) * 4 + cs[2];
    assert cs[..2][..1] == cs[..1] && Number(cs[..2]) == Number(cs[..1]) * 4 + cs[1];
    assert cs[..1][..0] == [] && Number(cs[..1]) == cs[0];
  }

  lemma OneSextet(cs: seq<Crumb>)
    requires |cs| >= 3
    ensures CrumbsToSextets(cs) == [Six(cs[0], cs[1], cs[2]) as Sextet] + CrumbsToSextets(cs[3..])
  {
    NumberOfThree(cs[..3]);
  }

  lemma PartsOfByte(b: Byte, x: int, y: int, z: int, u: int)
    requires 0 <= x < 4 && 0 <= y < 4 && 0 <= z < 4 && 0 <= u < 4 && b == x * 64 + y * 16 + z * 4 + u
    ensures Six(x, y, z) == b / 4 && u == b % 4
    ensures Six(0, x, y) == b / 16 && Six(0, z, u) == b % 16
    ensures x == b / 64 && Six(y, z, u) == b % 64
  {
  }

  lemma CrumbsOfByte(b: Byte)
    ensures Base4(b, 4) == [b / 64, b / 16 % 4, b / 4 % 4, b % 4]
  {
    assert Base4(b, 4) == Base4(b / 4, 3) + [b % 4];
    assert Base4(b / 4, 3) == Base4(b / 4 / 4, 2) + [b / 4 % 4];
    assert Base4(b / 4 / 4, 2) == Base4(b / 4 / 4 / 4, 1) + [b / 4 / 4 % 4];
    assert Base4(b / 4 / 4 / 4, 1) == Base4(b / 4 / 4 / 4 / 4, 0) + [b / 4 / 4 / 4 % 4];
  }

  /** The crumbs of a byte, highest first: what they are where it starts, crosses or ends a sextet. */
  predicate AreCrumbsOf(cs: seq<Crumb>, b: Byte) {
    && |cs| == 4
    && Six(cs[0], cs[1], cs[2]) == b / 4 && cs[3] as int == b % 4
    && Six(0, cs[0], cs[1]) == b / 16 && Six(0, cs[2], cs[3]) == b % 16
    && cs[0] as int == b / 64 && Six(cs[1], cs[2], cs[3]) == b % 64
  }

  lemma CrumbsOf(b: Byte)
    ensures AreCrumbsOf(Base4(b, 4), b)
  {
    CrumbsOfByte(b);
    PartsOfByte(b, b / 64, b / 16 % 4, b / 4 % 4, b % 4);
  }

  /** Three groups of four crumbs are four groups of three. */
  lemma Regrouped(x: seq<Crumb>, y: seq<Crumb>, z: seq<Crumb>, rest: seq<Crumb>)
    requires |x| == |y| == |z| == 4
    ensures CrumbsToSextets(x + (y + (z + rest))) ==
      [Six(x[0], x[1], x[2]) as Sextet, Six(x[3], y[0], y[1]) as Sextet,
       Six(y[2], y[3], z[0]) as Sextet, Six(z[1], z[2], z[3]) as Sextet] + CrumbsToSextets(rest)
  {
    var c0 := x + (y + (z + rest));
    var c1, c2, c3 := c0[3..], c0[6..], c0[9..];
    assert c0[3..] == c1 && c1[3..] == c2 && c2[3..] == c3 && c3[3..] == rest;
    OneSextet(c0);
    OneSextet(c1);
    OneSextet(c2);
    OneSextet(c3);
  }

  /** Where two bytes meet in a sextet. */
  lemma Joint(x: int, y: int, z: int)
    requires 0 <= x < 4 && 0 <= y < 4 && 0 <= z < 4
    ensures Six(x, y, z) == x * 16 + Six(0, y, z) == Six(0, x, y) * 4 + z
  {
  }

  lemma BytesCons(b: Byte, rest: seq<Byte>)
    ensures BytesToCrumbs([b] + rest) == Base4(b, 4) + BytesToCrumbs(rest)
  {
    assert ([b] + rest)[1..] == rest;
  }

  /** The sextet in which two bytes meet, for each of the two ways. */
  lemma Meet(a: Byte, b: Byte, x: seq<Crumb>, y: seq<Crumb>)
    requires AreCrumbsOf(x, a) && AreCrumbsOf(y, b)
    ensures Six(x[3], y[0], y[1]) == a % 4 * 16 + b / 16
    ensures Six(x[2], x[3], y[0]) == a % 16 * 4 + b / 64
    ensures Six(x[2], x[3], 0) == a % 16 * 4 && Six(x[3], 0, 0) == a % 4 * 16
  {
    Joint(x[3], y[0], y[1]);
    Joint(x[2], x[3], y[0]);
    Joint(x[2], x[3], 0);
  }

  lemma SextetsOfThree(x: seq<Crumb>, y: seq<Crumb>, z: seq<Crumb>, cs: seq<Crumb>,
                       v0: Sextet, v1: Sextet, v2: Sextet, v3: Sextet)
    requires |x| == |y| == |z| == 4
    requires v0 == Six(x[0], x[1], x[2]) && v1 == Six(x[3], y[0], y[1])
    requires v2 == Six(y[2], y[3], z[0]) && v3 == Six(z[1], z[2], z[3])
    ensures CrumbsToSextets(x + (y + (z + cs))) == [v0, v1, v2, v3] + CrumbsToSextets(cs)
  {
    Regrouped(x, y, z, cs);
  }

  lemma PackThree(a: Byte, b: Byte, c: Byte, rest: seq<Byte>)
    ensures Pack([a, b, c] + rest) ==
      [a / 4, a % 4 * 16 + b / 16, b % 16 * 4 + c / 64, c % 64] + Pack(rest)
  {
    assert [a, b, c] + rest == [a] + ([b] + ([c] + rest));
    BytesCons(a, [b] + ([c] + rest));
    BytesCons(b, [c] + rest);
    BytesCons(c, rest);
    CrumbsOf(a);
    CrumbsOf(b);
    CrumbsOf(c);
    Meet(a, b, Base4(a, 4), Base4(b, 4));
    Meet(b, c, Base4(b, 4), Base4(c, 4));
    SextetsOfThree(Base4(a, 4), Base4(b, 4), Base4(c, 4), BytesToCrumbs(rest),
                   a / 4, a % 4 * 16 + b / 16, b % 16 * 4 + c / 64, c % 64);
  }

  /** Three bytes are four characters of six bits each, the highest first. */
  lemma ThreeBytes(a: Byte, b: Byte, c: Byte, rest: seq<Byte>)
    ensures Encode([a, b, c] + rest) ==
      [Digit(a / 4), Digit(a % 4 * 16 + b / 16), Digit(b % 16 * 4 + c / 64), Digit(c % 64)] + Encode(rest)
  {
    PackThree(a, b, c, rest);
    DigitsOfFour(Pack([a, b, c] + rest), Pack(rest));
  }

  lemma DigitsOfFour(vs: seq<Sextet>, rest: seq<Sextet>)
    requires |vs| == 4 + |rest| && vs[4..] == rest
    ensures Digits(vs) == [Digit(vs[0]), Digit(vs[1]), Digit(vs[2]), Digit(vs[3])] + Digits(rest)
  {
  }

  /** One byte left is two characters, filled up with zero bits and not padded. */
  lemma OneByteLeft(a: Byte)
    ensures Encode([a]) == [Digit(a / 4), Digit(a % 4 * 16)]
  {
    var x := Base4(a, 4);
    CrumbsOf(a);
    assert BytesToCrumbs([a]) == x;
    OneSextet(x);
    NumberOfThree(x[3..] + Zeros(2));
    assert CrumbsToSextets(x[3..]) == [Number(x[3..] + Zeros(2))];
    assert |Encode([a])| == 2;
  }

  lemma EightCrumbs(cs: seq<Crumb>)
    requires |cs| == 8
    ensures CrumbsToSextets(cs) ==
      [Six(cs[0], cs[1], cs[2]) as Sextet, Six(cs[3], cs[4], cs[5]) as Sextet, Six(cs[6], cs[7], 0) as Sextet]
  {
    var c1, c2 := cs[3..], cs[6..];
    assert c1[3..] == c2;
    OneSextet(cs);
    OneSextet(c1);
    LastTwo(c2);
  }

  lemma LastTwo(cs: seq<Crumb>)
    requires |cs| == 2
    ensures CrumbsToSextets(cs) == [Six(cs[0], cs[1], 0) as Sextet]
  {
    NumberOfThree(cs + Zeros(1));
  }

  lemma PackTwo(a: Byte, b: Byte)
    ensures Pack([a, b]) == [a / 4, a % 4 * 16 + b / 16, b % 16 * 4]
  {
    assert [a, b] == [a] + ([b] + []);
    BytesCons(a, [b] + []);
    BytesCons(b, []);
    assert Base4(b, 4) + BytesToCrumbs([]) == Base4(b, 4);
    CrumbsOf(a);
    CrumbsOf(b);
    Meet(a, b, Base4(a, 4), Base4(b, 4));
    Meet(b, b, Base4(b, 4), Base4(b, 4));
    EightCrumbs(Base4(a, 4) + Base4(b, 4));
  }

  /** Two bytes left are three. */
  lemma TwoBytesLeft(a: Byte, b: Byte)
    ensures Encode([a, b]) == [Digit(a / 4), Digit(a % 4 * 16 + b / 16), Digit(b % 16 * 4)]
  {
    PackTwo(a, b);
    var vs := Pack([a, b]);
    assert Digits(vs) == [Digit(vs[0]), Digit(vs[1]), Digit(vs[2])];
  }

  /** The URL-safe alphabet in its order. */
  lemma AlphabetInOrder(v: Sextet)
    ensures Digit(0) == 'A' && Digit(25) == 'Z' && Digit(26) == 'a' && Digit(51) == 'z'
    ensures Digit(52) == '0' && Digit(61) == '9' && Digit(62) == '-' && Digit(63) == '_'
    ensures v < 61 && v != 25 && v != 51 ==> Digit(v + 1) as int == Digit(v) as int + 1
  {
  }

  /** The decoder skips line breaks, and nothing else that is not of the alphabet. */
  lemma LineBreaksOnly(s: string, t: string)
    ensures Decode(s + "\r" + t) == Decode(s + t) == Decode(s + "\n" + t)
    ensures Decode(s).Some? ==> forall c :: c in s ==> Alphabet(c) || c == '\r' || c == '\n'
  {
    StripJoined(s, "\r" + t);
    StripJoined(s, "\n" + t);
    StripJoined(s, t);
    assert s + "\r" + t == s + ("\r" + t) && s + "\n" + t == s + ("\n" + t);
    assert ("\r" + t)[1..] == t && ("\n" + t)[1..] == t;
    forall c | c in s && c != '\r' && c != '\n' ensures c in Strip(s) { Kept(s, c); }
  }

  lemma {:induction false} StripJoined(s: string, t: string)
    ensures Strip(s + t) == Strip(s) + Strip(t)
  {
    if s == [] {
      assert s + t == t;
    } else {
      assert (s + t)[0] == s[0] && (s + t)[1..] == s[1..] + t;
      StripJoined(s[1..], t);
      assert [s[0]] + Strip(s[1..]) + Strip(t) == [s[0]] + (Strip(s[1..]) + Strip(t));
    }
  }

  lemma {:induction false} Kept(s: string, c: char)
    requires c in s && c != '\r' && c != '\n'
    ensures c in Strip(s)
  {
    if s[0] != c { Kept(s[1..], c); }
  }
}
