/** src/trace/step-function-service.ts: trace and span ids derived from a SHA-256 digest.
    The hash itself is any function to 32 bytes. */
module StepFunctionIds {
  import opened Wrappers
  import opened Numerals

  type Byte = b: nat | b < 256
  type Digest = d: seq<Byte> | |d| == 32 witness seq(32, _ => 0)

  datatype IdType = TRACE_ID | PARENT_ID | DD_P_TID

  function Repeat(c: char, n: nat): (s: string)
    ensures |s| == n && forall i :: 0 <= i < n ==> s[i] == c
  {
    seq(n, _ => c)
  }

  function PadStart(s: string, length: nat, c: char): string {
    if |s| >= length then s else Repeat(c, length - |s|) + s
  }

  /** `num.toString(2).padStart(8, "0")` */
  function NumberToBinaryString(num: Byte): string {
    PadStart(Print(num, 2), 8, '0')
  }

  /** `intArray.reduce((acc, num) => acc + this.numberToBinaryString(num), "")` */
  function Bits(bytes: seq<Byte>): string {
    if bytes == [] then "" else Bits(bytes[..|bytes| - 1]) + NumberToBinaryString(bytes[|bytes| - 1])
  }

  function Selected(digest: Digest, t: IdType): seq<Byte> {
    if t == TRACE_ID then digest[8..16] else digest[0..8]
  }

  function Substring(s: string, from: nat, to: nat): string
    requires from <= to
  {
    s[if from <= |s| then from else |s|..if to <= |s| then to else |s|]
  }

  /** 64 zeros are replaced by "1". */
  function OrOne(res: string): string { if res == Repeat('0', 64) then "1" else res }

  function DeterministicSha256Hash(digest: Digest, t: IdType): string {
    OrOne("0" + Substring(Bits(Selected(digest, t)), 1, 64))
  }

  /** None where `BigInt` would throw. */
  function DeterministicSha256HashToBigIntString(digest: Digest, t: IdType): Option<string> {
    match ParseBigInt(DeterministicSha256Hash(digest, t), 2)
    case None => None
    case Some(n) => Some(Print(n, 10))
  }

  /** The eight bytes as a big-endian number. */
  function BigEndian(bytes: seq<Byte>): nat {
    if bytes == [] then 0 else BigEndian(bytes[..|bytes| - 1]) * 256 + bytes[|bytes| - 1]
  }

  lemma OneMoreByte(bytes: seq<Byte>, k: nat)
    requires k < |bytes|
    ensures BigEndian(bytes[..k + 1]) == BigEndian(bytes[..k]) * 256 + bytes[k]
  {
    assert bytes[..k + 1][..k] == bytes[..k];
  }

  lemma FourMoreBytes(bytes: seq<Byte>, k: nat)
    requires k + 4 <= |bytes|
    ensures BigEndian(bytes[..k + 4])
         == BigEndian(bytes[..k]) * 0x1_0000_0000 + Weighed(bytes, k) * 0x1_0000 + Weighed(bytes, k + 2)
  {
    OneMoreByte(bytes, k);
    OneMoreByte(bytes, k + 1);
    OneMoreByte(bytes, k + 2);
    OneMoreByte(bytes, k + 3);
  }

  /** Two bytes, the first one high. */
  function Weighed(bytes: seq<Byte>, k: nat): int
    requires k + 2 <= |bytes|
  {
    0x100 * (bytes[k] as int) + bytes[k + 1] as int
  }

  /** The first of eight bytes weighs most. */
  lemma BigEndianMeans(bytes: seq<Byte>)
    requires |bytes| == 8
    ensures BigEndian(bytes)
         == 0x1_0000_0000_0000 * Weighed(bytes, 0) + 0x1_0000_0000 * Weighed(bytes, 2)
            + 0x1_0000 * Weighed(bytes, 4) + Weighed(bytes, 6)
  {
    FourMoreBytes(bytes, 0);
    FourMoreBytes(bytes, 4);
    assert bytes[..8] == bytes && BigEndian(bytes[..0]) == 0;
  }

  lemma {:induction false} ZerosHaveNoValue(n: nat)
    ensures AreDigits(Repeat('0', n), 2) && Value(Repeat('0', n), 2) == 0
  {
    if n > 0 {
      ZerosHaveNoValue(n - 1);
      assert Repeat('0', n) == Repeat('0', n - 1) + ['0'];
      ValueAppend(Repeat('0', n - 1), '0', 2);
    }
  }

  lemma {:induction false} NoValueOnlyZeros(s: string)
    requires AreDigits(s, 2) && Value(s, 2) == 0
    ensures s == Repeat('0', |s|)
  {
    if s != [] {
      NoValueOnlyZeros(s[..|s| - 1]);
      ZeroDigit(s[|s| - 1]);
      assert s == s[..|s| - 1] + [s[|s| - 1]];
    }
  }

  lemma ZeroDigit(c: char)
    ensures DigitValue(c) == 0 <==> c == '0'
  {
  }

  lemma {:induction false} PrintedLength(n: nat, k: nat)
    requires k > 0 && n < Pow(2, k)
    ensures |Print(n, 2)| <= k
  {
    if n >= 2 {
      assert n / 2 < Pow(2, k - 1);
      PrintedLength(n / 2, k - 1);
    }
  }

  lemma PaddingKeepsValue(s: string, length: nat)
    requires AreDigits(s, 2) && |s| <= length
    ensures var p := PadStart(s, length, '0'); |p| == length && AreDigits(p, 2) && Value(p, 2) == Value(s, 2)
  {
    var zeros := length - |s|;
    ZerosHaveNoValue(zeros);
    ValueConcat(Repeat('0', zeros), s, 2);
  }

  /** A byte becomes eight binary digits with its value. */
  lemma ByteBits(num: Byte)
    ensures var s := NumberToBinaryString(num); |s| == 8 && AreDigits(s, 2) && Value(s, 2) == num
  {
    assert Pow(2, 8) == 256 by { PowersOfTwo(); }
    PrintedLength(num, 8);
    ValueOfPrint(num, 2);
    PaddingKeepsValue(Print(num, 2), 8);
  }

  lemma {:induction false} BitsAreBigEndian(bytes: seq<Byte>)
    ensures |Bits(bytes)| == 8 * |bytes| && AreDigits(Bits(bytes), 2) && Value(Bits(bytes), 2) == BigEndian(bytes)
  {
    if bytes != [] {
      var init, last := bytes[..|bytes| - 1], bytes[|bytes| - 1];
      BitsAreBigEndian(init);
      ByteBits(last);
      ValueConcat(Bits(init), NumberToBinaryString(last), 2);
      assert Pow(2, 8) == 256 by { PowersOfTwo(); }
    }
  }

  lemma FirstBit(bit: char, low: string)
    requires |low| == 63 && AreDigits([bit], 2) && AreDigits(low, 2)
    ensures AreDigits([bit] + low, 2) && Value([bit] + low, 2) == DigitValue(bit) * TWO_63 + Value(low, 2)
    ensures Value(low, 2) < TWO_63
  {
    assert DigitValue([bit][0]) < 2;
    ValueOfFirst(bit, low, 2);
    ValueIsBounded(low, 2);
    assert Pow(2, 63) == TWO_63 by { PowersOfTwo(); }
  }

  /** Replacing the first of 64 bits by 0 takes the value modulo 2^63. */
  lemma TopBitCleared(bits: string)
    requires |bits| == 64 && AreDigits(bits, 2)
    ensures AreDigits("0" + bits[1..], 2) && Value("0" + bits[1..], 2) == Value(bits, 2) % TWO_63
  {
    var low := bits[1..];
    assert AreDigits([bits[0]], 2);
    assert bits == [bits[0]] + low;
    FirstBit(bits[0], low);
    FirstBit('0', low);
    RemainderOf(Value(bits, 2), DigitValue(bits[0]), Value(low, 2));
  }

  /** For every digest the id is the decimal form of its eight selected bytes, read
      big-endian modulo 2^63, or of 1 if that is 0: always a positive 63-bit number. */
  lemma IdIsLow63Bits(digest: Digest, t: IdType)
    ensures var low := BigEndian(if t == TRACE_ID then digest[8..16] else digest[0..8]) % TWO_63;
            var id := if low == 0 then 1 else low;
            DeterministicSha256HashToBigIntString(digest, t) == Some(Print(id, 10)) && 1 <= id < TWO_63
  {
    var bits := Bits(Selected(digest, t));
    BitsAreBigEndian(Selected(digest, t));
    HashOfBits(digest, t, bits);
    ParsedHash(bits);
  }

  lemma HashOfBits(digest: Digest, t: IdType, bits: string)
    requires bits == Bits(Selected(digest, t)) && |bits| == 64
    ensures DeterministicSha256Hash(digest, t) == OrOne("0" + bits[1..])
  {
    assert Substring(bits, 1, 64) == bits[1..];
  }

  lemma ParsedHash(bits: string)
    requires |bits| == 64 && AreDigits(bits, 2)
    ensures var low := Value(bits, 2) % TWO_63;
            ParseBigInt(OrOne("0" + bits[1..]), 2) == Some(if low == 0 then 1 else low)
  {
    var res := "0" + bits[1..];
    TopBitCleared(bits);
    ZerosHaveNoValue(64);
    ValueOfDigit('1', 2);
    if Value(res, 2) == 0 { NoValueOnlyZeros(res); }
  }
}
