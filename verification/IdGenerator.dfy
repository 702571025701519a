/** Sequential IDs, by zero-padded decimal printing, and random IDs, by hex and base64. */
module IdGenerator {
  import opened Wrappers

  // Sequential IDs

  const WRAP := 0x1_0000_0000_0000_0000

  newtype uint64 = i: int | 0 <= i < 0x1_0000_0000_0000_0000

  function DigitChar(d: nat): char
    requires d < 10
  {
    ('0' as int + d) as char
  }

  function DigitValue(c: char): nat {
    if '0' <= c <= '9' then c as int - '0' as int else 0
  }

  function Digits(n: nat): string {
    if n < 10 then [DigitChar(n)] else Digits(n / 10) + [DigitChar(n % 10)]
  }

  function Repeat(c: char, n: int): string {
    if n <= 0 then "" else Repeat(c, n - 1) + [c]
  }

  const MAX_WIDTH := 1_000_000

  const BAD_WIDTH := "%!(BADWIDTH)"

  /** A negative width pads on the right, with blanks; a width out of range is reported and ignored. */
  function Padded(width: int, n: nat): string {
    var digits := Digits(n);
    if width < -MAX_WIDTH || width > MAX_WIDTH then BAD_WIDTH + digits
    else if width < 0 then digits + Repeat(' ', -width - |digits|)
    else Repeat('0', width - |digits|) + digits
  }

  function SequentialId(prefix: string, padLength: int, n: nat): string {
    prefix + Padded(padLength, n)
  }

  /** Reading a number back, past leading zeros and trailing blanks. */
  function Read(s: string): nat {
    if s == "" then 0
    else
      var last := s[|s| - 1];
      if last == ' ' then Read(s[..|s| - 1]) else 10 * Read(s[..|s| - 1]) + DigitValue(last)
  }

  function ReadPadded(width: int, s: string): nat {
    if (width < -MAX_WIDTH || width > MAX_WIDTH) && |s| >= |BAD_WIDTH| then Read(s[|BAD_WIDTH|..]) else Read(s)
  }

  lemma {:induction false} ReadDigits(zeros: int, n: nat)
    ensures Read(Repeat('0', zeros) + Digits(n)) == n
  {
    var s := Repeat('0', zeros) + Digits(n);
    if n < 10 {
      assert s[..|s| - 1] == Repeat('0', zeros);
      ReadZeros(zeros);
    } else {
      assert s[..|s| - 1] == Repeat('0', zeros) + Digits(n / 10);
      ReadDigits(zeros, n / 10);
    }
  }

  lemma {:induction false} ReadZeros(zeros: int)
    ensures Read(Repeat('0', zeros)) == 0
  {
    if zeros <= 0 {
    } else {
      assert Repeat('0', zeros)[..|Repeat('0', zeros)| - 1] == Repeat('0', zeros - 1);
      ReadZeros(zeros - 1);
    }
  }

  lemma {:induction false} ReadBlanks(s: string, blanks: int)
    ensures Read(s + Repeat(' ', blanks)) == Read(s)
  {
    if blanks <= 0 {
      assert s + Repeat(' ', blanks) == s;
    } else {
      var t := s + Repeat(' ', blanks);
      assert t[..|t| - 1] == s + Repeat(' ', blanks - 1);
      ReadBlanks(s, blanks - 1);
    }
  }

  lemma BareDigitsRead(n: nat)
    ensures Read(Digits(n)) == n
  {
    ReadDigits(0, n);
    assert Repeat('0', 0) + Digits(n) == Digits(n);
  }

  /** Padded printing is undone by reading, for every width. */
  lemma PaddedReads(width: int, n: nat)
    ensures ReadPadded(width, Padded(width, n)) == n
  {
    if width < -MAX_WIDTH || width > MAX_WIDTH {
      BareDigitsRead(n);
      DropPrefix(BAD_WIDTH, Digits(n));
    } else {
      PaddedInRangeReads(width, n);
    }
  }

  lemma PaddedInRangeReads(width: int, n: nat)
    requires -MAX_WIDTH <= width <= MAX_WIDTH
    ensures Read(Padded(width, n)) == n
  {
    var digits := Digits(n);
    if width < 0 {
      BareDigitsRead(n);
      ReadBlanks(digits, -width - |digits|);
      assert Padded(width, n) == digits + Repeat(' ', -width - |digits|);
    } else {
      ReadDigits(width - |digits|, n);
      assert Padded(width, n) == Repeat('0', width - |digits|) + digits;
    }
  }

  lemma DropPrefix(p: string, s: string)
    ensures |p + s| >= |p| && (p + s)[|p|..] == s
  {
  }

  lemma SequentialIdInjective(prefix: string, padLength: int, m: nat, n: nat)
    ensures SequentialId(prefix, padLength, m) == SequentialId(prefix, padLength, n) <==> m == n
  {
    PaddedReads(padLength, m);
    PaddedReads(padLength, n);
    DropPrefix(prefix, Padded(padLength, m));
    DropPrefix(prefix, Padded(padLength, n));
  }

  class SequentialGenerator {
    const prefix: string
    const padLength: int
    var sequence: uint64

    constructor (prefix: string, padLength: int)
      ensures this.prefix == prefix && this.padLength == padLength && sequence == 0
    {
      this.prefix, this.padLength, sequence := prefix, padLength, 0;
    }

    /** The counter is bumped in one atomic step and wraps around. */
    method Generate() returns (id: string)
      modifies this
      ensures sequence as int == (old(sequence) as int + 1) % WRAP
      ensures id == SequentialId(prefix, padLength, sequence as nat)
    {
      sequence := if sequence == 0xFFFF_FFFF_FFFF_FFFF then 0 else sequence + 1;
      id := SequentialId(prefix, padLength, sequence as nat);
    }
  }

  /** The IDs of `n` calls of Generate, in the order of their atomic increments, from sequence number `start` on. */
  function Ids(prefix: string, padLength: int, start: nat, n: nat): seq<string> {
    seq(n, k requires 0 <= k < n => SequentialId(prefix, padLength, (start + k + 1) % WRAP))
  }

  /** A run of calls gives pairwise different IDs exactly when it is no longer than the counter's range. */
  lemma IdsDistinct(prefix: string, padLength: int, start: nat, n: nat)
    ensures var ids := Ids(prefix, padLength, start, n);
            (forall i, j | 0 <= i < j < n :: ids[i] != ids[j]) <==> n <= WRAP
  {
    var ids := Ids(prefix, padLength, start, n);
    forall i, j | 0 <= i < j < n
      ensures ids[i] == ids[j] <==> (start + i + 1) % WRAP == (start + j + 1) % WRAP
    {
      SequentialIdInjective(prefix, padLength, (start + i + 1) % WRAP, (start + j + 1) % WRAP);
    }
    if n > WRAP {
      assert (start + 0 + 1) % WRAP == (start + WRAP + 1) % WRAP;
      assert ids[0] == ids[WRAP];
    } else {
      forall i, j | 0 <= i < j < n
        ensures ids[i] != ids[j]
      {
        CloseNumbersDiffer(start + i + 1, start + j + 1);
      }
    }
  }

  lemma CloseNumbersDiffer(a: nat, b: nat)
    requires a < b < a + WRAP
    ensures a % WRAP != b % WRAP
  {
    var q, r := a / WRAP, b / WRAP;
    assert a == WRAP * q + a % WRAP && b == WRAP * r + b % WRAP;
  }

  // Random IDs

  type Byte = i: int | 0 <= i < 256

  datatype Encoding = Hex | Base64 | Base64Url | OtherEncoding

  /** Go divides toward zero. */
  function Quotient(a: int, b: nat): int
    requires b > 0
  {
    if a >= 0 then a / b else -(-a / b)
  }

  function ByteLength(encoding: Encoding, length: int): int {
    match encoding
    case Hex => Quotient(length, 2)
    case OtherEncoding => length
    case _ => Quotient(length * 3, 4)
  }

  /** Symbol number `v` of the alphabets of RFC 4648, sections 4 and 5. */
  function Symbol(url: bool, v: nat): char
    requires v < 64
  {
    if v < 26 then ('A' as int + v) as char
    else if v < 52 then ('a' as int + (v - 26)) as char
    else if v < 62 then ('0' as int + (v - 52)) as char
    else if v == 62 then if url then '-' else '+'
    else if url then '_' else '/'
  }

  function SymbolValue(c: char): nat {
    if 'A' <= c <= 'Z' then c as int - 'A' as int
    else if 'a' <= c <= 'z' then c as int - 'a' as int + 26
    else if '0' <= c <= '9' then c as int - '0' as int + 52
    else if c == '-' || c == '+' then 62
    else 63
  }

  lemma SymbolReads(url: bool, v: nat)
    requires v < 64
    ensures SymbolValue(Symbol(url, v)) == v && Symbol(url, v) != '='
  {
  }

  type Sextet = i: int | 0 <= i < 64

  function Sextet1(a: Byte): Sextet { a / 4 }

  function Sextet2(a: Byte, b: Byte): Sextet { a % 4 * 16 + b / 16 }

  function Sextet3(b: Byte, c: Byte): Sextet { b % 16 * 4 + c / 64 }

  function Sextet4(c: Byte): Sextet { c % 64 }

  /** The bits of the input in groups of six, zero bits added at the end as needed. */
  function Sextets(bytes: seq<Byte>): seq<Sextet> {
    if bytes == [] then []
    else if |bytes| == 1 then [Sextet1(bytes[0]), Sextet2(bytes[0], 0)]
    else if |bytes| == 2 then [Sextet1(bytes[0]), Sextet2(bytes[0], bytes[1]), Sextet3(bytes[1], 0)]
    else
      [Sextet1(bytes[0]), Sextet2(bytes[0], bytes[1]), Sextet3(bytes[1], bytes[2]), Sextet4(bytes[2])]
      + Sextets(bytes[3..])
  }

  /** The whole bytes in groups of six bits. */
  function FromSextets(s: seq<Sextet>): seq<Byte> {
    if |s| < 2 then []
    else if |s| == 2 then [Byte1(s[0], s[1])]
    else if |s| == 3 then [Byte1(s[0], s[1]), Byte2(s[1], s[2])]
    else [Byte1(s[0], s[1]), Byte2(s[1], s[2]), Byte3(s[2], s[3])] + FromSextets(s[4..])
  }

  function Byte1(a: Sextet, b: Sextet): Byte
  {
    (a as int) * 4 + b / 16
  }

  function Byte2(b: Sextet, c: Sextet): Byte
  {
    (b as int) % 16 * 16 + c / 4
  }

  function Byte3(c: Sextet, d: Sextet): Byte
  {
    (c as int) % 4 * 64 + d
  }

  function SextetCount(n: nat): nat {
    n / 3 * 4 + if n % 3 == 0 then 0 else n % 3 + 1
  }

  lemma BytesJoin(a: Byte, b: Byte, c: Byte)
    ensures Byte1(Sextet1(a), Sextet2(a, b)) == a
    ensures Byte2(Sextet2(a, b), Sextet3(b, c)) == b
    ensures Byte3(Sextet3(b, c), Sextet4(c)) == c
  {
  }

  lemma CountStep(n: nat)
    ensures SextetCount(n + 3) == SextetCount(n) + 4
  {
    assert (n + 3) / 3 == n / 3 + 1 && (n + 3) % 3 == n % 3;
  }

  lemma FromSextetsStep(w: Sextet, x: Sextet, y: Sextet, z: Sextet, rest: seq<Sextet>)
    ensures FromSextets([w, x, y, z] + rest) == [Byte1(w, x), Byte2(x, y), Byte3(y, z)] + FromSextets(rest)
  {
    assert ([w, x, y, z] + rest)[4..] == rest;
  }

  lemma {:induction false} SextetsLength(bytes: seq<Byte>)
    ensures |Sextets(bytes)| == SextetCount(|bytes|)
  {
    if |bytes| <= 2 {
    } else {
      SextetsLength(bytes[3..]);
      CountStep(|bytes| - 3);
    }
  }

  lemma TwoSextetsRead(a: Byte, b: Byte)
    ensures FromSextets([Sextet1(a), Sextet2(a, b)]) == [a]
  {
    BytesJoin(a, b, b);
  }

  lemma ThreeSextetsRead(a: Byte, b: Byte, c: Byte)
    ensures FromSextets([Sextet1(a), Sextet2(a, b), Sextet3(b, c)]) == [a, b]
  {
    BytesJoin(a, b, c);
  }

  /** The bytes come back from their sextets. */
  lemma {:induction false} SextetsRead(bytes: seq<Byte>)
    ensures FromSextets(Sextets(bytes)) == bytes
  {
    if bytes == [] {
    } else if |bytes| == 1 {
      TwoSextetsRead(bytes[0], 0);
    } else if |bytes| == 2 {
      ThreeSextetsRead(bytes[0], bytes[1], 0);
    } else {
      var a, b, c, rest := bytes[0], bytes[1], bytes[2], bytes[3..];
      SextetsRead(rest);
      BytesJoin(a, b, c);
      FromSextetsStep(Sextet1(a), Sextet2(a, b), Sextet3(b, c), Sextet4(c), Sextets(rest));
      assert bytes == [a, b, c] + rest;
    }
  }

  function Symbols(url: bool, s: seq<Sextet>): string {
    seq(|s|, i requires 0 <= i < |s| => Symbol(url, s[i]))
  }

  /** Base64 with padding to a multiple of four characters. */
  function EncodeBase64(url: bool, bytes: seq<Byte>): string {
    var data := Symbols(url, Sextets(bytes));
    data + Repeat('=', (4 - |data| % 4) % 4)
  }

  function HexChar(d: nat): char
    requires d < 16
  {
    if d < 10 then ('0' as int + d) as char else ('a' as int + (d - 10)) as char
  }

  function EncodeHex(bytes: seq<Byte>): string {
    if bytes == [] then "" else [HexChar(bytes[0] / 16), HexChar(bytes[0] % 16)] + EncodeHex(bytes[1..])
  }

  function Encode(encoding: Encoding, bytes: seq<Byte>): string {
    match encoding
    case Base64 => EncodeBase64(false, bytes)
    case Base64Url => EncodeBase64(true, bytes)
    case _ => EncodeHex(bytes)
  }

  /** The ID for the drawn bytes; None where making the buffer or slicing the text would panic. */
  function RandomId(prefix: string, encoding: Encoding, length: int, draw: nat -> Byte): Option<string> {
    var n := ByteLength(encoding, length);
    if n < 0 then None
    else
      var encoded := Encode(encoding, Drawn(n, draw));
      if 0 <= length <= |encoded| then Some(prefix + encoded[..length]) else None
  }

  function Drawn(n: nat, draw: nat -> Byte): (bytes: seq<Byte>)
    ensures |bytes| == n
  {
    seq(n, i requires 0 <= i < n => draw(i))
  }

  lemma {:induction false} RepeatLength(c: char, n: nat)
    ensures |Repeat(c, n)| == n
  {
    if n == 0 {
    } else {
      RepeatLength(c, n - 1);
    }
  }

  lemma Base64Length(url: bool, bytes: seq<Byte>)
    ensures |EncodeBase64(url, bytes)| == (|bytes| + 2) / 3 * 4
    ensures Symbols(url, Sextets(bytes)) <= EncodeBase64(url, bytes)
  {
    SextetsLength(bytes);
    RepeatLength('=', (4 - SextetCount(|bytes|) % 4) % 4);
    PaddingFills(|bytes|);
  }

  /** Padding fills the last group of four. */
  lemma PaddingFills(n: nat)
    ensures SextetCount(n) + (4 - SextetCount(n) % 4) % 4 == (n + 2) / 3 * 4
  {
    var q, r := n / 3, n % 3;
    assert n == 3 * q + r;
    if r == 0 {
      assert (n + 2) / 3 == q && SextetCount(n) == 4 * q;
    } else {
      assert (n + 2) / 3 == q + 1 && SextetCount(n) == 4 * q + r + 1;
      assert SextetCount(n) % 4 == r + 1;
    }
  }

  lemma {:induction false} HexLength(bytes: seq<Byte>)
    ensures |EncodeHex(bytes)| == 2 * |bytes|
  {
    if bytes == [] {
    } else {
      HexLength(bytes[1..]);
    }
  }

  /** Generation succeeds exactly for these lengths, whatever is drawn. */
  predicate GoodLength(encoding: Encoding, length: int) {
    length >= 0 &&
    match encoding
    case Hex => length % 2 == 0
    case OtherEncoding => true
    case _ => length % 4 != 1
  }

  lemma Base64Fits(length: nat)
    ensures length <= (length * 3 / 4 + 2) / 3 * 4 <==> length % 4 != 1
  {
    var q, r := length / 4, length % 4;
    assert length == 4 * q + r && length * 3 / 4 == 3 * q + r * 3 / 4;
    assert (3 * q + r * 3 / 4 + 2) / 3 == q + (r * 3 / 4 + 2) / 3;
  }

  lemma EncodedLength(encoding: Encoding, bytes: seq<Byte>)
    ensures |Encode(encoding, bytes)| ==
            if encoding == Base64 || encoding == Base64Url then (|bytes| + 2) / 3 * 4 else 2 * |bytes|
  {
    match encoding
    case Base64 => Base64Length(false, bytes);
    case Base64Url => Base64Length(true, bytes);
    case _ => HexLength(bytes);
  }

  lemma SliceInBounds(prefix: string, encoding: Encoding, length: int, draw: nat -> Byte)
    ensures RandomId(prefix, encoding, length, draw).Some? <==> GoodLength(encoding, length)
  {
    if length >= 0 {
      EncodedLength(encoding, Drawn(ByteLength(encoding, length), draw));
      Base64Fits(length);
    }
  }

  /** Reading the characters of a base64 ID back. */
  function ReadBase64(s: string): seq<Byte> {
    FromSextets(seq(|s|, i requires 0 <= i < |s| => SymbolValue(s[i]) % 64))
  }

  lemma SymbolsRead(url: bool, s: seq<Sextet>)
    ensures ReadBase64(Symbols(url, s)) == FromSextets(s)
    ensures '=' !in Symbols(url, s)
  {
    forall i | 0 <= i < |s|
      ensures SymbolValue(Symbols(url, s)[i]) % 64 == s[i] && Symbols(url, s)[i] != '='
    {
      SymbolReads(url, s[i]);
    }
    var t := Symbols(url, s);
    assert seq(|t|, i requires 0 <= i < |t| => SymbolValue(t[i]) % 64) == s;
  }

  /**
   A base64 ID has exactly the length asked for after its prefix, no padding in it, and holds all the
   bytes drawn: reading it gives them back.
   */
  lemma Base64IdKeepsItsBytes(prefix: string, encoding: Encoding, length: int, draw: nat -> Byte)
    requires (encoding == Base64 || encoding == Base64Url) && GoodLength(encoding, length)
    ensures ByteLength(encoding, length) >= 0
    ensures var id := RandomId(prefix, encoding, length, draw);
            && id.Some? && |id.value| == |prefix| + length && id.value[..|prefix|] == prefix
            && '=' !in id.value[|prefix|..]
            && ReadBase64(id.value[|prefix|..]) == Drawn(ByteLength(encoding, length), draw)
  {
    SliceInBounds(prefix, encoding, length, draw);
    var url := encoding == Base64Url;
    var bytes := Drawn(ByteLength(encoding, length), draw);
    SextetsRead(bytes);
    SextetsLength(bytes);
    Base64Length(url, bytes);
    SextetCountOf(length);
    var data := Symbols(url, Sextets(bytes));
    assert Encode(encoding, bytes)[..length] == data;
    assert RandomId(prefix, encoding, length, draw).value[|prefix|..] == data;
    SymbolsRead(url, Sextets(bytes));
  }

  lemma SextetCountOf(length: nat)
    requires length % 4 != 1
    ensures SextetCount(length * 3 / 4) == length
  {
    var q, r := length / 4, length % 4;
    assert length * 3 / 4 == 3 * q + r * 3 / 4;
  }

  lemma {:induction false} HexInjective(a: seq<Byte>, b: seq<Byte>)
    requires EncodeHex(a) == EncodeHex(b)
    ensures a == b
  {
    HexLength(a);
    HexLength(b);
    if a == [] {
    } else {
      assert EncodeHex(a)[2..] == EncodeHex(a[1..]) && EncodeHex(b)[2..] == EncodeHex(b[1..]);
      HexInjective(a[1..], b[1..]);
      HexPairInjective(a[0], b[0]);
      assert EncodeHex(a)[0] == HexChar(a[0] / 16) && EncodeHex(a)[1] == HexChar(a[0] % 16);
      assert EncodeHex(b)[0] == HexChar(b[0] / 16) && EncodeHex(b)[1] == HexChar(b[0] % 16);
      assert a == [a[0]] + a[1..] && b == [b[0]] + b[1..];
    }
  }

  lemma HexPairInjective(x: Byte, y: Byte)
    ensures HexChar(x / 16) == HexChar(y / 16) && HexChar(x % 16) == HexChar(y % 16) ==> x == y
  {
  }

  /** Different draws give different IDs, in hex and in both forms of base64. */
  lemma DifferentDrawsDifferentIds(
      prefix: string, encoding: Encoding, length: int, draw: nat -> Byte, other: nat -> Byte)
    requires GoodLength(encoding, length) && encoding != OtherEncoding
    ensures ByteLength(encoding, length) >= 0
    ensures var n := ByteLength(encoding, length);
            RandomId(prefix, encoding, length, draw) == RandomId(prefix, encoding, length, other) <==>
            Drawn(n, draw) == Drawn(n, other)
  {
    if encoding == Hex {
      SliceInBounds(prefix, encoding, length, draw);
      SliceInBounds(prefix, encoding, length, other);
      var a, b := Drawn(length / 2, draw), Drawn(length / 2, other);
      HexLength(a);
      HexLength(b);
      if RandomId(prefix, encoding, length, draw) == RandomId(prefix, encoding, length, other) {
        assert RandomId(prefix, encoding, length, draw).value[|prefix|..] == EncodeHex(a);
        assert RandomId(prefix, encoding, length, other).value[|prefix|..] == EncodeHex(b);
        HexInjective(a, b);
      }
    } else {
      Base64IdKeepsItsBytes(prefix, encoding, length, draw);
      Base64IdKeepsItsBytes(prefix, encoding, length, other);
    }
  }

  // What the characters are

  /** Base64url avoids the two symbols that are not safe in URLs, and plain base64 the two that replace them. */
  lemma AlphabetsDiffer(bytes: seq<Byte>)
    ensures '+' !in Encode(Base64Url, bytes) && '/' !in Encode(Base64Url, bytes)
    ensures '-' !in Encode(Base64, bytes) && '_' !in Encode(Base64, bytes)
    ensures forall c | c in Encode(Hex, bytes) :: '0' <= c <= '9' || 'a' <= c <= 'f'
  {
    SymbolsOf(true, Sextets(bytes));
    SymbolsOf(false, Sextets(bytes));
    RepeatIsAll('=', (4 - |Symbols(true, Sextets(bytes))| % 4) % 4);
    RepeatIsAll('=', (4 - |Symbols(false, Sextets(bytes))| % 4) % 4);
    HexDigits(bytes);
  }

  lemma SymbolsOf(url: bool, s: seq<Sextet>)
    ensures forall c | c in Symbols(url, s) :: if url then c != '+' && c != '/' else c != '-' && c != '_'
  {
  }

  predicate AllAre(c: char, s: string) {
    forall x | x in s :: x == c
  }

  lemma {:induction false} RepeatIsAll(c: char, n: int)
    ensures AllAre(c, Repeat(c, n))
  {
    if n <= 0 {
    } else {
      RepeatIsAll(c, n - 1);
    }
  }

  lemma {:induction false} HexDigits(bytes: seq<Byte>)
    ensures forall c | c in EncodeHex(bytes) :: '0' <= c <= '9' || 'a' <= c <= 'f'
  {
    if bytes == [] {
    } else {
      HexDigits(bytes[1..]);
    }
  }

  /** The test vectors of section 10 of RFC 4648, up to three bytes, and one that needs the special symbols. */
  lemma KnownEncodings()
    ensures EncodeBase64(false, [102]) == "Zg==" && EncodeBase64(false, [102, 111]) == "Zm8="
    ensures EncodeBase64(false, [102, 111, 111]) == "Zm9v"
    ensures EncodeBase64(false, [251, 255]) == "+/8=" && EncodeBase64(true, [251, 255]) == "-_8="
    ensures EncodeHex([102, 171]) == "66ab"
  {
    EncodedAs(false, [102], [25, 32], "Zg", "==");
    EncodedAs(false, [102, 111], [25, 38, 60], "Zm8", "=");
    assert [102, 111, 111][3..] == [];
    EncodedAs(false, [102, 111, 111], [25, 38, 61, 47], "Zm9v", "");
    EncodedAs(false, [251, 255], [62, 63, 60], "+/8", "=");
    EncodedAs(true, [251, 255], [62, 63, 60], "-_8", "=");
    assert [102, 171][1..] == [171] && [171][1..] == [];
  }

  lemma EncodedAs(url: bool, bytes: seq<Byte>, sextets: seq<Sextet>, data: string, padding: string)
    requires Sextets(bytes) == sextets && |data| == |sextets|
    requires forall i | 0 <= i < |data| :: data[i] == Symbol(url, sextets[i])
    requires padding == Repeat('=', (4 - |data| % 4) % 4)
    ensures EncodeBase64(url, bytes) == data + padding
  {
    assert Symbols(url, sextets) == data;
  }

  function TenTo(k: nat): nat {
    if k == 0 then 1 else 10 * TenTo(k - 1)
  }

  /** A number is printed in decimal digits, as few as it takes. */
  lemma {:induction false} DigitsAreFew(n: nat)
    ensures var s := Digits(n);
            && |s| >= 1 && (forall c | c in s :: '0' <= c <= '9')
            && n < TenTo(|s|) && (n > 0 ==> TenTo(|s| - 1) <= n)
  {
    if n < 10 {
      assert TenTo(1) == 10 * TenTo(0);
    } else {
      DigitsAreFew(n / 10);
    }
  }

  /** A padded number is as wide as asked, or as wide as its digits: zeros in front, or blanks behind. */
  lemma PaddedWidth(width: int, n: nat)
    requires -MAX_WIDTH <= width <= MAX_WIDTH
    ensures var digits := Digits(n);
            var s := Padded(width, n);
            && |s| == (if width >= 0 then Larger(width, |digits|) else Larger(-width, |digits|))
            && (width >= 0 ==> s[|s| - |digits|..] == digits && AllAre('0', s[..|s| - |digits|]))
            && (width < 0 ==> s[..|digits|] == digits && AllAre(' ', s[|digits|..]))
  {
    var fill := (if width < 0 then -width else width) - |Digits(n)|;
    var c := if width < 0 then ' ' else '0';
    RepeatIsAll(c, fill);
    if fill >= 0 {
      RepeatLength(c, fill);
    }
  }

  /** A width beyond a million is reported in the text instead. */
  lemma BadWidths(width: int, n: nat)
    requires width < -1_000_000 || width > 1_000_000
    ensures Padded(width, n) == "%!(BADWIDTH)" + Digits(n)
  {
  }

  /** Division is toward zero. */
  lemma QuotientTruncates(a: int, b: nat)
    requires a >= 0 && b > 0
    ensures Quotient(-a, b) == -Quotient(a, b) && b * Quotient(a, b) <= a < b * Quotient(a, b) + b
  {
  }

  function Larger(a: int, b: int): int {
    if a > b then a else b
  }
}
