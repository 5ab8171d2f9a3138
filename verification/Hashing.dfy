/** Canonical hashing: SHA-256 over canonical bytes, rendered as lowercase hex. */
module Hashing {
  import opened Wrappers
  import opened Records

  type Byte = x: int | 0 <= x < 256
  type Bytes = seq<Byte>

  const ZERO_SUM: Bytes := seq(32, _ => 0)

  /** The thirty-two bytes a SHA-256 computation yields. */
  type Sum = s: Bytes | |s| == 32 witness ZERO_SUM

  /** The library primitives: the hash, and canonical JSON of a record. */
  datatype Crypto = Crypto(sha: Bytes -> Sum, canon: AuditRecord -> Bytes)

  const OPEN_BRACE: Byte := '{' as int

  /** Canonical JSON determines the record and always opens with a brace. */
  ghost predicate FaithfulCanon(c: Crypto) {
    && (forall a, b :: c.canon(a) == c.canon(b) ==> a == b)
    && (forall r :: c.canon(r) != [] && c.canon(r)[0] == OPEN_BRACE)
  }

  /** No two of these inputs share a hash. Stated of the inputs at hand: no hash is injective outright. */
  ghost predicate CollisionFree(c: Crypto, inputs: set<Bytes>) {
    forall a, b :: a in inputs && b in inputs && c.sha(a) == c.sha(b) ==> a == b
  }

  const HEX: string := "0123456789abcdef"

  function HexChar(n: nat): (ch: char)
    requires n < 16
    ensures IsHexLower(ch)
  {
    HEX[n]
  }

  function HexLower(bytes: Bytes): (s: string)
    ensures |s| == 2 * |bytes|
    ensures forall i :: 0 <= i < |s| ==> IsHexLower(s[i])
  {
    if bytes == [] then [] else HexLower(bytes[..|bytes| - 1]) + HexPair(bytes[|bytes| - 1])
  }

  lemma HexCharInjective(m: nat, n: nat)
    requires m < 16 && n < 16 && HexChar(m) == HexChar(n)
    ensures m == n
  {
  }

  function HexPair(b: Byte): (s: string)
    ensures |s| == 2 && IsHexLower(s[0]) && IsHexLower(s[1])
  {
    [HexChar(b / 16), HexChar(b % 16)]
  }

  lemma HexPairInjective(a: Byte, b: Byte)
    requires HexPair(a) == HexPair(b)
    ensures a == b
  {
    assert HexPair(a)[0] == HexPair(b)[0] && HexPair(a)[1] == HexPair(b)[1];
    HexCharInjective(a / 16, b / 16);
    HexCharInjective(a % 16, b % 16);
  }

  lemma SameSuffixLength<T>(a: seq<T>, b: seq<T>, x: seq<T>, y: seq<T>)
    requires a + x == b + y && |x| == |y|
    ensures a == b && x == y
  {
    assert (a + x)[..|a|] == a && (b + y)[..|b|] == b;
    assert (a + x)[|a|..] == x && (b + y)[|b|..] == y;
  }

  /** Hex loses nothing. */
  lemma {:induction false} HexLowerInjective(a: Bytes, b: Bytes)
    requires HexLower(a) == HexLower(b)
    ensures a == b
  {
    hide HexPair;
    if a != [] {
      var m, n := |a| - 1, |b| - 1;
      SameSuffixLength(HexLower(a[..m]), HexLower(b[..n]), HexPair(a[m]), HexPair(b[n]));
      HexLowerInjective(a[..m], b[..n]);
      HexPairInjective(a[m], b[n]);
      assert a == a[..m] + [a[m]] && b == b[..n] + [b[n]];
    }
  }

  /** The value of a hexadecimal character. */
  function HexValue(ch: char): (n: nat)
    requires IsHexLower(ch)
    ensures n < 16
  {
    if ch <= '9' then ch as int - '0' as int else ch as int - 'a' as int + 10
  }

  lemma HexPairValue(b: Byte)
    ensures 16 * HexValue(HexPair(b)[0]) + HexValue(HexPair(b)[1]) == b
  {
    HexCharValue(b / 16);
    HexCharValue(b % 16);
  }

  lemma HexCharValue(n: nat)
    requires n < 16
    ensures HexValue(HexChar(n)) == n
  {
  }

  /** Each byte is rendered as its two hexadecimal digits, the high one first. */
  lemma {:induction false} HexReadsBack(bytes: Bytes, i: nat)
    requires i < |bytes|
    ensures 16 * HexValue(HexLower(bytes)[2 * i]) + HexValue(HexLower(bytes)[2 * i + 1]) == bytes[i]
  {
    hide HexPair, HexValue;
    var n := |bytes| - 1;
    if i < n {
      HexReadsBack(bytes[..n], i);
    } else {
      HexPairValue(bytes[n]);
    }
  }

  predicate IsHex(s: string) {
    |s| % 2 == 0 && forall i :: 0 <= i < |s| ==> IsHexLower(s[i])
  }

  /** The bytes a hex text stands for. */
  function FromHex(s: string): (bytes: Bytes)
    requires IsHex(s)
    ensures 2 * |bytes| == |s|
  {
    if s == [] then []
    else FromHex(s[..|s| - 2]) + [16 * HexValue(s[|s| - 2]) + HexValue(s[|s| - 1])]
  }

  lemma HexCharOfValue(ch: char)
    requires IsHexLower(ch)
    ensures HexChar(HexValue(ch)) == ch
  {
  }

  lemma HexPairOfText(high: char, low: char)
    requires IsHexLower(high) && IsHexLower(low)
    ensures HexPair(16 * HexValue(high) + HexValue(low)) == [high, low]
  {
    hide HexValue, HexChar;
    HexCharOfValue(high);
    HexCharOfValue(low);
  }

  /** Every lowercase hex text of even length is the rendering of its bytes. */
  lemma {:induction false} HexDecodes(s: string)
    requires IsHex(s)
    ensures HexLower(FromHex(s)) == s
  {
    hide HexValue, HexPair, IsHexLower;
    if s != [] {
      var n := |s| - 2;
      var bytes := FromHex(s);
      HexDecodes(s[..n]);
      HexPairOfText(s[n], s[n + 1]);
      assert bytes[..|bytes| - 1] == FromHex(s[..n]);
      assert s == s[..n] + [s[n], s[n + 1]];
    }
  }

  function HashBytes(c: Crypto, data: Bytes): (d: IntegrityDigest)
    ensures d.algorithm == SHA256
  {
    IntegrityDigest(SHA256, HexLower(c.sha(data)))
  }

  lemma HashDetermines(c: Crypto, inputs: set<Bytes>, a: Bytes, b: Bytes)
    requires CollisionFree(c, inputs) && a in inputs && b in inputs
    requires HashBytes(c, a) == HashBytes(c, b)
    ensures a == b
  {
    HexLowerInjective(c.sha(a), c.sha(b));
  }

  /** The bytes of a hex text. */
  function Ascii(s: HexString): (bytes: Bytes)
    ensures |bytes| == 64
    ensures forall i :: 0 <= i < 64 ==> bytes[i] == s[i] as int && bytes[i] != OPEN_BRACE
  {
    seq(64, i requires 0 <= i < 64 => assert IsHexLower(s[i]); s[i] as int)
  }

  lemma AsciiInjective(s: HexString, t: HexString)
    requires Ascii(s) == Ascii(t)
    ensures s == t
  {
    forall i | 0 <= i < 64 ensures s[i] == t[i] {
      assert Ascii(s)[i] == Ascii(t)[i];
    }
  }

  /** The canonical bytes a record's digest covers: the record with its integrity block cleared. */
  function CanonicalInput(c: Crypto, r: AuditRecord): Bytes {
    c.canon(r.Body())
  }

  /** The standalone digest. */
  function RecordDigest(c: Crypto, r: AuditRecord): IntegrityDigest {
    HashBytes(c, CanonicalInput(c, r))
  }

  function SealStandalone(c: Crypto, r: AuditRecord): AuditRecord {
    r.(integrity := Some(RecordIntegrity(RecordDigest(c, r), None, false)))
  }
}
