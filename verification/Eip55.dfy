/**
 The mixed-case checksum of addresses (EIP-55, "Specification").

 The hash (Keccak-256) is a parameter. Strings are taken as ASCII.
 */
module Eip55 {
  import opened Wrappers

  type Hash = seq<bv8>

  /** Keccak-256: 32 bytes for every string. */
  type Hasher = h: string -> Hash | forall s :: |h(s)| == 32 witness s => seq(32, i => 0)

  // ---------------------------------------------------------------------------------------
  // Characters
  // ---------------------------------------------------------------------------------------

  predicate IsDigit(c: char) {
    '0' <= c <= '9'
  }

  function LowerChar(c: char): char {
    if 'A' <= c <= 'Z' then c - 'A' + 'a' else c
  }

  function UpperChar(c: char): char {
    if 'a' <= c <= 'z' then c - 'a' + 'A' else c
  }

  function Lower(s: string): (r: string)
    ensures |r| == |s| && forall i :: 0 <= i < |s| ==> r[i] == LowerChar(s[i])
  {
    seq(|s|, i requires 0 <= i < |s| => LowerChar(s[i]))
  }

  predicate HasPrefix(s: string) {
    |s| >= 2 && s[0] == '0' && s[1] == 'x'
  }

  // ---------------------------------------------------------------------------------------
  // The checksum
  // ---------------------------------------------------------------------------------------

  /** The lower-cased address without its prefix. */
  function Body(addr: string): string {
    var lower := Lower(addr);
    if HasPrefix(lower) then lower[2..] else lower
  }

  /** Bit k of the hash, bit 0 being the most significant one of the first byte. */
  predicate Bit(hash: Hash, k: nat)
    requires k < 8 * |hash|
  {
    (hash[k / 8] >> (7 - k % 8)) % 2 == 1
  }

  /** The i-th digit of an address: a letter is upper case exactly if bit 4i is set. */
  function Cased(hash: Hash, i: nat, c: char): char
    requires IsDigit(c) || i < 2 * |hash|
  {
    if IsDigit(c) then c else if Bit(hash, 4 * i) then UpperChar(c) else LowerChar(c)
  }

  ghost predicate IsChecksum(hash: Hash, body: string, r: string) {
    && |r| == |body| + 2 && r[..2] == "0x"
    && forall i :: 0 <= i < |body| ==> (IsDigit(body[i]) || i < 2 * |hash|) && r[i + 2] == Cased(hash, i, body[i])
  }

  lemma ChecksumExtends(hash: Hash, body: string, i: nat, r: string)
    requires i < |body| && IsChecksum(hash, body[..i], r)
    requires IsDigit(body[i]) || i < 2 * |hash|
    ensures IsChecksum(hash, body[..i + 1], r + [Cased(hash, i, body[i])])
  {
    var s := r + [Cased(hash, i, body[i])];
    assert s[..2] == r[..2];
    forall k | 0 <= k < i + 1 ensures s[k + 2] == Cased(hash, k, body[k]) && (IsDigit(body[k]) || k < 2 * |hash|) {
      assert k < i ==> body[..i][k] == body[k];
    }
  }

  /** The checksum form of an address; `None` where the program fails for a long string with letters. */
  ghost predicate HasChecksum(hasher: Hasher, addr: string, r: Option<string>) {
    var body := Body(addr);
    if forall i :: 64 <= i < |body| ==> IsDigit(body[i]) then
      r.Some? && IsChecksum(hasher(body), body, r.value)
    else r.None?
  }

  /** The bit that decides the case of digit i, as a mask of its byte. */
  predicate IsUpper(hash: Hash, i: nat)
    requires i < 2 * |hash|
    ensures IsUpper(hash, i) <==> Bit(hash, 4 * i)
  {
    assert 4 * i / 8 == i / 2;
    var b := hash[i / 2];
    assert i % 2 == 0 ==> 4 * i % 8 == 0 && (b & ((1 as bv8) << 7) != 0 <==> (b >> 7) % 2 == 1);
    assert i % 2 == 1 ==> 4 * i % 8 == 4 && (b & ((1 as bv8) << 3) != 0 <==> (b >> 3) % 2 == 1);
    b & ((1 as bv8) << (7 - 4 * (i % 2))) != 0
  }

  /** The i-th digit as the program computes it. */
  function CasedByMask(hash: Hash, i: nat, c: char): (r: char)
    requires IsDigit(c) || i < 2 * |hash|
    ensures r == Cased(hash, i, c)
  {
    if IsDigit(c) then c else if IsUpper(hash, i) then UpperChar(c) else LowerChar(c)
  }

  method ChecksumAddress(hasher: Hasher, addr: string) returns (r: Option<string>)
    ensures HasChecksum(hasher, addr, r)
  {
    var body := Lower(addr);
    if HasPrefix(body) {
      body := body[2..];
    }
    assert body == Body(addr);
    var hash := hasher(body);
    var result := "0x";
    for i := 0 to |body|
      invariant IsChecksum(hash, body[..i], result)
      invariant forall k :: 64 <= k < i ==> IsDigit(body[k])
    {
      var c := body[i];
      if !IsDigit(c) && i >= 2 * |hash| {
        assert i >= 64 && !IsDigit(body[i]);
        return None;
      }
      ChecksumExtends(hash, body, i, result);
      result := result + [CasedByMask(hash, i, c)];
    }
    assert body[..|body|] == body;
    return Some(result);
  }

  // ---------------------------------------------------------------------------------------
  // Parsing
  // ---------------------------------------------------------------------------------------

  type Byte = b: nat | b < 256
  type Address = a: seq<Byte> | |a| == 20 witness seq(20, i => 0)

  function Nibble(c: char): Option<nat> {
    if '0' <= c <= '9' then Some((c - '0') as nat)
    else if 'a' <= c <= 'f' then Some((c - 'a') as nat + 10)
    else if 'A' <= c <= 'F' then Some((c - 'A') as nat + 10)
    else None
  }

  function HexDigit(n: nat): (c: char)
    requires n < 16
    ensures Nibble(c) == Some(n) && LowerChar(c) == c
  {
    if n < 10 then '0' + n as char else 'a' + (n - 10) as char
  }

  ghost predicate IsHex(s: string) {
    |s| == 40 && forall i :: 0 <= i < 40 ==> Nibble(s[i]).Some?
  }

  /** The digits of the bytes, the high one first. */
  function DigitAt(bytes: seq<Byte>, i: nat): nat
    requires i < 2 * |bytes|
  {
    if i % 2 == 0 then bytes[i / 2] / 16 else bytes[i / 2] % 16
  }

  ghost predicate Denotes(s: string, a: Address) {
    |s| == 40 && forall i :: 0 <= i < 40 ==> Nibble(s[i]) == Some(DigitAt(a, i))
  }

  /** The parser of hexadecimal strings; what it makes of strings of other lengths than 40 is a parameter. */
  type Others = string -> Option<Address>

  ghost predicate Parses(others: Others, s: string, r: Option<Address>) {
    if |s| != 40 then r == others(s)
    else (r.Some? <==> IsHex(s)) && (r.Some? ==> Denotes(s, r.value))
  }

  method FromHex(others: Others, s: string) returns (r: Option<Address>)
    ensures Parses(others, s, r)
  {
    if |s| != 40 {
      return others(s);
    }
    var bytes: seq<Byte> := [];
    for k := 0 to 20
      invariant |bytes| == k
      invariant forall i :: 0 <= i < 2 * k ==> Nibble(s[i]) == Some(DigitAt(bytes, i))
    {
      var hi, lo := Nibble(s[2 * k]), Nibble(s[2 * k + 1]);
      if hi.None? || lo.None? {
        return None;
      }
      bytes := bytes + [16 * hi.value + lo.value];
    }
    return Some(bytes);
  }

  /** `IndexOutOfRange` is where the program fails, for a long string with letters. */
  datatype AddressError = NoPrefix | NotHex | BadChecksum | IndexOutOfRange

  method AddrFromStr(others: Others, s: string) returns (r: Result<Address, AddressError>)
    ensures r == Err(NoPrefix) <==> !HasPrefix(s)
    ensures r == Err(NotHex) <==> HasPrefix(s) && Parses(others, s[2..], None)
    ensures r.Ok? ==> Parses(others, s[2..], Some(r.value))
    ensures r.Ok? || r == Err(NoPrefix) || r == Err(NotHex)
  {
    if !HasPrefix(s) {
      return Err(NoPrefix);
    }
    var a := FromHex(others, s[2..]);
    if a.None? {
      return Err(NotHex);
    }
    ParsesOnce(others, s[2..], a, None);
    return Ok(a.value);
  }

  /** The string is a valid spelling of the address. */
  ghost predicate IsValid(hasher: Hasher, others: Others, s: string, a: Address) {
    HasPrefix(s) && Parses(others, s[2..], Some(a)) && HasChecksum(hasher, s, Some(s))
  }

  method ValidAddrFromStr(hasher: Hasher, others: Others, s: string) returns (r: Result<Address, AddressError>)
    ensures r.Ok? ==> IsValid(hasher, others, s, r.value)
    ensures r == Err(NoPrefix) <==> !HasPrefix(s)
    ensures r == Err(NotHex) <==> HasPrefix(s) && Parses(others, s[2..], None)
    ensures r == Err(IndexOutOfRange) <==>
      HasPrefix(s) && !Parses(others, s[2..], None) && HasChecksum(hasher, s, None)
    ensures r == Err(BadChecksum) ==> !HasChecksum(hasher, s, Some(s))
  {
    r := AddrFromStr(others, s);
    if r.Err? {
      return;
    }
    ParsesOnce(others, s[2..], Some(r.value), None);
    var checksum := ChecksumAddress(hasher, s);
    ChecksumIsUnique(hasher, s, s, checksum, Some(s));
    ChecksumIsUnique(hasher, s, s, checksum, None);
    if checksum.None? {
      return Err(IndexOutOfRange);
    }
    if checksum != Some(s) {
      return Err(BadChecksum);
    }
  }

  // ---------------------------------------------------------------------------------------
  // Properties
  // ---------------------------------------------------------------------------------------

  /** A letter of an address is upper case in the checksum form exactly if bit 4i of the hash is 1. */
  lemma LettersFollowTheHash(hasher: Hasher, addr: string, r: string, i: nat)
    requires HasChecksum(hasher, addr, Some(r)) && i < |Body(addr)| && 'a' <= Body(addr)[i] <= 'z'
    ensures i < 64 && |r| == |Body(addr)| + 2
    ensures Bit(hasher(Body(addr)), 4 * i) ==> 'A' <= r[i + 2] <= 'Z' && r[i + 2] as int + 32 == Body(addr)[i] as int
    ensures !Bit(hasher(Body(addr)), 4 * i) ==> r[i + 2] == Body(addr)[i]
  {
    assert !IsDigit(Body(addr)[i]);
  }

  /** Bit 8n + j is bit j of byte n, the most significant bit first. */
  lemma BitsAre(hash: Hash, n: nat, j: nat)
    requires n < |hash| && j < 8
    ensures Bit(hash, 8 * n + j) <==> hash[n] & [0x80, 0x40, 0x20, 0x10, 0x08, 0x04, 0x02, 0x01][j] != 0
  {
    assert (8 * n + j) / 8 == n && (8 * n + j) % 8 == j;
    var b := hash[n];
    if j < 4 {
      HighBits(b);
    } else {
      LowBits(b);
    }
  }

  lemma HighBits(b: bv8)
    ensures (b >> 7) % 2 == 1 <==> b & 0x80 != 0
    ensures (b >> 6) % 2 == 1 <==> b & 0x40 != 0
    ensures (b >> 5) % 2 == 1 <==> b & 0x20 != 0
    ensures (b >> 4) % 2 == 1 <==> b & 0x10 != 0
  {
  }

  lemma LowBits(b: bv8)
    ensures (b >> 3) % 2 == 1 <==> b & 0x08 != 0
    ensures (b >> 2) % 2 == 1 <==> b & 0x04 != 0
    ensures (b >> 1) % 2 == 1 <==> b & 0x02 != 0
    ensures (b >> 0) % 2 == 1 <==> b & 0x01 != 0
  {
  }

  /** The digits and their values. */
  lemma NibblesAre(n: nat)
    requires n < 16
    ensures Nibble("0123456789abcdef"[n]) == Some(n) && Nibble("0123456789ABCDEF"[n]) == Some(n)
  {
    var lower, upper := "0123456789abcdef", "0123456789ABCDEF";
    assert lower[n] == if n < 10 then '0' + n as char else 'a' + (n - 10) as char;
    assert upper[n] == if n < 10 then '0' + n as char else 'A' + (n - 10) as char;
  }

  /** The bytes of an address, two digits each. */
  lemma BytesAre(s: string, a: Address, k: nat)
    requires Denotes(s, a) && k < 20
    ensures Nibble(s[2 * k]).Some? && Nibble(s[2 * k + 1]).Some?
    ensures a[k] == 16 * Nibble(s[2 * k]).value + Nibble(s[2 * k + 1]).value
  {
    assert Nibble(s[2 * k]) == Some(DigitAt(a, 2 * k)) && Nibble(s[2 * k + 1]) == Some(DigitAt(a, 2 * k + 1));
  }

  /** A string is parsed in one way. */
  lemma ParsesOnce(others: Others, s: string, q: Option<Address>, r: Option<Address>)
    ensures Parses(others, s, q) && Parses(others, s, r) ==> q == r
  {
    if |s| == 40 && q.Some? && r.Some? && Denotes(s, q.value) && Denotes(s, r.value) {
      SameBytes(s, q.value, r.value);
    }
  }

  lemma SameBytes(s: string, a: Address, b: Address)
    requires Denotes(s, a) && Denotes(s, b)
    ensures a == b
  {
    forall k | 0 <= k < 20 ensures a[k] == b[k] {
      assert Nibble(s[2 * k]) == Some(a[k] / 16) == Some(b[k] / 16);
      assert Nibble(s[2 * k + 1]) == Some(a[k] % 16) == Some(b[k] % 16);
    }
  }

  /** The checksum form depends only on the lower-cased address without its prefix. */
  lemma ChecksumIsUnique(hasher: Hasher, x: string, y: string, r: Option<string>, s: Option<string>)
    requires Body(x) == Body(y)
    ensures HasChecksum(hasher, x, r) && HasChecksum(hasher, y, s) ==> r == s
  {
    if HasChecksum(hasher, x, r) && HasChecksum(hasher, y, s) && r.Some? {
      var b, u, v := Body(x), r.value, s.value;
      forall i | 0 <= i < |u| ensures u[i] == v[i] {
        if i < 2 {
          assert u[i] == u[..2][i] && v[i] == v[..2][i];
        } else {
          var k := i - 2;
          assert u[k + 2] == v[k + 2] by {
            assert IsDigit(b[k]) || !IsDigit(b[k]);
          }
        }
      }
      assert u == v;
    }
  }

  /** The checksum form has the same lower-cased address. */
  lemma ChecksumKeepsBody(hasher: Hasher, x: string, r: string)
    requires HasChecksum(hasher, x, Some(r))
    ensures Body(r) == Body(x)
  {
    var body := Body(x);
    assert r[0] == r[..2][0] && r[1] == r[..2][1];
    forall i | 0 <= i < |body| ensures Lower(r)[2..][i] == body[i] {
      assert LowerChar(body[i]) == body[i];
      assert Lower(r)[2..][i] == LowerChar(r[i + 2]);
    }
    assert Lower(r)[2..] == body;
  }

  /** The checksum form of a checksum form is itself. */
  lemma ChecksumIsIdempotent(hasher: Hasher, x: string, r: string)
    requires HasChecksum(hasher, x, Some(r))
    ensures HasChecksum(hasher, r, Some(r))
  {
    ChecksumKeepsBody(hasher, x, r);
  }

  /** The lower-case spelling of an address, without prefix. */
  function ToHex(a: Address): (s: string)
    ensures Denotes(s, a) && Lower(s) == s
  {
    seq(40, i requires 0 <= i < 40 => HexDigit(DigitAt(a, i)))
  }

  lemma SameDigits(s: string, t: string, a: Address)
    requires Denotes(s, a) && Denotes(t, a)
    ensures Lower(t) == Lower(s)
  {
    forall i | 0 <= i < 40 ensures LowerChar(t[i]) == LowerChar(s[i]) {
      assert Nibble(t[i]) == Nibble(s[i]);
    }
  }

  lemma SameAddress(s: string, t: string, a: Address)
    requires Denotes(s, a) && Lower(t) == Lower(s)
    ensures Denotes(t, a)
  {
    forall i | 0 <= i < 40 ensures Nibble(t[i]) == Nibble(s[i]) {
      assert Lower(t)[i] == Lower(s)[i];
    }
  }

  /** Two spellings denote the same address exactly when they differ at most in case. */
  lemma DenotesIff(s: string, t: string, a: Address)
    requires Denotes(s, a)
    ensures Denotes(t, a) <==> Lower(t) == Lower(s)
  {
    if Denotes(t, a) {
      SameDigits(s, t, a);
    }
    if Lower(t) == Lower(s) {
      SameAddress(s, t, a);
    }
  }

  lemma NoPrefixInHex(s: string, a: Address)
    requires Denotes(s, a)
    ensures !HasPrefix(Lower(s))
  {
    assert Nibble(s[1]) == Some(DigitAt(a, 1));
  }

  lemma SomeChecksum(hasher: Hasher, addr: string) returns (s: string)
    requires |Body(addr)| <= 64
    ensures HasChecksum(hasher, addr, Some(s))
  {
    var body := Body(addr);
    var hash := hasher(body);
    s := "0x" + seq(|body|, i requires 0 <= i < |body| =>
      if IsDigit(body[i]) then body[i] else if Bit(hash, 4 * i) then UpperChar(body[i]) else LowerChar(body[i]));
  }

  /** The lower-cased address of a spelling is the lower-case spelling. */
  lemma BodyOfSpelling(s: string, a: Address)
    requires HasPrefix(s)
    ensures Denotes(s[2..], a) <==> Body(s) == ToHex(a)
  {
    assert Lower(s)[2..] == Lower(s[2..]);
    DenotesIff(ToHex(a), s[2..], a);
  }

  /**
   Of the strings of 42 characters exactly one is a valid spelling of an address, whatever the parser
   makes of other strings.
   */
  lemma OneValidSpelling(hasher: Hasher, others: Others, a: Address)
    ensures exists s :: |s| == 42 && IsValid(hasher, others, s, a)
                        && forall t :: |t| == 42 && IsValid(hasher, others, t, a) ==> t == s
  {
    var hex := ToHex(a);
    NoPrefixInHex(hex, a);
    assert Body(hex) == hex;
    var s := SomeChecksum(hasher, hex);
    ChecksumKeepsBody(hasher, hex, s);
    ChecksumIsIdempotent(hasher, hex, s);
    assert s[0] == s[..2][0] && s[1] == s[..2][1];
    BodyOfSpelling(s, a);
    DenotedIsHex(s[2..], a);
    assert IsValid(hasher, others, s, a);
    forall t | |t| == 42 && IsValid(hasher, others, t, a) ensures t == s {
      BodyOfSpelling(t, a);
      ChecksumIsUnique(hasher, s, t, Some(s), Some(t));
    }
  }

  lemma DenotedIsHex(s: string, a: Address)
    requires Denotes(s, a)
    ensures IsHex(s)
  {
  }
}
