/** Hex-string classification and zero-padding helpers of the payment
    library's crypto package.

    A Go `string` is a sequence of bytes; it is modelled as a `string`
    (`seq<char>`) in which every char stands for one byte. Byte slices are
    sequences of `Byte`. */
module Hex {
  import opened Results

  type Byte = b: int | 0 <= b < 256

  /** The characters a hexadecimal digit may be written with, in both cases:
      an independent reference for `IsHexCharacter`. */
  const HEX_DIGITS: set<char> := set c | c in "0123456789abcdefABCDEF"

  /** The 24 '0' characters (twelve zero bytes in hex) that turn a 40-digit
      address into a 64-digit, 32-byte word. */
  const ADDRESS_PADDING: string := "000000000000000000000000"

  /** The only prefix `EnsureNoPrefix` strips. */
  const HEX_PREFIX: string := "0x"

  // ---------------------------------------------------------------------
  // Classification
  // ---------------------------------------------------------------------

  /** A decimal digit or a letter a-f in either case. */
  predicate IsHexCharacter(c: char)
  {
    ('0' <= c <= '9') || ('a' <= c <= 'f') || ('A' <= c <= 'F')
  }

  /** The three ranges are exactly the 22 hex digits. */
  lemma IsHexCharacterMeansHexDigit(c: char)
    ensures IsHexCharacter(c) <==> c in HEX_DIGITS
  {
  }

  /** A well-formed hex string: an even number of hex characters. */
  ghost predicate HexString(s: string)
  {
    |s| % 2 == 0 && forall i :: 0 <= i < |s| ==> IsHexCharacter(s[i])
  }

  /** Checks the length parity first, then every byte in order, returning at
      the first byte that is not a hex character. */
  method IsHex(str: string) returns (r: bool)
    ensures r <==> HexString(str)
    ensures str == [] ==> r
    ensures |str| % 2 == 1 ==> !r
  {
    if |str| % 2 != 0 {
      return false;
    }
    for i := 0 to |str|
      invariant forall j :: 0 <= j < i ==> IsHexCharacter(str[j])
    {
      if !IsHexCharacter(str[i]) {
        return false;
      }
    }
    return true;
  }

  // ---------------------------------------------------------------------
  // Prefix stripping and lower-casing
  // ---------------------------------------------------------------------

  predicate HasHexPrefix(s: string)
  {
    |s| >= 2 && s[..2] == HEX_PREFIX
  }

  /** `strings.TrimPrefix(address, "0x")`: one lower-case prefix at most. */
  function EnsureNoPrefix(address: string): (r: string)
    ensures HasHexPrefix(address) ==> address == HEX_PREFIX + r
    ensures !HasHexPrefix(address) ==> r == address
    ensures |r| == if HasHexPrefix(address) then |address| - 2 else |address|
  {
    if HasHexPrefix(address) then address[2..] else address
  }

  /** Stripping undoes prepending the prefix, whatever follows it, so only
      one prefix is removed from "0x0x…". */
  lemma StripAddedPrefix(t: string)
    ensures EnsureNoPrefix(HEX_PREFIX + t) == t
  {
  }

  /** An upper-case "0X" prefix is left in place. */
  lemma UpperPrefixKept(t: string)
    ensures EnsureNoPrefix("0X" + t) == "0X" + t
  {
  }

  predicate IsUpper(c: char)
  {
    'A' <= c <= 'Z'
  }

  /** ASCII lower-casing of one byte. */
  function LowerChar(c: char): (r: char)
    ensures !IsUpper(r)
    ensures IsUpper(c) ==> r as int == c as int + 32
    ensures !IsUpper(c) ==> r == c
  {
    if IsUpper(c) then (c as int + 32) as char else c
  }

  /** `strings.ToLower` on a string of ASCII bytes. */
  function ToLower(s: string): (r: string)
    ensures |r| == |s|
    ensures forall i :: 0 <= i < |s| ==> r[i] == LowerChar(s[i])
  {
    seq(|s|, i requires 0 <= i < |s| => LowerChar(s[i]))
  }

  // ---------------------------------------------------------------------
  // toBytes32
  // ---------------------------------------------------------------------

  datatype AddressError = NotHexAddress

  /** Renders an address as a 32-byte word in lower-case hex: the address
      predicate (go-ethereum's `IsHexAddress`, passed in as `isHexAddress`)
      must accept it; the "0x" prefix is dropped and 24 '0' characters
      prepended. */
  function ToBytes32(isHexAddress: string -> bool, address: string): (r: Result<string, AddressError>)
    ensures r.Failure? <==> !isHexAddress(address)
    ensures r.Success? ==>
      var digits := EnsureNoPrefix(address);
      && |r.value| == |ADDRESS_PADDING| + |digits|
      && r.value[..|ADDRESS_PADDING|] == ADDRESS_PADDING
      && (forall i :: 0 <= i < |digits| ==> r.value[|ADDRESS_PADDING| + i] == LowerChar(digits[i]))
      && (forall i :: 0 <= i < |r.value| ==> !IsUpper(r.value[i]))
  {
    if !isHexAddress(address) then
      Failure(NotHexAddress)
    else
      var res := ToLower(ADDRESS_PADDING + EnsureNoPrefix(address));
      assert forall i :: 0 <= i < |ADDRESS_PADDING| ==> res[i] == ADDRESS_PADDING[i];
      Success(res)
  }

  // ---------------------------------------------------------------------
  // Pad
  // ---------------------------------------------------------------------

  function Zeros(n: nat): (z: seq<Byte>)
    ensures |z| == n
    ensures forall i :: 0 <= i < n ==> z[i] == 0
  {
    seq(n, _ => 0)
  }

  /** Left-pads `b` with zero bytes up to `size`; a slice that is already
      long enough (including every slice when `size` is not positive) is
      returned as it is. */
  function Pad(b: seq<Byte>, size: int): (r: seq<Byte>)
    ensures |b| >= size ==> r == b
    ensures |b| < size ==>
      && |r| == size
      && r[size - |b|..] == b
      && (forall i :: 0 <= i < size - |b| ==> r[i] == 0)
  {
    if |b| >= size then b else Zeros(size - |b|) + b
  }

  /** Big-endian unsigned value of a byte string. */
  function BigEndian(s: seq<Byte>): nat
  {
    if s == [] then 0 else BigEndian(s[..|s| - 1]) * 256 + s[|s| - 1]
  }

  lemma {:induction false} ZerosValue(n: nat)
    ensures BigEndian(Zeros(n)) == 0
  {
    if n > 0 {
      assert Zeros(n)[..n - 1] == Zeros(n - 1);
      ZerosValue(n - 1);
    }
  }

  lemma {:induction false} LeadingZerosValue(k: nat, b: seq<Byte>)
    ensures BigEndian(Zeros(k) + b) == BigEndian(b)
    decreases |b|
  {
    if b == [] {
      assert Zeros(k) + b == Zeros(k);
      ZerosValue(k);
    } else {
      var s := Zeros(k) + b;
      assert s[..|s| - 1] == Zeros(k) + b[..|b| - 1];
      LeadingZerosValue(k, b[..|b| - 1]);
    }
  }

  /** Padding never changes the number a byte string encodes. */
  lemma PadPreservesValue(b: seq<Byte>, size: int)
    ensures BigEndian(Pad(b, size)) == BigEndian(b)
    ensures |Pad(b, size)| == if |b| >= size then |b| else size
  {
    if |b| < size {
      LeadingZerosValue(size - |b|, b);
    }
  }

  /** Padding to a size twice is padding once. */
  lemma PadIdempotent(b: seq<Byte>, size: int)
    ensures Pad(Pad(b, size), size) == Pad(b, size)
  {
  }

  // ---------------------------------------------------------------------
  // Hex decoding, to state what toBytes32 means as bytes
  // ---------------------------------------------------------------------

  function HexValue(c: char): (v: Byte)
    requires IsHexCharacter(c)
    ensures v < 16
  {
    if '0' <= c <= '9' then c as int - '0' as int
    else if 'a' <= c <= 'f' then c as int - 'a' as int + 10
    else c as int - 'A' as int + 10
  }

  /** Decodes a well-formed hex string, two characters per byte, most
      significant digit first; letters of either case are accepted. */
  function HexDecode(s: string): (b: seq<Byte>)
    requires HexString(s)
    ensures |b| == |s| / 2
  {
    if s == [] then [] else [HexValue(s[0]) * 16 + HexValue(s[1])] + HexDecode(s[2..])
  }

  lemma HexStringAppend(a: string, b: string)
    requires HexString(a) && HexString(b)
    ensures HexString(a + b)
  {
  }

  lemma {:induction false} HexDecodeAppend(a: string, b: string)
    requires HexString(a) && HexString(b)
    ensures HexString(a + b)
    ensures HexDecode(a + b) == HexDecode(a) + HexDecode(b)
    decreases |a|
  {
    HexStringAppend(a, b);
    if a == [] {
      assert a + b == b;
    } else {
      var ab := a + b;
      assert ab[2..] == a[2..] + b;
      HexDecodeAppend(a[2..], b);
      assert ab[0] == a[0] && ab[1] == a[1];
    }
  }

  lemma {:induction false} LowerKeepsHex(s: string)
    requires HexString(s)
    ensures HexString(ToLower(s))
    ensures HexDecode(ToLower(s)) == HexDecode(s)
    decreases |s|
  {
    var l := ToLower(s);
    assert HexString(l) by {
      forall i | 0 <= i < |l|
        ensures IsHexCharacter(l[i])
      {
        assert IsHexCharacter(s[i]);
      }
    }
    if s != [] {
      assert l[2..] == ToLower(s[2..]);
      LowerKeepsHex(s[2..]);
      assert HexValue(l[0]) == HexValue(s[0]);
      assert HexValue(l[1]) == HexValue(s[1]);
    }
  }

  lemma {:induction false} ZeroDigitsDecode(n: nat)
    requires HexString(seq(2 * n, _ => '0'))
    ensures HexDecode(seq(2 * n, _ => '0')) == Zeros(n)
  {
    if n > 0 {
      var s: string := seq(2 * n, _ => '0');
      assert s[2..] == seq(2 * (n - 1), _ => '0');
      ZeroDigitsDecode(n - 1);
    }
  }

  /** For an address whose digits after the prefix are 40 hex characters,
      the successful result is a 64-digit lower-case hex string, and it
      decodes to the 20 address bytes left-padded to 32 bytes. */
  lemma {:induction false} ToBytes32IsPaddedWord(isHexAddress: string -> bool, address: string)
    requires isHexAddress(address)
    requires |EnsureNoPrefix(address)| == 40 && HexString(EnsureNoPrefix(address))
    ensures ToBytes32(isHexAddress, address).Success?
    ensures |ToBytes32(isHexAddress, address).value| == 64
    ensures HexString(ToBytes32(isHexAddress, address).value)
    ensures HexDecode(ToBytes32(isHexAddress, address).value) == Pad(HexDecode(EnsureNoPrefix(address)), 32)
  {
    var digits := EnsureNoPrefix(address);
    assert ADDRESS_PADDING == seq(2 * 12, _ => '0');
    ZeroDigitsDecode(12);
    HexDecodeAppend(ADDRESS_PADDING, digits);
    LowerKeepsHex(ADDRESS_PADDING + digits);
  }
}
