/** Option and Result, as used for the program's (value, ok) pairs and error returns. */
module Wrappers {
  datatype Option<+T> = None | Some(value: T)

  datatype Result<+T, +E> = Success(value: T) | Failure(error: E) {
    predicate IsFailure() {
      Failure?
    }

    function PropagateFailure<U>(): Result<U, E>
      requires Failure?
    {
      Failure(error)
    }

    function Extract(): T
      requires Success?
    {
      value
    }
  }
}

/** Bytes, little-endian integers and the hexadecimal text the node uses for scripts and ids. */
module Bytes {
  import opened Wrappers

  type Byte = b: int | 0 <= b < 256

  const U32_LIMIT: nat := 0x1_0000_0000

  type Uint32 = n: int | 0 <= n < U32_LIMIT

  function LE16(n: nat): (r: seq<Byte>)
    requires n < 0x1_0000
    ensures |r| == 2
  {
    [n % 256, n / 256]
  }

  function FromLE16(b: seq<Byte>): (n: nat)
    requires |b| == 2
    ensures n < 0x1_0000
  {
    (b[0] as int) + 256 * (b[1] as int)
  }

  function LE32(n: Uint32): (r: seq<Byte>)
    ensures |r| == 4
  {
    LE16(n % 0x1_0000) + LE16(n / 0x1_0000)
  }

  function FromLE32(b: seq<Byte>): (n: Uint32)
    requires |b| == 4
  {
    FromLE16(b[..2]) + 0x1_0000 * FromLE16(b[2..])
  }

  lemma LE32RoundTrip(n: Uint32, b: seq<Byte>)
    requires |b| == 4
    ensures FromLE32(LE32(n)) == n
    ensures LE32(FromLE32(b)) == b
  {
    var lo, hi := FromLE16(b[..2]), FromLE16(b[2..]);
    assert FromLE32(b) % 0x1_0000 == lo && FromLE32(b) / 0x1_0000 == hi;
  }

  /** The value of one hexadecimal digit in either case, or -1. */
  function HexValue(c: char): (v: int)
    ensures -1 <= v < 16
  {
    if '0' <= c <= '9' then c as int - '0' as int
    else if 'a' <= c <= 'f' then c as int - 'a' as int + 10
    else if 'A' <= c <= 'F' then c as int - 'A' as int + 10
    else -1
  }

  function HexDigit(v: int): (c: char)
    requires 0 <= v < 16
    ensures HexValue(c) == v
  {
    "0123456789abcdef"[v]
  }

  /** Odd lengths and foreign characters are refused, as hex.DecodeString refuses them. */
  function DecodeHex(s: string): Option<seq<Byte>> {
    if s == [] then Some([])
    else if |s| == 1 || HexValue(s[0]) < 0 || HexValue(s[1]) < 0 then None
    else
      match DecodeHex(s[2..])
      case None => None
      case Some(rest) => Some([16 * HexValue(s[0]) + HexValue(s[1])] + rest)
  }

  /** A character has a value exactly when it is that digit in one of the two cases. */
  lemma HexValueExactly(c: char, v: int)
    requires 0 <= v < 16
    ensures HexValue(c) == v <==> c == "0123456789abcdef"[v] || c == "0123456789ABCDEF"[v]
  {
  }

  /** Two digits of a byte, the greater one first. */
  predicate HexPair(hi: char, lo: char, v: Byte) {
    HexValue(hi) >= 0 && HexValue(lo) >= 0 && v == 16 * HexValue(hi) + HexValue(lo)
  }

  ghost predicate IsHexOf(s: string, b: seq<Byte>) {
    |s| == 2 * |b| && forall i :: 0 <= i < |b| ==> HexPair(s[2 * i], s[2 * i + 1], b[i])
  }

  lemma HexOfRest(s: string, b: seq<Byte>)
    requires |s| >= 2 && b != []
    ensures IsHexOf(s, b) <==> HexPair(s[0], s[1], b[0]) && IsHexOf(s[2..], b[1..])
  {
    hide HexPair;
    if IsHexOf(s, b) {
      assert HexPair(s[2 * 0], s[2 * 0 + 1], b[0]);
      forall i | 0 <= i < |b[1..]|
        ensures HexPair(s[2..][2 * i], s[2..][2 * i + 1], b[1..][i])
      {
        assert HexPair(s[2 * (i + 1)], s[2 * (i + 1) + 1], b[i + 1]);
      }
    }
    if HexPair(s[0], s[1], b[0]) && IsHexOf(s[2..], b[1..]) {
      forall i | 0 <= i < |b|
        ensures HexPair(s[2 * i], s[2 * i + 1], b[i])
      {
        if i > 0 {
          assert HexPair(s[2..][2 * (i - 1)], s[2..][2 * (i - 1) + 1], b[1..][i - 1]);
        }
      }
    }
  }

  /** Text decodes to some bytes exactly when it has two digits for each. */
  lemma {:induction false} DecodeHexExactly(s: string, b: seq<Byte>)
    ensures DecodeHex(s) == Some(b) <==> IsHexOf(s, b)
    decreases |s|
  {
    hide HexValue, IsHexOf;
    if |s| < 2 || b == [] {
      ShortHex(s, b);
    } else {
      HexOfRest(s, b);
      DecodeHexExactly(s[2..], b[1..]);
      HexHead(s, b);
    }
  }

  lemma ShortHex(s: string, b: seq<Byte>)
    requires |s| < 2 || b == []
    ensures DecodeHex(s) == Some(b) <==> IsHexOf(s, b)
  {
  }

  lemma HexHead(s: string, b: seq<Byte>)
    requires |s| >= 2 && b != []
    ensures DecodeHex(s) == Some(b) <==> HexPair(s[0], s[1], b[0]) && DecodeHex(s[2..]) == Some(b[1..])
  {
    hide HexValue;
    assert b == [b[0]] + b[1..];
  }

  function EncodeHex(b: seq<Byte>): string {
    if b == [] then [] else [HexDigit(b[0] / 16), HexDigit(b[0] % 16)] + EncodeHex(b[1..])
  }

  lemma {:induction false} HexRoundTrip(b: seq<Byte>)
    ensures DecodeHex(EncodeHex(b)) == Some(b)
  {
    if b != [] {
      HexRoundTrip(b[1..]);
      assert EncodeHex(b)[2..] == EncodeHex(b[1..]);
      assert [b[0]] + b[1..] == b;
    }
  }

  function Reverse(b: seq<Byte>): (r: seq<Byte>)
    ensures |r| == |b|
    ensures forall i :: 0 <= i < |b| ==> r[i] == b[|b| - 1 - i]
  {
    if b == [] then [] else Reverse(b[1..]) + [b[0]]
  }

  /** The bytes of an ASCII constant. */
  function Ascii(s: string): seq<Byte> {
    seq(|s|, i requires 0 <= i < |s| => (s[i] as int) % 256)
  }
}
