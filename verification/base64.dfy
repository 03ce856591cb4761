/** Base 64 encoding with padding, as defined in section 4 of RFC 4648
    (the alphabet `A-Z a-z 0-9 + /`, pad character `=`); this is what
    Python's `base64.b64encode` produces. The decoder is the reference
    partner against which the encoder is proved lossless. */
module Base64 {
  import opened Wrappers

  type byte = x: int | 0 <= x < 256
  type sextet = x: int | 0 <= x < 64

  const Pad: char := '='

  /** Table 1 of RFC 4648: the character for a 6-bit value. */
  function CharOf(v: sextet): char {
    if v < 26 then ('A' as int + v) as char
    else if v < 52 then ('a' as int + (v - 26)) as char
    else if v < 62 then ('0' as int + (v - 52)) as char
    else if v == 62 then '+'
    else '/'
  }

  /** Inverse of Table 1; `None` for the pad and for characters outside the alphabet. */
  function ValueOf(c: char): (r: Option<sextet>)
    ensures r.Some? ==> CharOf(r.value) == c
  {
    if 'A' <= c <= 'Z' then Some(c as int - 'A' as int)
    else if 'a' <= c <= 'z' then Some(c as int - 'a' as int + 26)
    else if '0' <= c <= '9' then Some(c as int - '0' as int + 52)
    else if c == '+' then Some(62)
    else if c == '/' then Some(63)
    else None
  }

  predicate InAlphabet(c: char) {
    ValueOf(c).Some?
  }

  lemma ValueOfCharOf(v: sextet)
    ensures ValueOf(CharOf(v)) == Some(v)
  {
  }

  /** Three octets become four characters (the general case of section 4 of RFC 4648). */
  function EncodeTriple(a: byte, b: byte, c: byte): string {
    [CharOf(a / 4), CharOf((a % 4) * 16 + b / 16), CharOf((b % 16) * 4 + c / 64), CharOf(c % 64)]
  }

  /** A final quantum of 16 bits: three characters and one pad. */
  function EncodePair(a: byte, b: byte): string {
    [CharOf(a / 4), CharOf((a % 4) * 16 + b / 16), CharOf((b % 16) * 4), Pad]
  }

  /** A final quantum of 8 bits: two characters and two pads. */
  function EncodeSingle(a: byte): string {
    [CharOf(a / 4), CharOf((a % 4) * 16), Pad, Pad]
  }

  function Encode(b: seq<byte>): (t: string)
    ensures |t| == 4 * ((|b| + 2) / 3)
    ensures forall i :: 0 <= i < |t| ==> InAlphabet(t[i]) || t[i] == Pad
    decreases |b|
  {
    if |b| == 0 then []
    else if |b| == 1 then
      ValueOfCharOf(b[0] / 4);
      ValueOfCharOf((b[0] % 4) * 16);
      EncodeSingle(b[0])
    else if |b| == 2 then
      ValueOfCharOf(b[0] / 4);
      ValueOfCharOf((b[0] % 4) * 16 + b[1] / 16);
      ValueOfCharOf((b[1] % 16) * 4);
      EncodePair(b[0], b[1])
    else
      var head := EncodeTriple(b[0], b[1], b[2]);
      var tail := Encode(b[3..]);
      ValueOfCharOf(b[0] / 4);
      ValueOfCharOf((b[0] % 4) * 16 + b[1] / 16);
      ValueOfCharOf((b[1] % 16) * 4 + b[2] / 64);
      ValueOfCharOf(b[2] % 64);
      assert forall i :: 0 <= i < 4 ==> InAlphabet(head[i]);
      assert (|b| + 2) / 3 == (|b| - 3 + 2) / 3 + 1;
      head + tail
  }

  function DecodeTriple(c0: char, c1: char, c2: char, c3: char): Option<seq<byte>> {
    var v0 :- ValueOf(c0);
    var v1 :- ValueOf(c1);
    var v2 :- ValueOf(c2);
    var v3 :- ValueOf(c3);
    Some([v0 * 4 + v1 / 16, (v1 % 16) * 16 + v2 / 4, (v2 % 4) * 64 + v3])
  }

  /** The last quantum, which may carry one or two pads; bits the pads
      leave unused must be zero (the canonical form section 3.5 describes). */
  function DecodeLast(c0: char, c1: char, c2: char, c3: char): Option<seq<byte>> {
    if c3 != Pad then DecodeTriple(c0, c1, c2, c3)
    else if c2 != Pad then
      var v0 :- ValueOf(c0);
      var v1 :- ValueOf(c1);
      var v2 :- ValueOf(c2);
      if v2 % 4 != 0 then None
      else Some([v0 * 4 + v1 / 16, (v1 % 16) * 16 + v2 / 4])
    else
      var v0 :- ValueOf(c0);
      var v1 :- ValueOf(c1);
      if v1 % 16 != 0 then None
      else Some([v0 * 4 + v1 / 16])
  }

  function Decode(t: string): Option<seq<byte>>
    decreases |t|
  {
    if |t| == 0 then Some([])
    else if |t| < 4 then None
    else if |t| == 4 then DecodeLast(t[0], t[1], t[2], t[3])
    else
      var head :- DecodeTriple(t[0], t[1], t[2], t[3]);
      var tail :- Decode(t[4..]);
      Some(head + tail)
  }

  lemma TripleRoundTrip(a: byte, b: byte, c: byte)
    ensures var t := EncodeTriple(a, b, c); DecodeTriple(t[0], t[1], t[2], t[3]) == Some([a, b, c])
  {
    var v0: int, v1: int, v2: int, v3: int := a / 4, (a % 4) * 16 + b / 16, (b % 16) * 4 + c / 64, c % 64;
    ValueOfCharOf(v0);
    ValueOfCharOf(v1);
    ValueOfCharOf(v2);
    ValueOfCharOf(v3);
    assert v1 / 16 == a % 4 && v1 % 16 == b / 16;
    assert v2 / 4 == b % 16 && v2 % 4 == c / 64;
    assert v0 * 4 + v1 / 16 == a;
    assert (v1 % 16) * 16 + v2 / 4 == b;
    assert (v2 % 4) * 64 + v3 == c;
    var t := EncodeTriple(a, b, c);
    assert t == [CharOf(v0), CharOf(v1), CharOf(v2), CharOf(v3)];
  }

  lemma SingleRoundTrip(a: byte)
    ensures var t := EncodeSingle(a); DecodeLast(t[0], t[1], t[2], t[3]) == Some([a])
  {
    var lo := a % 4;
    ValueOfCharOf(a / 4);
    ValueOfCharOf(lo * 16);
    assert (lo * 16) % 16 == 0 && (lo * 16) / 16 == lo;
  }

  lemma PairRoundTrip(a: byte, b: byte)
    ensures var t := EncodePair(a, b); DecodeLast(t[0], t[1], t[2], t[3]) == Some([a, b])
  {
    var v1 := (a % 4) * 16 + b / 16;
    var v2 := (b % 16) * 4;
    ValueOfCharOf(a / 4);
    ValueOfCharOf(v1);
    ValueOfCharOf(v2);
    assert v1 / 16 == a % 4 && v1 % 16 == b / 16;
    assert v2 % 4 == 0 && v2 / 4 == b % 16;
  }

  /** One full quantum followed by a non-empty remainder decodes piecewise. */
  lemma DecodeAppend(head: string, rest: string, x: seq<byte>, y: seq<byte>)
    requires |head| == 4 && 0 < |rest|
    requires DecodeTriple(head[0], head[1], head[2], head[3]) == Some(x)
    requires Decode(rest) == Some(y)
    ensures Decode(head + rest) == Some(x + y)
  {
    var t := head + rest;
    assert t[4..] == rest;
    assert t[0] == head[0] && t[1] == head[1] && t[2] == head[2] && t[3] == head[3];
  }

  /** Decoding undoes encoding: no input octets are lost or altered. */
  lemma {:induction false} DecodeEncode(b: seq<byte>)
    ensures Decode(Encode(b)) == Some(b)
    decreases |b|
  {
    if |b| <= 3 {
      ShortRoundTrip(b);
    } else {
      var head := EncodeTriple(b[0], b[1], b[2]);
      assert Encode(b) == head + Encode(b[3..]);
      TripleRoundTrip(b[0], b[1], b[2]);
      DecodeEncode(b[3..]);
      DecodeAppend(head, Encode(b[3..]), [b[0], b[1], b[2]], b[3..]);
      assert [b[0], b[1], b[2]] + b[3..] == b;
    }
  }

  /** The round trip for inputs of at most one quantum. */
  lemma ShortRoundTrip(b: seq<byte>)
    requires |b| <= 3
    ensures Decode(Encode(b)) == Some(b)
  {
    if |b| == 1 {
      OneByteRoundTrip(b);
    } else if |b| == 2 {
      TwoByteRoundTrip(b);
    } else if |b| == 3 {
      LastTripleRoundTrip(b);
    }
  }

  lemma OneByteRoundTrip(b: seq<byte>)
    requires |b| == 1
    ensures Decode(Encode(b)) == Some(b)
  {
    var t := EncodeSingle(b[0]);
    assert Encode(b) == t;
    assert Decode(t) == DecodeLast(t[0], t[1], t[2], t[3]);
    SingleRoundTrip(b[0]);
    assert [b[0]] == b;
  }

  lemma TwoByteRoundTrip(b: seq<byte>)
    requires |b| == 2
    ensures Decode(Encode(b)) == Some(b)
  {
    var t := EncodePair(b[0], b[1]);
    assert Encode(b) == t;
    assert Decode(t) == DecodeLast(t[0], t[1], t[2], t[3]);
    PairRoundTrip(b[0], b[1]);
    assert [b[0], b[1]] == b;
  }

  lemma LastTripleRoundTrip(b: seq<byte>)
    requires |b| == 3
    ensures Decode(Encode(b)) == Some(b)
  {
    var t := EncodeTriple(b[0], b[1], b[2]);
    assert Encode(b[3..]) == [];
    assert Encode(b) == t;
    ValueOfCharOf(b[2] % 64);
    assert t[3] != Pad;
    assert Decode(t) == DecodeTriple(t[0], t[1], t[2], t[3]);
    TripleRoundTrip(b[0], b[1], b[2]);
    assert [b[0], b[1], b[2]] == b;
  }

  lemma TripleCanonical(c0: char, c1: char, c2: char, c3: char, x: seq<byte>)
    requires DecodeTriple(c0, c1, c2, c3) == Some(x)
    ensures |x| == 3 && EncodeTriple(x[0], x[1], x[2]) == [c0, c1, c2, c3]
  {
    var v0: int, v1: int, v2: int, v3: int := ValueOf(c0).value, ValueOf(c1).value, ValueOf(c2).value, ValueOf(c3).value;
    assert x == [v0 * 4 + v1 / 16, (v1 % 16) * 16 + v2 / 4, (v2 % 4) * 64 + v3];
    assert x[0] / 4 == v0 && x[0] % 4 == v1 / 16;
    assert x[1] / 16 == v1 % 16 && x[1] % 16 == v2 / 4;
    assert x[2] / 64 == v2 % 4 && x[2] % 64 == v3;
  }

  lemma LastCanonical(c0: char, c1: char, c2: char, c3: char, x: seq<byte>)
    requires DecodeLast(c0, c1, c2, c3) == Some(x)
    ensures Encode(x) == [c0, c1, c2, c3]
  {
    if c3 != Pad {
      TripleCanonical(c0, c1, c2, c3, x);
      assert Encode(x) == EncodeTriple(x[0], x[1], x[2]) + Encode(x[3..]);
    } else if c2 != Pad {
      var v0: int, v1: int, v2: int := ValueOf(c0).value, ValueOf(c1).value, ValueOf(c2).value;
      assert x == [v0 * 4 + v1 / 16, (v1 % 16) * 16 + v2 / 4];
      assert x[0] / 4 == v0 && x[0] % 4 == v1 / 16;
      assert x[1] / 16 == v1 % 16 && (x[1] % 16) * 4 == v2;
    } else {
      var v0: int, v1: int := ValueOf(c0).value, ValueOf(c1).value;
      assert x == [v0 * 4 + v1 / 16];
      assert x[0] / 4 == v0 && (x[0] % 4) * 16 == v1;
    }
  }

  /** Encoding undoes decoding: every string the decoder accepts is the
      encoding of what it decodes to, so the two are mutually inverse. */
  lemma {:induction false} EncodeDecode(t: string, b: seq<byte>)
    requires Decode(t) == Some(b)
    ensures Encode(b) == t
    decreases |t|
  {
    if |t| == 0 {
    } else if |t| == 4 {
      LastCanonical(t[0], t[1], t[2], t[3], b);
    } else {
      var x := DecodeTriple(t[0], t[1], t[2], t[3]).value;
      var y := Decode(t[4..]).value;
      assert b == x + y;
      EncodeDecode(t[4..], y);
      EncodeQuantumThenRest(t, x, y);
    }
  }

  /** A leading quantum that re-encodes canonically, ahead of a rest that does. */
  lemma EncodeQuantumThenRest(t: string, x: seq<byte>, y: seq<byte>)
    requires |t| > 4
    requires DecodeTriple(t[0], t[1], t[2], t[3]) == Some(x)
    requires Encode(y) == t[4..]
    ensures Encode(x + y) == t
  {
    TripleCanonical(t[0], t[1], t[2], t[3], x);
    var b := x + y;
    assert b[0] == x[0] && b[1] == x[1] && b[2] == x[2] && b[3..] == y;
    EncodeLeadingQuantum(b);
    assert t == [t[0], t[1], t[2], t[3]] + t[4..];
  }

  /** The quanta of the test vectors of section 10 of RFC 4648. */
  lemma QuantumVectors()
    ensures EncodeSingle(102) == "Zg==" && EncodeSingle(98) == "Yg=="
    ensures EncodePair(102, 111) == "Zm8=" && EncodePair(98, 97) == "YmE="
    ensures EncodeTriple(102, 111, 111) == "Zm9v" && EncodeTriple(98, 97, 114) == "YmFy"
  {
  }

  /** A full leading quantum is encoded on its own, ahead of the rest. */
  lemma EncodeLeadingQuantum(b: seq<byte>)
    requires |b| >= 3
    ensures Encode(b) == EncodeTriple(b[0], b[1], b[2]) + Encode(b[3..])
  {
    if |b| == 3 {
      assert Encode(b[3..]) == [];
    }
  }

  /** The test vectors of section 10 of RFC 4648 of at most one quantum:
      "", "f", "fo" and "foo", as octets. */
  lemma RfcShortVectors()
    ensures Encode([]) == ""
    ensures Encode([102]) == "Zg=="
    ensures Encode([102, 111]) == "Zm8="
    ensures Encode([102, 111, 111]) == "Zm9v"
  {
    QuantumVectors();
    EncodeLeadingQuantum([102, 111, 111]);
  }

  /** The longer test vectors of section 10 of RFC 4648: "foob", "fooba"
      and "foobar", as octets. */
  lemma RfcLongVectors()
    ensures Encode([102, 111, 111, 98]) == "Zm9vYg=="
    ensures Encode([102, 111, 111, 98, 97]) == "Zm9vYmE="
    ensures Encode([102, 111, 111, 98, 97, 114]) == "Zm9vYmFy"
  {
    FoobVector();
    FoobaVector();
    FoobarVector();
  }

  lemma FoobVector()
    ensures Encode([102, 111, 111, 98]) == "Zm9vYg=="
  {
    QuantumVectors();
    assert Encode([98]) == EncodeSingle(98);
    AfterFoo([98]);
    assert [102, 111, 111] + [98] == [102, 111, 111, 98];
  }

  lemma FoobaVector()
    ensures Encode([102, 111, 111, 98, 97]) == "Zm9vYmE="
  {
    QuantumVectors();
    assert Encode([98, 97]) == EncodePair(98, 97);
    AfterFoo([98, 97]);
    assert [102, 111, 111] + [98, 97] == [102, 111, 111, 98, 97];
  }

  lemma FoobarVector()
    ensures Encode([102, 111, 111, 98, 97, 114]) == "Zm9vYmFy"
  {
    QuantumVectors();
    EncodeLeadingQuantum([98, 97, 114]);
    AfterFoo([98, 97, 114]);
    assert [102, 111, 111] + [98, 97, 114] == [102, 111, 111, 98, 97, 114];
  }

  /** "foo" followed by a non-empty tail encodes as "Zm9v" followed by the tail's encoding. */
  lemma AfterFoo(rest: seq<byte>)
    requires 0 < |rest|
    ensures Encode([102, 111, 111] + rest) == "Zm9v" + Encode(rest)
  {
    var b := [102, 111, 111] + rest;
    EncodeLeadingQuantum(b);
    assert b[3..] == rest;
    assert b[0] == 102 && b[1] == 111 && b[2] == 111;
    QuantumVectors();
  }
}
