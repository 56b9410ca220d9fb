/** What well-formed UTF-8 is for: exactly the sequences that encode Unicode scalar
    values (section 3 of RFC 3629). */
module Utf8 {
  import opened BdFormat

  predicate IsScalar(c: bv32) {
    c < 0xD800 || (0xE000 <= c && c < 0x11_0000)
  }

  function Trail(c: bv32): bv8 {
    (0x80 | (c & 0x3F)) as bv8
  }

  function EncodeScalar(c: bv32): (s: seq<bv8>)
    requires IsScalar(c)
    ensures 1 <= |s| <= 4
  {
    if c < 0x80 then [c as bv8]
    else if c < 0x800 then [(0xC0 | (c >> 6)) as bv8, Trail(c)]
    else if c < 0x1_0000 then [(0xE0 | (c >> 12)) as bv8, Trail(c >> 6), Trail(c)]
    else [(0xF0 | (c >> 18)) as bv8, Trail(c >> 12), Trail(c >> 6), Trail(c)]
  }

  predicate AllScalars(cs: seq<bv32>) {
    forall i :: 0 <= i < |cs| ==> IsScalar(cs[i])
  }

  function EncodeText(cs: seq<bv32>): seq<bv8>
    requires AllScalars(cs)
  {
    if cs == [] then [] else EncodeScalar(cs[0]) + EncodeText(cs[1..])
  }

  lemma {:induction false} EncodedValid(c: bv32, s: seq<bv8>)
    requires IsScalar(c) && ValidUtf8(s)
    ensures ValidUtf8(EncodeScalar(c) + s)
  {
    var b := EncodeScalar(c);
    var t := b + s;
    assert t[|b|..] == s;
  }

  lemma {:induction false} TextValid(cs: seq<bv32>)
    requires AllScalars(cs)
    ensures ValidUtf8(EncodeText(cs))
  {
    if cs != [] {
      TextValid(cs[1..]);
      EncodedValid(cs[0], EncodeText(cs[1..]));
    }
  }

  lemma OneByte(a: bv8) returns (c: bv32)
    requires a <= 0x7F
    ensures IsScalar(c) && EncodeScalar(c) == [a]
  {
    c := a as bv32;
  }

  lemma TwoBytes(a: bv8, b: bv8) returns (c: bv32)
    requires 0xC2 <= a <= 0xDF && Continuation(b)
    ensures IsScalar(c) && EncodeScalar(c) == [a, b]
  {
    c := ((a as bv32 & 0x1F) << 6) | (b as bv32 & 0x3F);
  }

  lemma ThreeBytes(a: bv8, b: bv8, d: bv8) returns (c: bv32)
    requires 0xE0 <= a <= 0xEF && Continuation(b) && Continuation(d)
    requires (a == 0xE0 ==> b >= 0xA0) && (a == 0xED ==> b <= 0x9F)
    ensures IsScalar(c) && EncodeScalar(c) == [a, b, d]
  {
    c := ((a as bv32 & 0xF) << 12) | ((b as bv32 & 0x3F) << 6) | (d as bv32 & 0x3F);
  }

  lemma FourBytes(a: bv8, b: bv8, d: bv8, e: bv8) returns (c: bv32)
    requires 0xF0 <= a <= 0xF4 && Continuation(b) && Continuation(d) && Continuation(e)
    requires (a == 0xF0 ==> b >= 0x90) && (a == 0xF4 ==> b <= 0x8F)
    ensures IsScalar(c) && EncodeScalar(c) == [a, b, d, e]
  {
    c := ((a as bv32 & 0x7) << 18) | ((b as bv32 & 0x3F) << 12) | ((d as bv32 & 0x3F) << 6) | (e as bv32 & 0x3F);
  }

  /** The scalar value in front and the number of its bytes. */
  lemma {:induction false} FirstScalar(s: seq<bv8>) returns (c: bv32, n: nat)
    requires s != [] && ValidUtf8(s)
    ensures IsScalar(c) && n <= |s| && s[..n] == EncodeScalar(c) && ValidUtf8(s[n..])
  {
    hide EncodeScalar, IsScalar;
    if s[0] <= 0x7F {
      n := 1;
      c := OneByte(s[0]);
    } else if s[0] <= 0xDF {
      n := 2;
      c := TwoBytes(s[0], s[1]);
    } else if s[0] <= 0xEF {
      n := 3;
      c := ThreeBytes(s[0], s[1], s[2]);
    } else {
      n := 4;
      c := FourBytes(s[0], s[1], s[2], s[3]);
    }
  }

  /** Bytes are well-formed if and only if they encode some scalar values. */
  lemma {:induction false} Utf8Exactly(s: seq<bv8>)
    ensures ValidUtf8(s) <==> exists cs :: AllScalars(cs) && EncodeText(cs) == s
  {
    if ValidUtf8(s) {
      var cs := Decoded(s);
    }
    forall cs | AllScalars(cs) && EncodeText(cs) == s
      ensures ValidUtf8(s)
    {
      TextValid(cs);
    }
  }

  lemma {:induction false} Decoded(s: seq<bv8>) returns (cs: seq<bv32>)
    requires ValidUtf8(s)
    ensures AllScalars(cs) && EncodeText(cs) == s
  {
    if s == [] {
      cs := [];
    } else {
      hide EncodeScalar, IsScalar, ValidUtf8;
      var c, n := FirstScalar(s);
      var more := Decoded(s[n..]);
      cs := [c] + more;
      assert cs[1..] == more;
      assert s == s[..n] + s[n..];
    }
  }
}
