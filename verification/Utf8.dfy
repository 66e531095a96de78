/** Well-formed UTF-8 as the encodings of sequences of characters, section 3 of RFC 3629. Strings that are not are
    refused by the decoder (crates/rs9p/src/serialize.rs, `String`). */
module Utf8Text {
  import opened Common
  import opened Wire

  /** A character number that is not a surrogate. */
  predicate Scalar(c: nat) { c < 0x11_0000 && !(0xD800 <= c <= 0xDFFF) }

  function Encoded(c: nat): seq<byte>
    requires Scalar(c)
  {
    if c < 0x80 then [c as byte]
    else if c < 0x800 then [(0xC0 + c / 64) as byte, (0x80 + c % 64) as byte]
    else if c < 0x1_0000 then [(0xE0 + c / 4096) as byte, (0x80 + c / 64 % 64) as byte, (0x80 + c % 64) as byte]
    else
      [(0xF0 + c / 262144) as byte, (0x80 + c / 4096 % 64) as byte, (0x80 + c / 64 % 64) as byte, (0x80 + c % 64) as byte]
  }

  predicate AllScalar(cs: seq<nat>) { forall c :: c in cs ==> Scalar(c) }

  function TextOf(cs: seq<nat>): seq<byte>
    requires AllScalar(cs)
  {
    if cs == [] then [] else Encoded(cs[0]) + TextOf(cs[1..])
  }

  /** The first `n` of the bytes are character `c`, and the others are well-formed. */
  predicate Leads(s: seq<byte>, c: nat, n: nat) {
    true == (Scalar(c) && 0 < n <= |s| && s[..n] == Encoded(c) && Utf8(s[n..]))
  }

  lemma Two(a: nat, b: nat)
    requires 2 <= a < 32 && b < 64
    ensures Scalar(a * 64 + b) && Encoded(a * 64 + b) == [(0xC0 + a) as byte, (0x80 + b) as byte]
  {
  }

  lemma FourDigits(a: nat, b: nat, c: nat, d: nat)
    requires b < 64 && c < 64 && d < 64
    ensures var x := a * 262144 + b * 4096 + c * 64 + d;
      x / 262144 == a && x / 4096 == a * 64 + b && x / 64 == (a * 64 + b) * 64 + c && x % 64 == d
  {
  }

  lemma LastDigit(q: nat, r: nat)
    requires r < 64
    ensures (q * 64 + r) % 64 == r
  {
  }

  lemma Three(a: nat, b: nat, c: nat)
    requires a < 16 && b < 64 && c < 64 && (a == 0 ==> b >= 32) && (a == 13 ==> b < 32)
    ensures var x := a * 4096 + b * 64 + c;
      Scalar(x) && Encoded(x) == [(0xE0 + a) as byte, (0x80 + b) as byte, (0x80 + c) as byte]
  {
    FourDigits(0, a, b, c);
    LastDigit(a, b);
  }

  lemma Four(a: nat, b: nat, c: nat, d: nat)
    requires a < 5 && b < 64 && c < 64 && d < 64 && (a == 0 ==> b >= 16) && (a == 4 ==> b < 16)
    ensures var x := a * 262144 + b * 4096 + c * 64 + d;
      Scalar(x) && Encoded(x) == [(0xF0 + a) as byte, (0x80 + b) as byte, (0x80 + c) as byte, (0x80 + d) as byte]
  {
    FourDigits(a, b, c, d);
    LastDigit(a, b);
    LastDigit(a * 64 + b, c);
  }

  lemma Leading(s: seq<byte>) returns (c: nat, n: nat)
    requires s != [] && Utf8(s)
    ensures Leads(s, c, n)
  {
    if s[0] < 0x80 {
      c, n := s[0] as nat, 1;
    } else if s[0] < 0xE0 {
      var a, b: nat := s[0] as nat - 0xC0, s[1] as nat - 0x80;
      Two(a, b);
      c, n := a * 64 + b, 2;
    } else if s[0] < 0xF0 {
      var a, b: nat, d: nat := s[0] as nat - 0xE0, s[1] as nat - 0x80, s[2] as nat - 0x80;
      Three(a, b, d);
      c, n := a * 4096 + b * 64 + d, 3;
    } else {
      var a, b: nat, d: nat, e: nat := s[0] as nat - 0xF0, s[1] as nat - 0x80, s[2] as nat - 0x80, s[3] as nat - 0x80;
      Four(a, b, d, e);
      c, n := a * 262144 + b * 4096 + d * 64 + e, 4;
    }
  }

  lemma {:induction false} Decodes(s: seq<byte>) returns (cs: seq<nat>)
    requires Utf8(s)
    ensures AllScalar(cs) && TextOf(cs) == s
    decreases |s|
  {
    if s == [] {
      cs := [];
    } else {
      var c, n := Leading(s);
      var rest := Decodes(s[n..]);
      cs := [c] + rest;
      assert cs[1..] == rest && s == s[..n] + s[n..];
    }
  }

  lemma Digits(c: nat)
    requires Scalar(c)
    ensures 0x80 <= c < 0x800 ==> 2 <= c / 64 < 32
    ensures 0x800 <= c < 0x1_0000 ==> (c / 4096 == 0 ==> c / 64 % 64 >= 32) && (c / 4096 == 13 ==> c / 64 % 64 < 32)
    ensures 0x1_0000 <= c ==> (c / 262144 == 0 ==> c / 4096 % 64 >= 16) && (c / 262144 == 4 ==> c / 4096 % 64 < 16)
  {
  }

  lemma OneMore(c: nat, rest: seq<byte>)
    requires Scalar(c) && Utf8(rest)
    ensures Utf8(Encoded(c) + rest)
  {
    var s := Encoded(c) + rest;
    Digits(c);
    assert s[|Encoded(c)|..] == rest;
  }

  lemma {:induction false} TextIsUtf8(cs: seq<nat>)
    requires AllScalar(cs)
    ensures Utf8(TextOf(cs))
    decreases |cs|
  {
    if cs != [] {
      TextIsUtf8(cs[1..]);
      OneMore(cs[0], TextOf(cs[1..]));
    }
  }

  /** Bytes are well-formed exactly if they encode some characters. */
  lemma Utf8Iff(s: seq<byte>)
    ensures Utf8(s) <==> exists cs :: AllScalar(cs) && TextOf(cs) == s
  {
    if Utf8(s) {
      var cs := Decodes(s);
    } else if exists cs :: AllScalar(cs) && TextOf(cs) == s {
      var cs :| AllScalar(cs) && TextOf(cs) == s;
      TextIsUtf8(cs);
    }
  }
}
