/** UTF-8 as `TextEncoder` writes it (RFC 3629, section 3), which is what the byte counts of drafts measure. */
module Utf8Encoding {
  import opened Options
  import opened JsonText
  import Utf8

  type Bytes = seq<nat>

  /** The code points of UTF-16 text; a lone surrogate becomes U+FFFD. */
  function CodePoints(s: Units): seq<nat> {
    if s == [] then []
    else if |s| > 1 && High(s[0]) && Low(s[1]) then
      [0x10000 + (s[0] as nat - 0xD800) * 0x400 + (s[1] as nat - 0xDC00)] + CodePoints(s[2..])
    else [if High(s[0]) || Low(s[0]) then 0xFFFD else s[0] as nat] + CodePoints(s[1..])
  }

  /** A code point that UTF-8 can carry. */
  predicate Scalar(p: nat) { p < 0xD800 || 0xE000 <= p < 0x110000 }

  function Tail(p: nat): nat { 0x80 + p % 0x40 }

  function EncodeOne(p: nat): Bytes {
    if p < 0x80 then [p]
    else if p < 0x800 then [0xC0 + p / 0x40, Tail(p)]
    else if p < 0x10000 then [0xE0 + p / 0x1000, Tail(p / 0x40), Tail(p)]
    else [0xF0 + p / 0x40000, Tail(p / 0x1000), Tail(p / 0x40), Tail(p)]
  }

  function Encode(points: seq<nat>): Bytes {
    if points == [] then [] else EncodeOne(points[0]) + Encode(points[1..])
  }

  predicate IsTail(b: nat) { 0x80 <= b < 0xC0 }

  /** The first code point of a byte sequence and how many bytes it takes; overlong forms are no code points. */
  function DecodeOne(b: Bytes): Option<(nat, nat)> {
    if b == [] then None
    else if b[0] < 0x80 then Some((b[0], 1))
    else if 0xC0 <= b[0] < 0xE0 && |b| >= 2 && IsTail(b[1]) then
      Shortest((b[0] - 0xC0) * 0x40 + (b[1] - 0x80), 0x80, 2)
    else if 0xE0 <= b[0] < 0xF0 && |b| >= 3 && IsTail(b[1]) && IsTail(b[2]) then
      Shortest((b[0] - 0xE0) * 0x1000 + (b[1] - 0x80) * 0x40 + (b[2] - 0x80), 0x800, 3)
    else if 0xF0 <= b[0] < 0xF8 && |b| >= 4 && IsTail(b[1]) && IsTail(b[2]) && IsTail(b[3]) then
      Shortest((b[0] - 0xF0) * 0x40000 + (b[1] - 0x80) * 0x1000 + (b[2] - 0x80) * 0x40 + (b[3] - 0x80), 0x10000, 4)
    else None
  }

  function Shortest(p: nat, least: nat, length: nat): Option<(nat, nat)> {
    if least <= p && Scalar(p) then Some((p, length)) else None
  }

  function Decode(b: Bytes): Option<seq<nat>>
    decreases |b|
  {
    if b == [] then Some([])
    else
      var first := DecodeOne(b);
      if first.None? || first.value.1 == 0 || first.value.1 > |b| then None
      else
        var rest := Decode(b[first.value.1..]);
        if rest.None? then None else Some([first.value.0] + rest.value)
  }

  /** The six-bit groups of a number. */
  lemma {:induction false} Groups(p: nat)
    ensures p == p / 0x40 * 0x40 + p % 0x40
    ensures p == p / 0x1000 * 0x1000 + p / 0x40 % 0x40 * 0x40 + p % 0x40
    ensures p == p / 0x40000 * 0x40000 + p / 0x1000 % 0x40 * 0x1000 + p / 0x40 % 0x40 * 0x40 + p % 0x40
  {
    var a := p / 0x40;
    var b := a / 0x40;
    assert p == a * 0x40 + p % 0x40 && a == b * 0x40 + a % 0x40;
    assert p / 0x1000 == b;
    assert b == b / 0x40 * 0x40 + b % 0x40 && p / 0x40000 == b / 0x40;
  }

  lemma {:induction false} TwoAreDecoded(p: nat, rest: Bytes)
    requires 0x80 <= p < 0x800
    ensures DecodeOne([0xC0 + p / 0x40, Tail(p)] + rest) == Some((p, 2))
  {
    Groups(p);
    var b := [0xC0 + p / 0x40, Tail(p)] + rest;
    assert b[0] == 0xC0 + p / 0x40 && b[1] == 0x80 + p % 0x40;
  }

  lemma {:induction false} ThreeAreDecoded(p: nat, rest: Bytes)
    requires 0x800 <= p < 0x10000 && Scalar(p)
    ensures DecodeOne([0xE0 + p / 0x1000, Tail(p / 0x40), Tail(p)] + rest) == Some((p, 3))
  {
    Groups(p);
    var b := [0xE0 + p / 0x1000, Tail(p / 0x40), Tail(p)] + rest;
    assert b[0] == 0xE0 + p / 0x1000 && b[1] == 0x80 + p / 0x40 % 0x40 && b[2] == 0x80 + p % 0x40;
    assert p / 0x1000 < 0x10;
  }

  lemma {:induction false} FourAreDecoded(p: nat, rest: Bytes)
    requires 0x10000 <= p < 0x110000
    ensures DecodeOne([0xF0 + p / 0x40000, Tail(p / 0x1000), Tail(p / 0x40), Tail(p)] + rest) == Some((p, 4))
  {
    Groups(p);
    var b := [0xF0 + p / 0x40000, Tail(p / 0x1000), Tail(p / 0x40), Tail(p)] + rest;
    assert b[0] == 0xF0 + p / 0x40000 && b[1] == 0x80 + p / 0x1000 % 0x40;
    assert b[2] == 0x80 + p / 0x40 % 0x40 && b[3] == 0x80 + p % 0x40;
    assert p / 0x40000 < 8;
  }

  lemma {:induction false} OneIsDecoded(p: nat, rest: Bytes)
    requires Scalar(p)
    ensures DecodeOne(EncodeOne(p) + rest) == Some((p, |EncodeOne(p)|))
  {
    if p < 0x80 {
      assert (EncodeOne(p) + rest)[0] == p;
    } else if p < 0x800 {
      TwoAreDecoded(p, rest);
    } else if p < 0x10000 {
      ThreeAreDecoded(p, rest);
    } else {
      FourAreDecoded(p, rest);
    }
  }

  lemma {:induction false} PointsAreScalar(s: Units)
    ensures forall i :: 0 <= i < |CodePoints(s)| ==> Scalar(CodePoints(s)[i])
  {
    if s == [] {
    } else if |s| > 1 && High(s[0]) && Low(s[1]) {
      PointsAreScalar(s[2..]);
    } else {
      PointsAreScalar(s[1..]);
    }
  }

  lemma {:induction false} AllAreDecoded(points: seq<nat>)
    requires forall i :: 0 <= i < |points| ==> Scalar(points[i])
    ensures Decode(Encode(points)) == Some(points)
  {
    if points != [] {
      AllAreDecoded(points[1..]);
      OneIsDecoded(points[0], Encode(points[1..]));
      assert Encode(points)[|EncodeOne(points[0])|..] == Encode(points[1..]);
      assert points == [points[0]] + points[1..];
    }
  }

  /** Encoded text decodes to its code points. */
  lemma {:induction false} TextIsDecoded(s: Units)
    ensures Decode(Encode(CodePoints(s))) == Some(CodePoints(s))
  {
    PointsAreScalar(s);
    AllAreDecoded(CodePoints(s));
  }

  /** The byte count of a draft is the length of its encoding. */
  lemma {:induction false} LengthIsEncoded(s: Units)
    ensures Utf8.Length(s) == |Encode(CodePoints(s))|
  {
    if s == [] {
    } else if |s| > 1 && High(s[0]) && Low(s[1]) {
      LengthIsEncoded(s[2..]);
      assert CodePoints(s)[1..] == CodePoints(s[2..]);
    } else {
      LengthIsEncoded(s[1..]);
      assert CodePoints(s)[1..] == CodePoints(s[1..]);
    }
  }

  /** Text without lone surrogates, back from its code points. */
  function FromPoints(points: seq<nat>): seq<nat> {
    if points == [] then []
    else
      var p := points[0];
      (if p < 0x10000 then [p] else [0xD800 + (p - 0x10000) / 0x400, 0xDC00 + (p - 0x10000) % 0x400])
      + FromPoints(points[1..])
  }

  predicate Paired(s: Units) {
    if s == [] then true
    else if |s| > 1 && High(s[0]) && Low(s[1]) then Paired(s[2..])
    else !High(s[0]) && !Low(s[0]) && Paired(s[1..])
  }

  /** Nothing is lost of text whose surrogates are paired. */
  lemma {:induction false} PointsKeepTheText(s: Units)
    requires Paired(s)
    ensures |FromPoints(CodePoints(s))| == |s|
    ensures forall i :: 0 <= i < |s| ==> FromPoints(CodePoints(s))[i] == s[i] as nat
  {
    if s == [] {
    } else if |s| > 1 && High(s[0]) && Low(s[1]) {
      PointsKeepTheText(s[2..]);
      assert CodePoints(s)[1..] == CodePoints(s[2..]);
      forall i | 0 <= i < |s| ensures FromPoints(CodePoints(s))[i] == s[i] as nat {
        if i >= 2 { assert s[i] == s[2..][i - 2]; }
      }
    } else {
      PointsKeepTheText(s[1..]);
      assert CodePoints(s)[1..] == CodePoints(s[1..]);
      forall i | 0 <= i < |s| ensures FromPoints(CodePoints(s))[i] == s[i] as nat {
        if i >= 1 { assert s[i] == s[1..][i - 1]; }
      }
    }
  }
}
