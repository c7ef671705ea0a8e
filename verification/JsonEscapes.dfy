/** The form of the strings that `JSON.stringify` writes (section 7 of RFC 8259). */
module JsonEscapes {
  import opened JsonText

  /** The escapes of section 7 of RFC 8259: the short ones, `u` and four digits for other control characters. */
  lemma {:induction false} EscapesAreShortest(u: Unit)
    ensures UnitText(0x08) == [BACKSLASH, 0x62] && UnitText(0x09) == [BACKSLASH, 0x74]
    ensures UnitText(0x0A) == [BACKSLASH, 0x6E] && UnitText(0x0C) == [BACKSLASH, 0x66]
    ensures UnitText(0x0D) == [BACKSLASH, 0x72]
    ensures UnitText(QUOTE) == [BACKSLASH, QUOTE] && UnitText(BACKSLASH) == [BACKSLASH, BACKSLASH]
    ensures 0x20 <= u && u != QUOTE && u != BACKSLASH && !High(u) && !Low(u) ==> UnitText(u) == [u]
    ensures (u < 0x20 && u !in {0x08, 0x09, 0x0A, 0x0C, 0x0D}) || High(u) || Low(u) ==>
              |UnitText(u)| == 6 && UnitText(u)[..2] == [BACKSLASH, 0x75]
  {}

  /** Text that may stand between quotes: no control characters, no lone surrogates, no bare quote. */
  predicate Clean(t: Units) {
    if t == [] then true
    else if t[0] == BACKSLASH then |t| > 1 && 0x20 <= t[1] && !High(t[1]) && !Low(t[1]) && Clean(t[2..])
    else if |t| > 1 && High(t[0]) && Low(t[1]) then Clean(t[2..])
    else 0x20 <= t[0] && t[0] != QUOTE && !High(t[0]) && !Low(t[0]) && Clean(t[1..])
  }

  lemma {:induction false} PlainIsClean(t: Units, more: Units)
    requires Clean(more) && forall i :: 0 <= i < |t| ==>
               0x20 <= t[i] && t[i] != QUOTE && t[i] != BACKSLASH && !High(t[i]) && !Low(t[i])
    ensures Clean(t + more)
  {
    if t == [] {
      assert t + more == more;
    } else {
      PlainIsClean(t[1..], more);
      assert (t + more)[1..] == t[1..] + more;
    }
  }

  lemma {:induction false} UnitIsClean(u: Unit, more: Units)
    requires Clean(more)
    ensures Clean(UnitText(u) + more)
  {
    var t := UnitText(u);
    if Short(u) != [] {
      assert (t + more)[2..] == more;
    } else if u < 0x20 || High(u) || Low(u) {
      PlainIsClean(t[2..], more);
      assert (t + more)[2..] == t[2..] + more;
    } else {
      assert (t + more)[1..] == more;
    }
  }

  /** The quoted body of any string is such text. */
  lemma {:induction false} BodyIsClean(s: Units)
    ensures Clean(Body(s))
  {
    if s == [] {
    } else if |s| > 1 && High(s[0]) && Low(s[1]) {
      BodyIsClean(s[2..]);
      assert ([s[0]] + ([s[1]] + Body(s[2..])))[2..] == Body(s[2..]);
    } else {
      BodyIsClean(s[1..]);
      UnitIsClean(s[0], Body(s[1..]));
    }
  }
}
