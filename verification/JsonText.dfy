/**
 JSON values and their ECMAScript text: strings as section 7 of RFC 8259 and
 `JSON.stringify` write them, numbers by their own text.  Text is a prefix code, so a
 value can be read back from it whatever follows.
 */
module JsonText {

  /** One UTF-16 code unit; strings and texts are sequences of them. */
  newtype Unit = u: int | 0 <= u < 0x10000
  type Units = seq<Unit>

  /**
   A JSON value; an object keeps its entries in insertion order.  A number is identified by
   its text, which ECMAScript makes one-to-one except that negative zero is written as zero.
   */
  datatype Json =
    | Null
    | Bool(b: bool)
    | Num(text: Units)
    | NegZero
    | Str(s: Units)
    | Arr(items: seq<Json>)
    | Obj(fields: seq<(Units, Json)>)

  const QUOTE: Unit := 0x22
  const BACKSLASH: Unit := 0x5C
  const COMMA: Unit := 0x2C
  const COLON: Unit := 0x3A
  const ZERO: Units := [0x30]

  predicate Digit(u: Unit) { 0x30 <= u <= 0x39 }

  predicate NumberUnit(u: Unit) { Digit(u) || u in {0x2B, 0x2D, 0x2E, 0x65} }

  predicate NumberText(t: Units) {
    |t| > 0 && (Digit(t[0]) || t[0] == 0x2D) && forall i :: 0 <= i < |t| ==> NumberUnit(t[i])
  }

  // ---------------------------------------------------------------- strings

  function HexDigit(n: Unit): Unit
    requires n < 16
  {
    if n < 10 then 0x30 + n else 0x61 + n - 10
  }

  function HexValue(u: Unit): (v: Unit)
    ensures v < 16
  {
    if Digit(u) then u - 0x30 else if 0x61 <= u <= 0x66 then u - 0x61 + 10 else 0
  }

  function UnicodeEscape(u: Unit): Units {
    [BACKSLASH, 0x75, HexDigit(u / 4096), HexDigit(u / 256 % 16), HexDigit(u / 16 % 16), HexDigit(u % 16)]
  }

  predicate High(u: Unit) { 0xD800 <= u <= 0xDBFF }
  predicate Low(u: Unit) { 0xDC00 <= u <= 0xDFFF }

  /** The short escapes of RFC 8259, section 7, that `JSON.stringify` uses. */
  function Short(u: Unit): Units {
    if u == 0x08 then [0x62] else if u == 0x09 then [0x74] else if u == 0x0A then [0x6E]
    else if u == 0x0C then [0x66] else if u == 0x0D then [0x72]
    else if u == QUOTE || u == BACKSLASH then [u] else []
  }

  function UnitText(u: Unit): Units {
    if Short(u) != [] then [BACKSLASH] + Short(u)
    else if u < 0x20 || High(u) || Low(u) then UnicodeEscape(u)
    else [u]
  }

  function Body(s: Units): Units {
    if s == [] then []
    else if |s| > 1 && High(s[0]) && Low(s[1]) then [s[0]] + ([s[1]] + Body(s[2..]))
    else UnitText(s[0]) + Body(s[1..])
  }

  function Quote(s: Units): Units { [QUOTE] + Body(s) + [QUOTE] }

  /** Reading a string body back: its units and what follows the closing quote. */
  function ReadBody(t: Units): (Units, Units) {
    if t == [] || t[0] == QUOTE then ([], if t == [] then [] else t[1..])
    else if t[0] == BACKSLASH && |t| >= 6 && t[1] == 0x75 then
      var u := HexValue(t[2]) * 4096 + HexValue(t[3]) * 256 + HexValue(t[4]) * 16 + HexValue(t[5]);
      var (s, rest) := ReadBody(t[6..]);
      ([u] + s, rest)
    else if t[0] == BACKSLASH && |t| >= 2 then
      var u: Unit := if t[1] == 0x62 then 0x08 else if t[1] == 0x74 then 0x09 else if t[1] == 0x6E then 0x0A
                     else if t[1] == 0x66 then 0x0C else if t[1] == 0x72 then 0x0D else t[1];
      var (s, rest) := ReadBody(t[2..]);
      ([u] + s, rest)
    else
      var (s, rest) := ReadBody(t[1..]);
      ([t[0]] + s, rest)
  }

  lemma {:induction false} HexRoundTrip(u: Unit)
    ensures var t := UnicodeEscape(u);
            HexValue(t[2]) * 4096 + HexValue(t[3]) * 256 + HexValue(t[4]) * 16 + HexValue(t[5]) == u
  {
    assert u == u / 16 * 16 + u % 16;
    assert u / 16 == u / 256 * 16 + u / 16 % 16;
    assert u / 256 == u / 4096 * 16 + u / 256 % 16;
  }

  lemma {:induction false} ReadLiteral(u: Unit, more: Units)
    requires u != QUOTE && u != BACKSLASH
    ensures ReadBody([u] + more) == ([u] + ReadBody(more).0, ReadBody(more).1)
  {
    assert ([u] + more)[1..] == more;
  }

  lemma {:induction false} ReadShort(u: Unit, more: Units)
    requires Short(u) != []
    ensures ReadBody([BACKSLASH] + Short(u) + more) == ([u] + ReadBody(more).0, ReadBody(more).1)
  {
    var t := [BACKSLASH] + Short(u) + more;
    assert t[0] == BACKSLASH && t[1] == Short(u)[0];
    assert t[2..] == more;
  }

  lemma {:induction false} ReadHexDigits(t: Units, u: Unit, more: Units)
    requires |t| >= 6 && t[0] == BACKSLASH && t[1] == 0x75 && t[6..] == more
    requires HexValue(t[2]) * 4096 + HexValue(t[3]) * 256 + HexValue(t[4]) * 16 + HexValue(t[5]) == u
    ensures ReadBody(t) == ([u] + ReadBody(more).0, ReadBody(more).1)
  {}

  lemma {:induction false} ReadHex(u: Unit, more: Units)
    ensures ReadBody(UnicodeEscape(u) + more) == ([u] + ReadBody(more).0, ReadBody(more).1)
  {
    var e := UnicodeEscape(u);
    HexRoundTrip(u);
    assert (e + more)[6..] == more;
    ReadHexDigits(e + more, u, more);
  }

  /** Reading the text of one unit first gives that unit. */
  lemma {:induction false} ReadUnit(u: Unit, more: Units)
    ensures ReadBody(UnitText(u) + more) == ([u] + ReadBody(more).0, ReadBody(more).1)
  {
    if Short(u) != [] {
      ReadShort(u, more);
    } else if u < 0x20 || High(u) || Low(u) {
      ReadHex(u, more);
    } else {
      ReadLiteral(u, more);
    }
  }

  /** Round trip: a quoted string is read back exactly, with what follows it. */
  lemma {:induction false} ReadQuoted(s: Units, more: Units)
    ensures ReadBody(Body(s) + ([QUOTE] + more)) == (s, more)
    decreases |s|
  {
    if s == [] {
      assert Body(s) + ([QUOTE] + more) == [QUOTE] + more;
      assert ([QUOTE] + more)[1..] == more;
    } else if |s| > 1 && High(s[0]) && Low(s[1]) {
      var rest := Body(s[2..]) + ([QUOTE] + more);
      ReadQuoted(s[2..], more);
      ReadLiteral(s[1], rest);
      ReadLiteral(s[0], [s[1]] + rest);
      PairFirst(s, [QUOTE] + more);
      assert [s[0]] + ([s[1]] + s[2..]) == s;
    } else {
      var rest := Body(s[1..]) + ([QUOTE] + more);
      ReadQuoted(s[1..], more);
      ReadUnit(s[0], rest);
      UnitFirst(s, [QUOTE] + more);
    }
  }

  lemma {:induction false} Assoc(a: Units, b: Units, c: Units)
    ensures (a + b) + c == a + (b + c)
  {
  }

  lemma {:induction false} PairFirst(s: Units, more: Units)
    requires |s| > 1 && High(s[0]) && Low(s[1])
    ensures Body(s) + more == [s[0]] + ([s[1]] + (Body(s[2..]) + more))
  {
    var b := Body(s[2..]);
    Assoc([s[0]], [s[1]] + b, more);
    Assoc([s[1]], b, more);
  }

  lemma {:induction false} UnitFirst(s: Units, more: Units)
    requires s != [] && !(|s| > 1 && High(s[0]) && Low(s[1]))
    ensures Body(s) + more == UnitText(s[0]) + (Body(s[1..]) + more)
    ensures [s[0]] + s[1..] == s
  {
    Assoc(UnitText(s[0]), Body(s[1..]), more);
  }

  // ---------------------------------------------------------------- values

  function Text(v: Json): Units
    decreases v, 0
  {
    match v
    case Null => [0x6E, 0x75, 0x6C, 0x6C]
    case Bool(b) => if b then [0x74, 0x72, 0x75, 0x65] else [0x66, 0x61, 0x6C, 0x73, 0x65]
    case Num(t) => t
    case NegZero => ZERO
    case Str(s) => Quote(s)
    case Arr(items) => [0x5B] + ItemsText(items) + [0x5D]
    case Obj(fields) => [0x7B] + FieldsText(fields) + [0x7D]
  }

  function ItemsText(items: seq<Json>): Units
    decreases items, 1
  {
    if items == [] then []
    else Text(items[0]) + (if |items| == 1 then [] else [COMMA] + ItemsText(items[1..]))
  }

  function FieldText(f: (Units, Json)): Units
    decreases f, 1
  {
    Quote(f.0) + [COLON] + Text(f.1)
  }

  function FieldsText(fields: seq<(Units, Json)>): Units
    decreases fields, 2
  {
    if fields == [] then []
    else FieldText(fields[0]) + (if |fields| == 1 then [] else [COMMA] + FieldsText(fields[1..]))
  }

  /** Values whose numbers are ECMAScript texts and which hold no negative zero. */
  predicate Plain(v: Json)
    decreases v
  {
    match v
    case Num(t) => NumberText(t)
    case NegZero => false
    case Arr(items) => forall i :: 0 <= i < |items| ==> Plain(items[i])
    case Obj(fields) => forall i :: 0 <= i < |fields| ==> Plain(fields[i].1)
    case _ => true
  }

  // ---------------------------------------------------------------- text is a prefix code

  /** What may follow a value inside a larger text. */
  predicate Stop(x: Units) { x == [] || x[0] == COMMA || x[0] == 0x5D || x[0] == 0x7D }

  lemma {:induction false} TextStarts(v: Json)
    requires Plain(v)
    ensures |Text(v)| > 0
    ensures match v
            case Null => Text(v)[0] == 0x6E
            case Bool(b) => Text(v)[0] == (if b then 0x74 else 0x66)
            case Num(_) => Digit(Text(v)[0]) || Text(v)[0] == 0x2D
            case NegZero => true
            case Str(_) => Text(v)[0] == QUOTE
            case Arr(_) => Text(v)[0] == 0x5B
            case Obj(_) => Text(v)[0] == 0x7B
  {
  }

  /** How many units of a text, from its start, can belong to a number. */
  function NumberLength(z: Units): nat {
    if z == [] || !NumberUnit(z[0]) then 0 else 1 + NumberLength(z[1..])
  }

  lemma {:induction false} NumberLengthOf(t: Units, x: Units)
    requires (forall i :: 0 <= i < |t| ==> NumberUnit(t[i])) && Stop(x)
    ensures NumberLength(t + x) == |t|
  {
    if t == [] {
      assert t + x == x;
    } else {
      assert (t + x)[1..] == t[1..] + x;
      NumberLengthOf(t[1..], x);
    }
  }

  lemma {:induction false} NumberPrefix(t: Units, u: Units, x: Units, y: Units)
    requires NumberText(t) && NumberText(u) && Stop(x) && Stop(y) && t + x == u + y
    ensures t == u && x == y
  {
    NumberLengthOf(t, x);
    NumberLengthOf(u, y);
    SplitEqual(t, u, x, y);
  }

  lemma {:induction false} SplitEqual(a: Units, b: Units, x: Units, y: Units)
    requires a + x == b + y && |a| == |b|
    ensures a == b && x == y
  {
    assert (a + x)[..|a|] == a && (b + y)[..|b|] == b;
    assert (a + x)[|a|..] == x && (b + y)[|b|..] == y;
  }

  lemma {:induction false} QuotePrefix(s: Units, t: Units, x: Units, y: Units)
    requires Quote(s) + x == Quote(t) + y
    ensures s == t && x == y
  {
    QuoteThen(s, x);
    QuoteThen(t, y);
    assert ([QUOTE] + (Body(s) + ([QUOTE] + x)))[1..] == Body(s) + ([QUOTE] + x);
    assert ([QUOTE] + (Body(t) + ([QUOTE] + y)))[1..] == Body(t) + ([QUOTE] + y);
    ReadQuoted(s, x);
    ReadQuoted(t, y);
  }

  lemma {:induction false} QuoteThen(s: Units, x: Units)
    ensures Quote(s) + x == [QUOTE] + (Body(s) + ([QUOTE] + x))
  {
    var b := Body(s);
    Assoc([QUOTE] + b, [QUOTE], x);
    Assoc([QUOTE], b, [QUOTE] + x);
  }

  /** The part of a bracketed list after its first element. */
  function ItemsRest(items: seq<Json>): Units
    requires items != []
  {
    if |items| == 1 then [] else [COMMA] + ItemsText(items[1..])
  }

  function FieldsRest(fields: seq<(Units, Json)>): Units
    requires fields != []
  {
    if |fields| == 1 then [] else [COMMA] + FieldsText(fields[1..])
  }

  predicate PlainItems(items: seq<Json>) { forall i :: 0 <= i < |items| ==> Plain(items[i]) }
  predicate PlainFields(fields: seq<(Units, Json)>) { forall i :: 0 <= i < |fields| ==> Plain(fields[i].1) }

  /** Two plain values with the same text, up to where a value may stop, are the same value. */
  lemma {:induction false} TextPrefix(v: Json, w: Json, x: Units, y: Units)
    requires Plain(v) && Plain(w) && Stop(x) && Stop(y) && Text(v) + x == Text(w) + y
    ensures v == w && x == y
    decreases v, 0
  {
    TextStarts(v);
    TextStarts(w);
    assert (Text(v) + x)[0] == Text(v)[0] && (Text(w) + y)[0] == Text(w)[0];
    match v
    case Null => SplitEqual(Text(v), Text(w), x, y);
    case Bool(_) => SplitEqual(Text(v), Text(w), x, y);
    case Num(t) => NumberPrefix(t, w.text, x, y);
    case Str(s) => QuotePrefix(s, w.s, x, y);
    case Arr(items) =>
      Bracketed(0x5B, ItemsText(items), 0x5D, x, ItemsText(w.items), y);
      ItemsPrefix(items, w.items, x, y);
    case Obj(fields) =>
      Bracketed(0x7B, FieldsText(fields), 0x7D, x, FieldsText(w.fields), y);
      FieldsPrefix(fields, w.fields, x, y);
  }

  lemma {:induction false} Bracketed(open: Unit, a: Units, close: Unit, x: Units, b: Units, y: Units)
    requires [open] + a + [close] + x == [open] + b + [close] + y
    ensures a + ([close] + x) == b + ([close] + y)
  {
    assert ([open] + a + [close] + x)[1..] == a + ([close] + x);
    assert ([open] + b + [close] + y)[1..] == b + ([close] + y);
  }

  /** What is left of a list once its first element is read starts with a comma or the bracket. */
  lemma {:induction false} RestStep(many: bool, more: Units, close: Unit, x: Units, many': bool, more': Units, y: Units)
    requires close != COMMA
    requires (if many then [COMMA] + more else []) + ([close] + x) ==
             (if many' then [COMMA] + more' else []) + ([close] + y)
    ensures many == many'
    ensures if many then more + ([close] + x) == more' + ([close] + y) else x == y
  {
    var ra := (if many then [COMMA] + more else []) + ([close] + x);
    var rb := (if many' then [COMMA] + more' else []) + ([close] + y);
    assert ra[0] == (if many then COMMA else close) && rb[0] == (if many' then COMMA else close);
    assert ra[1..] == if many then more + ([close] + x) else x;
    assert rb[1..] == if many' then more' + ([close] + y) else y;
  }

  lemma {:induction false} ItemsPrefix(a: seq<Json>, b: seq<Json>, x: Units, y: Units)
    requires PlainItems(a) && PlainItems(b)
    requires ItemsText(a) + ([0x5D] + x) == ItemsText(b) + ([0x5D] + y)
    ensures a == b && x == y
    decreases a, 1
  {
    if a == [] || b == [] {
      EmptyList(0x5D, ItemsText(a), ItemsText(b), x, y);
      if a != [] { TextStarts(a[0]); }
      if b != [] { TextStarts(b[0]); }
    } else {
      var ra, rb := ItemsRest(a) + ([0x5D] + x), ItemsRest(b) + ([0x5D] + y);
      Assoc(Text(a[0]), ItemsRest(a), [0x5D] + x);
      Assoc(Text(b[0]), ItemsRest(b), [0x5D] + y);
      TextPrefix(a[0], b[0], ra, rb);
      RestStep(|a| > 1, ItemsText(a[1..]), 0x5D, x, |b| > 1, ItemsText(b[1..]), y);
      if |a| > 1 {
        ItemsPrefix(a[1..], b[1..], x, y);
      }
      assert a == [a[0]] + a[1..] && b == [b[0]] + b[1..];
    }
  }

  function First(t: Units, close: Unit): Unit { if t == [] then close else t[0] }

  lemma {:induction false} StartsWith(t: Units, close: Unit, x: Units)
    ensures (t + ([close] + x))[0] == First(t, close)
  {
  }

  /** An empty list cannot look like one with elements, whose text starts with another unit. */
  lemma {:induction false} EmptyList(close: Unit, a: Units, b: Units, x: Units, y: Units)
    requires a + ([close] + x) == b + ([close] + y) && (a == [] || b == [])
    requires (a != [] ==> a[0] != close) && (b != [] ==> b[0] != close)
    ensures a == b && x == y
  {
    StartsWith(a, close, x);
    StartsWith(b, close, y);
    SplitEqual(a, b, [close] + x, [close] + y);
    SplitEqual([close], [close], x, y);
  }

  lemma {:induction false} FieldPrefix(f: (Units, Json), g: (Units, Json), x: Units, y: Units)
    requires Plain(f.1) && Plain(g.1) && Stop(x) && Stop(y) && FieldText(f) + x == FieldText(g) + y
    ensures f == g && x == y
    decreases f, 1
  {
    Assoc(Quote(f.0) + [COLON], Text(f.1), x);
    Assoc(Quote(g.0) + [COLON], Text(g.1), y);
    Assoc(Quote(f.0), [COLON], Text(f.1) + x);
    Assoc(Quote(g.0), [COLON], Text(g.1) + y);
    QuotePrefix(f.0, g.0, [COLON] + (Text(f.1) + x), [COLON] + (Text(g.1) + y));
    SplitEqual([COLON], [COLON], Text(f.1) + x, Text(g.1) + y);
    TextPrefix(f.1, g.1, x, y);
  }

  lemma {:induction false} FieldsPrefix(a: seq<(Units, Json)>, b: seq<(Units, Json)>, x: Units, y: Units)
    requires PlainFields(a) && PlainFields(b)
    requires FieldsText(a) + ([0x7D] + x) == FieldsText(b) + ([0x7D] + y)
    ensures a == b && x == y
    decreases a, 2
  {
    if a == [] || b == [] {
      if a != [] { assert FieldsText(a)[0] == Quote(a[0].0)[0]; }
      if b != [] { assert FieldsText(b)[0] == Quote(b[0].0)[0]; }
      EmptyList(0x7D, FieldsText(a), FieldsText(b), x, y);
    } else {
      var ra, rb := FieldsRest(a) + ([0x7D] + x), FieldsRest(b) + ([0x7D] + y);
      Assoc(FieldText(a[0]), FieldsRest(a), [0x7D] + x);
      Assoc(FieldText(b[0]), FieldsRest(b), [0x7D] + y);
      FieldPrefix(a[0], b[0], ra, rb);
      RestStep(|a| > 1, FieldsText(a[1..]), 0x7D, x, |b| > 1, FieldsText(b[1..]), y);
      if |a| > 1 {
        FieldsPrefix(a[1..], b[1..], x, y);
      }
      assert a == [a[0]] + a[1..] && b == [b[0]] + b[1..];
    }
  }

  /** Text determines the value: plain values with equal text are equal. */
  lemma {:induction false} TextInjective(v: Json, w: Json)
    requires Plain(v) && Plain(w) && Text(v) == Text(w)
    ensures v == w
  {
    assert Text(v) + [] == Text(w) + [];
    TextPrefix(v, w, [], []);
  }
}
