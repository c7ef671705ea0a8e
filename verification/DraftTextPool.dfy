/** Retained draft text (src/client/draft-retention.ts). */
module Utf8 {
  import opened JsonText

  /** Bytes of the UTF-8 form of UTF-16 text, as `TextEncoder` writes it: a lone surrogate becomes U+FFFD. */
  function Length(s: Units): nat {
    if s == [] then 0
    else if |s| > 1 && High(s[0]) && Low(s[1]) then 4 + Length(s[2..])
    else (if s[0] < 0x80 then 1 else if s[0] < 0x800 then 2 else 3) + Length(s[1..])
  }

  lemma {:induction false} LengthBounds(s: Units)
    ensures |s| <= Length(s) <= 3 * |s|
  {
    if s == [] {
    } else if |s| > 1 && High(s[0]) && Low(s[1]) {
      LengthBounds(s[2..]);
    } else {
      LengthBounds(s[1..]);
    }
  }
}

module DraftText {
  import opened Options
  import opened JsonText
  import Utf8

  const TEXT_BYTES := 65536
  const RETAINED_BYTES := 512 * 1024
  const RETAINED_VALUES := 32
  const RETAINED_REFERENCES := 128

  /** `draftTextBytes` (src/client/draft-retention.ts:11-17); none stands for the capacity error. */
  function DraftTextBytes(text: Units): Option<nat> {
    if |text| > TEXT_BYTES then None
    else if Utf8.Length(text) > TEXT_BYTES then None
    else Some(Utf8.Length(text))
  }

  /** The quick length test refuses only text that the byte limit would refuse. */
  lemma {:induction false} QuickTestIsExact(text: Units)
    ensures DraftTextBytes(text) == if Utf8.Length(text) <= TEXT_BYTES then Some(Utf8.Length(text)) else None
  {
    Utf8.LengthBounds(text);
  }

  /** What a token holds: one text of one owner. */
  datatype Held = Held(owner: nat, text: Units)
  datatype Value = Value(bytes: nat, references: nat)
  datatype Outcome = Done | TextLimit | AccountLimit

  type Tokens = map<nat, Held>

  ghost function Holders(tokens: Tokens, h: Held): set<nat> { set t | t in tokens && tokens[t] == h }

  ghost function Distinct(tokens: Tokens): set<Held> { set t | t in tokens :: tokens[t] }

  /** The bytes of a set of values, each counted once. */
  ghost function Sum(values: set<Held>): nat {
    if values == {} then 0
    else
      var h :| h in values;
      Utf8.Length(h.text) + Sum(values - {h})
  }

  lemma {:induction false} SumOf(values: set<Held>, h: Held)
    requires h in values
    ensures Sum(values) == Utf8.Length(h.text) + Sum(values - {h})
  {
    var g :| g in values && Sum(values) == Utf8.Length(g.text) + Sum(values - {g});
    if g != h {
      SumOf(values - {g}, h);
      SumOf(values - {h}, g);
      assert values - {g} - {h} == values - {h} - {g};
    }
  }

  /** What the tokens hold after a replacement: an empty text is never held. */
  function Replaced(tokens: Tokens, owner: nat, token: nat, text: Units): Tokens {
    if text == [] then tokens - {token} else tokens[token := Held(owner, text)]
  }

  predicate Holds(tokens: Tokens, token: nat, held: Option<Held>) {
    if held.None? then token !in tokens else token in tokens && tokens[token] == held.value
  }

  predicate OthersKept(was: Tokens, now: Tokens, token: nat) {
    && (forall t :: t in was && t != token ==> t in now && now[t] == was[t])
    && (forall t :: t in now && t != token ==> t in was)
  }

  predicate WithinCount(tokens: Tokens) { |tokens| <= RETAINED_REFERENCES }

  ghost predicate WithinLimits(tokens: Tokens) {
    && WithinCount(tokens)
    && Sum(Distinct(tokens)) <= RETAINED_BYTES
    && |Distinct(tokens)| <= RETAINED_VALUES
  }

  lemma {:induction false} HeldOnce(tokens: Tokens, token: nat)
    requires token in tokens
    ensures token in Holders(tokens, tokens[token])
    ensures |Holders(tokens, tokens[token])| == 1 ==> Holders(tokens, tokens[token]) == {token}
    ensures |Holders(tokens, tokens[token])| > 0
  {
    var all := Holders(tokens, tokens[token]);
    assert token in all;
    if |all| == 1 {
      assert |all - {token}| == 0;
      assert all - {token} == {};
    }
  }

  /** Removing a token removes its value exactly when no other token holds it. */
  lemma {:induction false} RemoveToken(tokens: Tokens, token: nat)
    requires token in tokens
    ensures var h, less := tokens[token], tokens - {token};
            && Distinct(less) == (if |Holders(tokens, h)| == 1 then Distinct(tokens) - {h} else Distinct(tokens))
            && Holders(less, h) == Holders(tokens, h) - {token}
            && forall g :: g != h ==> Holders(less, g) == Holders(tokens, g)
  {
    var h, less := tokens[token], tokens - {token};
    HeldOnce(tokens, token);
    assert Holders(less, h) == Holders(tokens, h) - {token};
    forall g | g != h ensures Holders(less, g) == Holders(tokens, g) {}
    forall g | g in Distinct(tokens) && g != h ensures g in Distinct(less) {
      var t :| t in tokens && tokens[t] == g;
      assert t in less && less[t] == g;
    }
    if |Holders(tokens, h)| != 1 {
      var others := Holders(tokens, h) - {token};
      assert |others| > 0;
      var t :| t in others;
      assert t in less && less[t] == h;
    } else {
      assert forall t :: t in less ==> t !in Holders(tokens, h) && less[t] != h;
    }
  }

  lemma {:induction false} AddToken(tokens: Tokens, token: nat, h: Held)
    requires token !in tokens
    ensures var more := tokens[token := h];
            && Distinct(more) == Distinct(tokens) + {h}
            && Holders(more, h) == Holders(tokens, h) + {token} && token !in Holders(tokens, h)
            && forall g :: g != h ==> Holders(more, g) == Holders(tokens, g)
  {
    var more := tokens[token := h];
    forall g | g in Distinct(tokens) ensures g in Distinct(more) {
      var t :| t in tokens && tokens[t] == g;
      assert t in more && more[t] == g;
    }
    assert token in more && more[token] == h;
  }

  /** The entries without one reference to a value, and with one more. */
  function Dropped(values: map<Held, Value>, h: Held): map<Held, Value>
    requires h in values && values[h].references > 0
  {
    if values[h].references == 1 then values - {h} else values[h := Value(values[h].bytes, values[h].references - 1)]
  }

  function Gained(values: map<Held, Value>, h: Held): map<Held, Value> {
    if h in values then values[h := Value(values[h].bytes, values[h].references + 1)]
    else values[h := Value(Utf8.Length(h.text), 1)]
  }

  ghost predicate Entries(tokens: Tokens, values: map<Held, Value>) {
    && values.Keys == Distinct(tokens)
    && (forall h {:trigger Holders(tokens, h)} :: h in values ==>
          h.text != [] && values[h] == Value(Utf8.Length(h.text), |Holders(tokens, h)|))
  }

  lemma {:induction false} DroppedEntries(tokens: Tokens, token: nat, values: map<Held, Value>)
    requires Entries(tokens, values) && token in tokens
    ensures tokens[token] in values && values[tokens[token]].references == |Holders(tokens, tokens[token])| > 0
    ensures tokens[token].text != [] && values[tokens[token]].bytes == Utf8.Length(tokens[token].text)
    ensures Entries(tokens - {token}, Dropped(values, tokens[token]))
  {
    assert tokens[token] in Distinct(tokens);
    RemoveToken(tokens, token);
    HeldOnce(tokens, token);
    var less, rest := tokens - {token}, Dropped(values, tokens[token]);
    forall h | h in rest ensures h.text != [] && rest[h] == Value(Utf8.Length(h.text), |Holders(less, h)|) {
      assert h in values && values[h] == Value(Utf8.Length(h.text), |Holders(tokens, h)|);
    }
  }

  lemma {:induction false} DroppedTotals(tokens: Tokens, token: nat)
    requires token in tokens
    ensures var h, less := tokens[token], tokens - {token};
            var last := |Holders(tokens, h)| == 1;
            && Sum(Distinct(less)) == Sum(Distinct(tokens)) - (if last then Utf8.Length(h.text) else 0)
            && |Distinct(less)| == |Distinct(tokens)| - (if last then 1 else 0)
  {
    assert tokens[token] in Distinct(tokens);
    RemoveToken(tokens, token);
    SumOf(Distinct(tokens), tokens[token]);
  }

  lemma {:induction false} GainedEntries(tokens: Tokens, token: nat, h: Held, values: map<Held, Value>)
    requires Entries(tokens, values) && token !in tokens && h.text != []
    ensures Entries(tokens[token := h], Gained(values, h))
  {
    AddToken(tokens, token, h);
    if h !in values {
      assert Holders(tokens, h) == {} by { assert forall t :: t in tokens ==> tokens[t] in Distinct(tokens); }
    }
  }

  lemma {:induction false} GainedTotals(tokens: Tokens, token: nat, h: Held)
    requires token !in tokens
    ensures var more := tokens[token := h];
            && Sum(Distinct(more)) == Sum(Distinct(tokens)) + (if h in Distinct(tokens) then 0 else Utf8.Length(h.text))
            && |Distinct(more)| == |Distinct(tokens)| + (if h in Distinct(tokens) then 0 else 1)
  {
    AddToken(tokens, token, h);
    if h in Distinct(tokens) {
      assert Distinct(tokens) + {h} == Distinct(tokens);
    } else {
      SumOf(Distinct(tokens) + {h}, h);
      assert Distinct(tokens) + {h} - {h} == Distinct(tokens);
    }
  }

  /** The incremental totals that `replace` tests are those of the tokens it would leave. */
  lemma {:induction false} Recount(tokens: Tokens, token: nat, next: Held, after: Tokens)
    requires !(token in tokens && tokens[token] == next) && after == Replaced(tokens, next.owner, token, next.text)
    ensures var last := token in tokens && |Holders(tokens, tokens[token])| == 1;
            var adding := next.text != [] && next !in Distinct(tokens);
            && Sum(Distinct(after)) ==
                 Sum(Distinct(tokens)) - (if last then Utf8.Length(tokens[token].text) else 0)
                     + (if adding then Utf8.Length(next.text) else 0)
            && |Distinct(after)| == |Distinct(tokens)| - (if last then 1 else 0) + (if adding then 1 else 0)
  {
    var less := tokens - {token};
    if token in tokens {
      DroppedTotals(tokens, token);
      RemoveToken(tokens, token);
    } else {
      assert less == tokens;
    }
    if next.text == [] {
      assert after == less;
    } else {
      assert after == less[token := next];
      GainedTotals(less, token, next);
    }
  }

  lemma {:induction false} ReplacedInSteps(tokens: Tokens, token: nat, next: Held)
    ensures Replaced(tokens, next.owner, token, next.text) ==
              if next.text == [] then Less(tokens, token) else Less(tokens, token)[token := next]
  {}

  function Less(tokens: Tokens, token: nat): (r: Tokens)
    ensures token !in tokens ==> r == tokens
  {
    tokens - {token}
  }

  lemma {:induction false} HeldAlready(tokens: Tokens, token: nat)
    requires token in tokens && tokens[token].text != []
    ensures Replaced(tokens, tokens[token].owner, token, tokens[token].text) == tokens
  {}

  lemma {:induction false} DroppedCount(tokens: Tokens, token: nat)
    requires WithinCount(tokens) && token in tokens
    ensures |Less(tokens, token)| == |tokens| - 1
  {
    assert Less(tokens, token).Keys == tokens.Keys - {token};
  }

  lemma {:induction false} KeyCount(tokens: Tokens, token: nat, h: Held)
    ensures |tokens[token := h]| == |tokens| + if token in tokens then 0 else 1
    ensures |tokens - {token}| <= |tokens|
  {
    assert tokens[token := h].Keys == tokens.Keys + {token};
    assert (tokens - {token}).Keys == tokens.Keys - {token};
    if token in tokens { assert tokens.Keys + {token} == tokens.Keys; }
  }

  lemma {:induction false} ReplacedCount(tokens: Tokens, token: nat, next: Held)
    requires WithinCount(tokens)
    ensures WithinCount(Replaced(tokens, next.owner, token, next.text)) <==>
              !(next.text != [] && token !in tokens && |tokens| >= RETAINED_REFERENCES)
  {
    KeyCount(tokens, token, next);
  }

  /** The totals count each held value once. */
  ghost predicate Totals(values: map<Held, Value>, bytes: int, count: int) {
    bytes == Sum(values.Keys) && count == |values.Keys| && bytes <= RETAINED_BYTES && count <= RETAINED_VALUES
  }

  lemma {:induction false} DroppedSum(values: map<Held, Value>, h: Held, bytes: int, count: int)
    requires h in values && values[h].references > 0 && values[h].bytes == Utf8.Length(h.text)
             && Totals(values, bytes, count)
    ensures values[h].references == 1 ==> Totals(Dropped(values, h), bytes - values[h].bytes, count - 1)
    ensures values[h].references != 1 ==> Totals(Dropped(values, h), bytes, count)
  {
    SumOf(values.Keys, h);
    if values[h].references == 1 {
      assert Dropped(values, h).Keys == values.Keys - {h};
    } else {
      assert Dropped(values, h).Keys == values.Keys;
    }
  }

  lemma {:induction false} GainedSum(values: map<Held, Value>, h: Held, bytes: int, count: int)
    requires Totals(values, bytes, count)
    ensures h in values ==> Totals(Gained(values, h), bytes, count)
    ensures h !in values && bytes + Utf8.Length(h.text) <= RETAINED_BYTES && count < RETAINED_VALUES ==>
              Totals(Gained(values, h), bytes + Utf8.Length(h.text), count + 1)
  {
    if h in values {
      assert Gained(values, h).Keys == values.Keys;
    } else {
      SumOf(values.Keys + {h}, h);
      assert Gained(values, h).Keys == values.Keys + {h};
      assert values.Keys + {h} - {h} == values.Keys;
    }
  }

  class DraftTextPool {
    /** The source keeps these per owner and text, in a map of maps. */
    var values: map<Held, Value>
    var tokens: Tokens
    var bytes: int
    var count: int

    /** The entries are those of the tokens, the totals those of the entries, and every limit holds. */
    ghost predicate Valid() reads this {
      Entries(tokens, values) && Totals(values, bytes, count) && WithinCount(tokens)
    }

    constructor ()
      ensures Valid() && tokens == map[]
    {
      values, tokens, bytes, count := map[], map[], 0, 0;
    }

    /** `replace` (src/client/draft-retention.ts:25-42): refused exactly when the outcome would break a limit. */
    method Replace(owner: nat, token: nat, text: Units) returns (outcome: Outcome)
      requires Valid()
      modifies this
      ensures Valid()
      ensures outcome == TextLimit <==> Utf8.Length(text) > TEXT_BYTES
      ensures outcome == AccountLimit <==>
                Utf8.Length(text) <= TEXT_BYTES && !WithinLimits(Replaced(old(tokens), owner, token, text))
      ensures outcome == Done ==>
                && tokens == Replaced(old(tokens), owner, token, text)
                && Holds(tokens, token, if text == [] then None else Some(Held(owner, text)))
                && OthersKept(old(tokens), tokens, token)
      ensures outcome != Done ==>
                tokens == old(tokens) && values == old(values) && bytes == old(bytes) && count == old(count)
    {
      QuickTestIsExact(text);
      var size := DraftTextBytes(text);
      if size.None? { return TextLimit; }
      var next := Held(owner, text);
      if token in tokens && tokens[token] == next {
        DroppedEntries(tokens, token, values);
        HeldAlready(tokens, token);
        return Done;
      }
      var fits := Fits(token, next, size.value);
      if !fits { return AccountLimit; }
      ReplacedInSteps(tokens, token, next);
      Release(token);
      if text != [] { Hold(token, next, size.value); }
      outcome := Done;
    }

    /** The capacity test of `replace`, on the incremental totals. */
    method Fits(token: nat, next: Held, size: nat) returns (fits: bool)
      requires Valid() && size == Utf8.Length(next.text) && !(token in tokens && tokens[token] == next)
      ensures fits <==> WithinLimits(Replaced(tokens, next.owner, token, next.text))
      ensures fits && next.text != [] && token !in tokens ==> |tokens| < RETAINED_REFERENCES
      ensures fits && next.text != [] && next !in values ==>
                && bytes + size <= RETAINED_BYTES + LastBytes(token)
                && count + 1 <= RETAINED_VALUES + Last(token)
    {
      Recount(tokens, token, next, Replaced(tokens, next.owner, token, next.text));
      ReplacedCount(tokens, token, next);
      if token in tokens { DroppedEntries(tokens, token, values); }
      var replacingLast := token in tokens && values[tokens[token]].references == 1;
      var adding := next.text != [] && next !in values;
      fits := !(
        || (next.text != [] && token !in tokens && |tokens| >= RETAINED_REFERENCES)
        || bytes - (if replacingLast then values[tokens[token]].bytes else 0)
            + (if adding then size else 0) > RETAINED_BYTES
        || count - (if replacingLast then 1 else 0) + (if adding then 1 else 0) > RETAINED_VALUES);
    }

    /** What releasing the token would free. */
    ghost function Last(token: nat): nat reads this {
      if token in tokens && tokens[token] in values && values[tokens[token]].references == 1 then 1 else 0
    }

    ghost function LastBytes(token: nat): nat reads this {
      if token in tokens && tokens[token] in values && values[tokens[token]].references == 1
      then values[tokens[token]].bytes else 0
    }

    /** The end of `replace`: the token takes its new value. */
    method Hold(token: nat, next: Held, size: nat)
      requires Valid() && token !in tokens && next.text != [] && size == Utf8.Length(next.text)
      requires |tokens| < RETAINED_REFERENCES
      requires next !in values ==> bytes + size <= RETAINED_BYTES && count < RETAINED_VALUES
      modifies this
      ensures Valid() && tokens == old(tokens)[token := next]
    {
      GainedEntries(tokens, token, next, values);
      GainedSum(values, next, bytes, count);
      if next !in values {
        bytes := bytes + size;
        count := count + 1;
      }
      values := Gained(values, next);
      tokens := tokens[token := next];
    }

    /** `release` (src/client/draft-retention.ts:43-49). */
    method Release(token: nat)
      requires Valid()
      modifies this
      ensures Valid() && tokens == Less(old(tokens), token)
      ensures Holds(tokens, token, None) && OthersKept(old(tokens), tokens, token)
      ensures bytes == old(bytes) - old(LastBytes(token)) && count == old(count) - old(Last(token))
      ensures values.Keys <= old(values).Keys
      ensures token in old(tokens) ==> forall h :: h in old(values) && h != old(tokens)[token] ==> h in values
      ensures token !in old(tokens) ==> values == old(values)
    {
      if token in tokens { Drop(token); }
    }

    method Drop(token: nat)
      requires Valid() && token in tokens
      modifies this
      ensures Valid() && tokens == Less(old(tokens), token)
      ensures bytes == old(bytes) - old(LastBytes(token)) && count == old(count) - old(Last(token))
      ensures values.Keys <= old(values).Keys
      ensures forall h :: h in old(values) && h != old(tokens)[token] ==> h in values
    {
      var held, less := tokens[token], Less(tokens, token);
      DroppedEntries(tokens, token, values);
      DroppedSum(values, held, bytes, count);
      DroppedCount(tokens, token);
      if values[held].references == 1 {
        bytes, count := bytes - values[held].bytes, count - 1;
      }
      values := Dropped(values, held);
      tokens := less;
    }
  }
}
