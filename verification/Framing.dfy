/** Response framing, checked on a whole stream (src/protocol.ts) and frame by frame (src/runtime.ts). */
module Framing {
  import opened Options

  datatype Usage = Usage(input: nat, output: nat, total: nat)

  datatype Body =
    | Started
    | Text(delta: string)
    | ToolCall(call: nat)
    | Used(usage: Usage)
    | Completed(toolCalls: bool)
    | Cancelled
    | Error

  datatype Frame = Frame(request: nat, trace: nat, sequence: nat, body: Body)

  predicate Terminal(f: Frame) { f.body.Completed? || f.body.Cancelled? || f.body.Error? }

  // ---------------------------------------------------------------- the whole stream

  /** What both checks ask of a stream: its frames in order under one identity, one start, and a terminal frame last. */
  predicate Framed(s: seq<Frame>) {
    && |s| > 0
    && (forall i :: 0 <= i < |s| ==> s[i].request == s[0].request && s[i].trace == s[0].trace && s[i].sequence == i)
    && (forall i :: 0 <= i < |s| ==> (s[i].body.Started? <==> i == 0))
    && (forall i :: 0 <= i < |s| ==> (Terminal(s[i]) <==> i == |s| - 1))
  }

  /** What only the whole-stream check asks. */
  predicate Consistent(s: seq<Frame>) {
    && Monotone(s) && CallsDiffer(s)
    && (|s| > 0 && s[|s| - 1].body == Completed(true) ==> exists i :: 0 <= i < |s| && s[i].body.ToolCall?)
  }

  predicate NotLess(a: Usage, b: Usage) { b.input <= a.input && b.output <= a.output && b.total <= a.total }

  predicate InOrder(s: seq<Frame>, i: nat)
    requires i <= |s|
  {
    && (forall k :: 0 <= k < i ==> s[k].request == s[0].request && s[k].trace == s[0].trace && s[k].sequence == k)
    && (forall k :: 0 <= k < i ==> (s[k].body.Started? <==> k == 0))
    && (forall k :: 0 <= k < i ==> (Terminal(s[k]) ==> k == |s| - 1))
  }

  /** Frame `i` continues the stream that the first frame begins. */
  predicate InPlace(s: seq<Frame>, i: nat)
    requires i < |s|
  {
    && s[i].request == s[0].request && s[i].trace == s[0].trace && s[i].sequence == i
    && (s[i].body.Started? <==> i == 0) && (Terminal(s[i]) ==> i == |s| - 1)
  }

  lemma {:induction false} InOrderStep(s: seq<Frame>, i: nat)
    requires i < |s| && InOrder(s, i)
    ensures InOrder(s, i + 1) <==> InPlace(s, i)
    ensures Framed(s) ==> InPlace(s, i)
  {}

  lemma {:induction false} InOrderIsFramed(s: seq<Frame>)
    requires |s| > 0 && InOrder(s, |s|)
    ensures Framed(s) <==> Terminal(s[|s| - 1])
  {}

  predicate Monotone(s: seq<Frame>) {
    forall i, j :: 0 <= i < j < |s| && s[i].body.Used? && s[j].body.Used? ==> NotLess(s[j].body.usage, s[i].body.usage)
  }

  predicate CallsDiffer(s: seq<Frame>) {
    forall i, j :: 0 <= i < j < |s| && s[i].body.ToolCall? && s[j].body.ToolCall? ==> s[i].body.call != s[j].body.call
  }

  /** The latest usage of a stream. */
  function Latest(s: seq<Frame>): Option<Usage> {
    if s == [] then None
    else if s[|s| - 1].body.Used? then Some(s[|s| - 1].body.usage) else Latest(s[..|s| - 1])
  }

  function Calls(s: seq<Frame>): set<nat> {
    if s == [] then {}
    else Calls(s[..|s| - 1]) + (if s[|s| - 1].body.ToolCall? then {s[|s| - 1].body.call} else {})
  }

  lemma {:induction false} LatestSpec(s: seq<Frame>, k: nat)
    requires Monotone(s) && k < |s| && s[k].body.Used?
    ensures Latest(s).Some? && NotLess(Latest(s).value, s[k].body.usage)
  {
    if !s[|s| - 1].body.Used? { LatestSpec(s[..|s| - 1], k); }
  }

  lemma {:induction false} LatestOccurs(s: seq<Frame>)
    ensures Latest(s).Some? ==> exists k :: 0 <= k < |s| && s[k].body == Used(Latest(s).value)
  {
    if s != [] { LatestOccurs(s[..|s| - 1]); }
  }

  lemma {:induction false} CallsSpec(s: seq<Frame>, c: nat)
    ensures c in Calls(s) <==> exists k :: 0 <= k < |s| && s[k].body == ToolCall(c)
  {
    if s != [] { CallsSpec(s[..|s| - 1], c); }
  }

  /** Comparing with the latest usage is comparing with all. */
  lemma {:induction false} MonotoneStep(s: seq<Frame>, f: Frame)
    requires Monotone(s)
    ensures Monotone(s + [f]) <==> !(f.body.Used? && Latest(s).Some? && !NotLess(f.body.usage, Latest(s).value))
  {
    LatestOccurs(s);
    if f.body.Used? && Latest(s).Some? && !NotLess(f.body.usage, Latest(s).value) {
      var k :| 0 <= k < |s| && s[k].body == Used(Latest(s).value);
      assert (s + [f])[k] == s[k] && (s + [f])[|s|] == f;
    } else {
      forall k | 0 <= k < |s| && s[k].body.Used? && f.body.Used? ensures NotLess(f.body.usage, s[k].body.usage) {
        LatestSpec(s, k);
      }
    }
  }

  lemma {:induction false} CallsStep(s: seq<Frame>, f: Frame)
    requires CallsDiffer(s)
    ensures CallsDiffer(s + [f]) <==> !(f.body.ToolCall? && f.body.call in Calls(s))
  {
    if f.body.ToolCall? {
      CallsSpec(s, f.body.call);
      if k :| 0 <= k < |s| && s[k].body == ToolCall(f.body.call) {
        assert (s + [f])[k] == s[k] && (s + [f])[|s|] == f;
      }
    }
  }

  lemma {:induction false} PrefixesAgree(s: seq<Frame>, i: nat)
    requires i <= |s|
    ensures Monotone(s) ==> Monotone(s[..i])
    ensures CallsDiffer(s) ==> CallsDiffer(s[..i])
  {}

  lemma {:induction false} SomeCall(s: seq<Frame>)
    ensures Calls(s) != {} <==> exists i :: 0 <= i < |s| && s[i].body.ToolCall?
  {
    if i :| 0 <= i < |s| && s[i].body.ToolCall? { CallsSpec(s, s[i].body.call); }
    if Calls(s) != {} {
      var c :| c in Calls(s);
      CallsSpec(s, c);
    }
  }

  /** What the loop has gathered from the first `i` frames. */
  predicate Gathered(s: seq<Frame>, i: nat, calls: set<nat>, last: Option<Usage>)
    requires i <= |s|
  {
    InOrder(s, i) && Monotone(s[..i]) && CallsDiffer(s[..i]) && last == Latest(s[..i]) && calls == Calls(s[..i])
  }

  /** One turn of the loop: the checks of one frame, and what is remembered of it. */
  method CheckFrame(s: seq<Frame>, i: nat, calls: set<nat>, last: Option<Usage>)
    returns (ok: bool, nextCalls: set<nat>, nextLast: Option<Usage>)
    requires i < |s| && Gathered(s, i, calls, last)
    ensures ok ==> Gathered(s, i + 1, nextCalls, nextLast)
    ensures !ok ==> !(Framed(s) && Consistent(s))
  {
    var f := s[i];
    nextCalls, nextLast := calls, last;
    InOrderStep(s, i);
    assert s[..i + 1] == s[..i] + [f] && s[..i + 1][..i] == s[..i];
    PrefixesAgree(s, i + 1);
    MonotoneStep(s[..i], f);
    CallsStep(s[..i], f);
    if f.request != s[0].request || f.trace != s[0].trace || f.sequence != i { return false, calls, last; }
    if (i > 0 && f.body.Started?) || (i == 0 && !f.body.Started?) { return false, calls, last; }
    if Terminal(f) && i != |s| - 1 { return false, calls, last; }
    if f.body.Used? {
      if last.Some? && !NotLess(f.body.usage, last.value) { return false, calls, last; }
      nextLast := Some(f.body.usage);
    }
    if f.body.ToolCall? {
      if f.body.call in calls { return false, calls, last; }
      nextCalls := calls + {f.body.call};
    }
    ok := true;
  }

  /** `parseStreamEvents` (src/protocol.ts:1306-1408), without citation batches. */
  method ParseStreamEvents(s: seq<Frame>) returns (ok: bool)
    ensures ok <==> Framed(s) && Consistent(s)
  {
    if |s| == 0 { return false; }
    var terminals, calls, last, i := 0, {}, None, 0;
    while i < |s|
      invariant 0 <= i <= |s| && Gathered(s, i, calls, last)
      invariant terminals == if i == |s| && Terminal(s[|s| - 1]) then 1 else 0
    {
      ok, calls, last := CheckFrame(s, i, calls, last);
      if !ok { return; }
      if Terminal(s[i]) { terminals := terminals + 1; }
      i := i + 1;
    }
    assert s[..i] == s;
    InOrderIsFramed(s);
    SomeCall(s);
    ok := terminals == 1 && !(s[|s| - 1].body == Completed(true) && calls == {});
  }

  // ---------------------------------------------------------------- frame by frame

  /** A fresh turn's memory: nothing durable, frames kept whole where the source keeps fingerprints. */
  datatype State = State(expected: nat, identity: Option<(nat, nat)>, live: map<(nat, nat), Frame>, last: bool)

  datatype Verdict = Accepted | Duplicate | Rejected

  const FRESH := State(0, None, map[], false)

  /** `acceptFrame` (src/runtime.ts:2385-2438) without durable frames. */
  function Judge(st: State, f: Frame): Verdict {
    var key := (f.request, f.sequence);
    if key in st.live && st.live[key] != f then Rejected
    else if f.sequence < st.expected then (if key in st.live then Duplicate else Rejected)
    else if f.sequence != st.expected || st.last then Rejected
    else if key in st.live then Duplicate
    else if st.identity.None? && !(f.body.Started? && f.sequence == 0) then Rejected
    else if st.identity.Some? && st.identity.value != (f.request, f.trace) then Rejected
    else if f.body.Started? && f.sequence != 0 then Rejected
    else Accepted
  }

  function After(st: State, f: Frame): State {
    match Judge(st, f)
    case Accepted => State(st.expected + 1, Some((f.request, f.trace)), st.live[(f.request, f.sequence) := f],
        Terminal(f))
    case Duplicate => if f.sequence < st.expected then st else st.(expected := st.expected + 1)
    case Rejected => st
  }

  function Feed(s: seq<Frame>): State {
    if s == [] then FRESH else After(Feed(s[..|s| - 1]), s[|s| - 1])
  }

  predicate NoneRejected(s: seq<Frame>) {
    s == [] || (NoneRejected(s[..|s| - 1]) && !Judge(Feed(s[..|s| - 1]), s[|s| - 1]).Rejected?)
  }

  /** The frames of a delivery that were accepted, in order. */
  function Taken(s: seq<Frame>): seq<Frame> {
    if s == [] then []
    else Taken(s[..|s| - 1]) + (if Judge(Feed(s[..|s| - 1]), s[|s| - 1]).Accepted? then [s[|s| - 1]] else [])
  }

  /** A beginning of a framed stream; a terminal frame can only be its last. */
  predicate Begun(s: seq<Frame>) {
    && (forall i :: 0 <= i < |s| ==> s[i].request == s[0].request && s[i].trace == s[0].trace && s[i].sequence == i)
    && (forall i :: 0 <= i < |s| ==> (s[i].body.Started? <==> i == 0))
    && (forall i :: 0 <= i < |s| - 1 ==> !Terminal(s[i]))
  }

  /** What the state remembers of the frames taken so far. */
  ghost predicate Remembers(st: State, s: seq<Frame>) {
    && st.expected == |s|
    && st.identity == (if s == [] then None else Some((s[0].request, s[0].trace)))
    && st.last == (s != [] && Terminal(s[|s| - 1]))
    && (forall k {:trigger k in st.live} :: k in st.live <==> 0 <= k.1 < |s| && k.0 == s[0].request)
    && (forall k {:trigger st.live[k]} :: k in st.live ==> k.1 < |s| && st.live[k] == s[k.1])
  }

  lemma {:induction false} AcceptedExtends(st: State, s: seq<Frame>, f: Frame)
    requires Begun(s) && Remembers(st, s) && Judge(st, f).Accepted?
    ensures Begun(s + [f]) && Remembers(After(st, f), s + [f])
  {}

  lemma {:induction false} DuplicateIsKnown(st: State, s: seq<Frame>, f: Frame)
    requires Begun(s) && Remembers(st, s) && Judge(st, f).Duplicate?
    ensures After(st, f) == st && f.sequence < |s| && f == s[f.sequence]
  {}

  /** Every delivery without a rejected frame: what was taken begins a framed stream, and duplicates repeat it. */
  lemma {:induction false} DeliveriesAreFramed(s: seq<Frame>)
    requires NoneRejected(s)
    ensures Begun(Taken(s)) && Remembers(Feed(s), Taken(s))
    ensures forall f :: f in s ==> f in Taken(s)
  {
    if s != [] {
      var init, f := s[..|s| - 1], s[|s| - 1];
      DeliveriesAreFramed(init);
      assert s == init + [f];
      if Judge(Feed(init), f).Accepted? {
        AcceptedExtends(Feed(init), Taken(init), f);
      } else {
        DuplicateIsKnown(Feed(init), Taken(init), f);
        assert Taken(s) == Taken(init);
      }
    }
  }

  /**
   * After any delivery without a rejected frame, a frame is a duplicate exactly when it was taken already, accepted
   * exactly when it continues what was taken, and rejected otherwise.
   */
  lemma {:induction false} VerdictIsExact(s: seq<Frame>, f: Frame)
    requires NoneRejected(s)
    ensures Judge(Feed(s), f).Duplicate? <==> f in Taken(s)
    ensures Judge(Feed(s), f).Accepted? <==> Begun(Taken(s) + [f])
  {
    var t, st := Taken(s), Feed(s);
    DeliveriesAreFramed(s);
    if Judge(st, f).Accepted? { AcceptedExtends(st, t, f); }
    if Judge(st, f).Duplicate? { DuplicateIsKnown(st, t, f); }
    if f in t { TakenIsDuplicate(st, t, f); }
    if Begun(t + [f]) { NextIsAccepted(st, t, f); }
  }

  lemma {:induction false} TakenIsDuplicate(st: State, t: seq<Frame>, f: Frame)
    requires Begun(t) && Remembers(st, t) && f in t
    ensures Judge(st, f).Duplicate?
  {
    var k :| 0 <= k < |t| && t[k] == f;
    assert (f.request, f.sequence) in st.live;
  }

  lemma {:induction false} NextIsAccepted(st: State, t: seq<Frame>, f: Frame)
    requires Begun(t) && Remembers(st, t) && Begun(t + [f])
    ensures Judge(st, f).Accepted?
  {
    var all := t + [f];
    assert all[|t|] == f;
    if t != [] {
      assert all[0] == t[0] && all[|t| - 1] == t[|t| - 1];
    }
    assert (f.request, f.sequence) !in st.live;
  }

  /** A delivery that ends terminal has taken a whole framed stream. */
  lemma {:induction false} TerminalDeliveriesAreFramed(s: seq<Frame>)
    requires NoneRejected(s) && Feed(s).last
    ensures Framed(Taken(s))
  {
    DeliveriesAreFramed(s);
  }

  /** A framed stream passes frame by frame: all of it is taken. */
  lemma {:induction false} FramedPasses(s: seq<Frame>)
    requires Begun(s)
    ensures NoneRejected(s) && Taken(s) == s && Remembers(Feed(s), s)
  {
    if s != [] {
      var init, f := s[..|s| - 1], s[|s| - 1];
      FramedPasses(init);
      assert s == init + [f];
      assert (f.request, f.sequence) !in Feed(init).live;
      AcceptedExtends(Feed(init), init, f);
    }
  }

  /** The two checks agree: delivered once each, exactly the framed streams pass and end terminal. */
  lemma {:induction false} IncrementalIsWhole(s: seq<Frame>)
    ensures Framed(s) <==> NoneRejected(s) && Taken(s) == s && Feed(s).last
  {
    if Framed(s) { FramedPasses(s); }
    if NoneRejected(s) && Taken(s) == s && Feed(s).last { DeliveriesAreFramed(s); }
  }
}
