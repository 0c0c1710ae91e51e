/**
 * The cuepoint table of a Scripted instance: the `actions` dictionary
 * from the key "frame<N>" to the bound actions pushed under it, how a
 * script line becomes a key and a bound action, and what dispatching a
 * frame invokes.
 *
 * A bound action stands for the closure that parseScript pushes: it
 * remembers the action kind, the scope current at registration and the
 * value. Invoking it is recorded as an Invocation instead of calling the
 * action method (addClass, removeClass, callFunction or a user addition).
 */
module Cuepoints {
  import opened Wrappers
  import Text

  /** What `using` was given: nothing yet, a selector, or an object. */
  datatype Scope = Undefined | Selector(selector: string) | Object(id: nat)

  /** A missing token (fewer than three pieces in the line) is None. */
  datatype BoundAction = BoundAction(kind: Option<string>, scope: Scope, value: Option<string>)

  /** One call `methods[kind](scope, value, currentFrame)` made by dispatch. */
  datatype Invocation = Invocation(kind: Option<string>, scope: Scope, value: Option<string>, frame: nat)

  /** A key of the table together with the bound action pushed under it. */
  datatype Binding = Binding(key: string, action: BoundAction)

  type Table = map<string, seq<BoundAction>>

  /** The list under `key`; a key that was never registered holds nothing. */
  function Lookup(t: Table, key: string): seq<BoundAction>
  {
    if key in t then t[key] else []
  }

  /** The key parseScript builds from the first token of a line. */
  function ScriptKey(token: string): string
  {
    "frame" + token
  }

  /** The key frameLoop looks up when it reaches `frame`. */
  function FrameKey(frame: nat): string
  {
    ScriptKey(Text.NatToString(frame))
  }

  /**
   * A line's actions are dispatched at `frame` exactly when its first token
   * is the plain decimal numeral of `frame` ("012" or "1e2" never match).
   */
  lemma ScriptKeyMatchesFrame(token: string, frame: nat)
    ensures ScriptKey(token) == FrameKey(frame) <==> token == Text.NatToString(frame)
  {
    var n := Text.NatToString(frame);
    if ScriptKey(token) == FrameKey(frame) {
      assert token == ScriptKey(token)[5..];
      assert n == FrameKey(frame)[5..];
    }
  }

  /**
   * A line whose frame token has a leading zero, such as "060", is
   * registered under a key that dispatch never looks up: its actions never
   * run, at any frame.
   */
  lemma NonCanonicalTokenNeverFires(token: string, frame: nat)
    requires |token| > 1 && token[0] == '0'
    ensures ScriptKey(token) != FrameKey(frame)
  {
    ScriptKeyMatchesFrame(token, frame);
  }

  /** The i-th token of a split line, None when the line has fewer pieces. */
  function Token(tokens: seq<string>, i: nat): Option<string>
  {
    if i < |tokens| then Some(tokens[i]) else None
  }

  /**
   * What parseScript makes of a line under `scope`: the key from the first
   * piece, the kind and value from the second and third; further pieces
   * are ignored and no line is rejected.
   */
  function ParseLine(script: string, scope: Scope): (b: Binding)
    ensures b.action.scope == scope
  {
    var tokens := Text.Split(script);
    Binding(ScriptKey(tokens[0]), BoundAction(Token(tokens, 1), scope, Token(tokens, 2)))
  }

  /** "<frame> <kind> <value>" with space-free words registers (kind, scope, value) at "frame<frame>". */
  lemma ParseWellFormedLine(frame: string, kind: string, value: string, scope: Scope)
    requires Text.Space !in frame && Text.Space !in kind && Text.Space !in value
    ensures ParseLine(frame + " " + kind + " " + value, scope)
         == Binding(ScriptKey(frame), BoundAction(Some(kind), scope, Some(value)))
  {
    var parts := [frame, kind, value];
    assert Text.Join(parts[2..]) == value;
    assert Text.Join(parts[1..]) == kind + " " + value;
    assert Text.Join(parts) == frame + " " + kind + " " + value;
    Text.SplitJoin(parts);
  }

  /**
   * Pushing a bound action: it goes to the end of the list under `key`, the
   * list is created when absent, and every other key keeps its list.
   */
  function Register(t: Table, key: string, b: BoundAction): (r: Table)
    ensures key in r && r[key] == Lookup(t, key) + [b]
    ensures forall k :: k != key ==> Lookup(r, k) == Lookup(t, k)
    ensures r.Keys == t.Keys + {key}
  {
    t[key := Lookup(t, key) + [b]]
  }

  /** The effect of pushing each binding in turn, first to last. */
  function RegisterAll(t: Table, items: seq<Binding>): Table
    decreases |items|
  {
    if items == [] then t
    else
      var last := items[|items| - 1];
      Register(RegisterAll(t, items[..|items| - 1]), last.key, last.action)
  }

  /** The actions of the bindings under `key`, in the order of `items`. */
  function Matching(items: seq<Binding>, key: string): seq<BoundAction>
    decreases |items|
  {
    if items == [] then []
    else
      var last := items[|items| - 1];
      Matching(items[..|items| - 1], key) + (if last.key == key then [last.action] else [])
  }

  /** Registering in order appends to every list exactly the actions registered under its key, in order. */
  lemma {:induction false} RegisterAllLookup(t: Table, items: seq<Binding>, key: string)
    ensures Lookup(RegisterAll(t, items), key) == Lookup(t, key) + Matching(items, key)
    decreases |items|
  {
    if items != [] {
      RegisterAllLookup(t, items[..|items| - 1], key);
    }
  }

  /** Registering two batches one after the other is registering their concatenation. */
  lemma {:induction false} RegisterAllAppend(t: Table, xs: seq<Binding>, ys: seq<Binding>)
    ensures RegisterAll(t, xs + ys) == RegisterAll(RegisterAll(t, xs), ys)
    decreases |ys|
  {
    if ys == [] {
      assert xs + ys == xs;
    } else {
      assert (xs + ys)[..|xs + ys| - 1] == xs + ys[..|ys| - 1];
      RegisterAllAppend(t, xs, ys[..|ys| - 1]);
    }
  }

  /** Calling one bound action at `frame`. */
  function Invoke(b: BoundAction, frame: nat): Invocation
  {
    Invocation(b.kind, b.scope, b.value, frame)
  }

  /**
   * Calling every bound action of a list at `frame`: each one exactly once,
   * in list order, each with the scope and value it was bound with.
   */
  function Invocations(list: seq<BoundAction>, frame: nat): (r: seq<Invocation>)
    ensures |r| == |list|
    ensures forall i :: 0 <= i < |list| ==> r[i] == Invoke(list[i], frame)
    decreases |list|
  {
    if list == [] then []
    else Invocations(list[..|list| - 1], frame) + [Invoke(list[|list| - 1], frame)]
  }

  /** What reaching `frame` invokes: the list under its key, nothing if there is none. */
  function Fire(t: Table, frame: nat): seq<Invocation>
  {
    Invocations(Lookup(t, FrameKey(frame)), frame)
  }

  /** What reaching frames first, first+1, ..., first+count-1 in turn invokes. */
  function FireRange(t: Table, first: nat, count: nat): seq<Invocation>
    decreases count
  {
    if count == 0 then [] else Fire(t, first) + FireRange(t, first + 1, count - 1)
  }

  /** The calls of frames first, ..., first+count-1 in turn, for any per-frame calls. */
  function Span(calls: nat -> seq<Invocation>, first: nat, count: nat): seq<Invocation>
    decreases count
  {
    if count == 0 then [] else calls(first) + Span(calls, first + 1, count - 1)
  }

  lemma {:induction false} SpanSplit(calls: nat -> seq<Invocation>, first: nat, m: nat, n: nat)
    ensures Span(calls, first, m + n) == Span(calls, first, m) + Span(calls, first + m, n)
    decreases m
  {
    if m > 0 {
      SpanSplit(calls, first + 1, m - 1, n);
    }
  }

  /** Fire as a function of the frame alone. */
  function FireIn(t: Table): nat -> seq<Invocation>
  {
    (frame: nat) => Fire(t, frame)
  }

  lemma {:induction false} FireRangeIsSpan(t: Table, first: nat, count: nat)
    ensures FireRange(t, first, count) == Span(FireIn(t), first, count)
    decreases count
  {
    if count > 0 {
      FireRangeIsSpan(t, first + 1, count - 1);
    }
  }

  /** Reaching m frames and then n more is reaching m + n frames. */
  lemma FireRangeSplit(t: Table, first: nat, m: nat, n: nat)
    ensures FireRange(t, first, m + n) == FireRange(t, first, m) + FireRange(t, first + m, n)
  {
    FireRangeIsSpan(t, first, m + n);
    FireRangeIsSpan(t, first, m);
    FireRangeIsSpan(t, first + m, n);
    SpanSplit(FireIn(t), first, m, n);
  }

  /** A log extended by two consecutive runs of frames is the log extended by the run over both. */
  lemma AppendRanges(log: seq<Invocation>, middle: seq<Invocation>, end: seq<Invocation>,
                     t: Table, first: nat, m: nat, n: nat)
    requires middle == log + FireRange(t, first, m)
    requires end == middle + FireRange(t, first + m, n)
    ensures end == log + FireRange(t, first, m + n)
  {
    FireRangeSplit(t, first, m, n);
  }

  /** The invocations of a log that were made at `frame`, in log order. */
  function AtFrame(log: seq<Invocation>, frame: nat): seq<Invocation>
    decreases |log|
  {
    if log == [] then []
    else AtFrame(log[..|log| - 1], frame) + (if log[|log| - 1].frame == frame then [log[|log| - 1]] else [])
  }

  lemma {:induction false} AtFrameAppend(xs: seq<Invocation>, ys: seq<Invocation>, frame: nat)
    ensures AtFrame(xs + ys, frame) == AtFrame(xs, frame) + AtFrame(ys, frame)
    decreases |ys|
  {
    if ys == [] {
      assert xs + ys == xs;
    } else {
      assert (xs + ys)[..|xs + ys| - 1] == xs + ys[..|ys| - 1];
      AtFrameAppend(xs, ys[..|ys| - 1], frame);
    }
  }

  lemma {:induction false} AtFrameOfInvocations(list: seq<BoundAction>, g: nat, frame: nat)
    ensures AtFrame(Invocations(list, g), frame) == if g == frame then Invocations(list, g) else []
    decreases |list|
  {
    if list != [] {
      var r := Invocations(list, g);
      assert r[..|r| - 1] == Invocations(list[..|list| - 1], g);
      AtFrameOfInvocations(list[..|list| - 1], g, frame);
    }
  }

  /** A span of per-frame calls, each frame's calls made at that frame, holds at `frame` only that frame's calls. */
  lemma {:induction false} SpanAt(calls: nat -> seq<Invocation>, first: nat, count: nat, frame: nat)
    requires forall g: nat :: AtFrame(calls(g), frame) == if g == frame then calls(g) else []
    ensures AtFrame(Span(calls, first, count), frame)
         == if first <= frame < first + count then calls(frame) else []
    decreases count
  {
    if count > 0 {
      var head := calls(first);
      var rest := Span(calls, first + 1, count - 1);
      AtFrameAppend(head, rest, frame);
      SpanAt(calls, first + 1, count - 1, frame);
      if frame == first {
        assert AtFrame(head, frame) + AtFrame(rest, frame) == calls(frame) + [];
      }
    }
  }

  /**
   * No frame is skipped or repeated: in a run over frames first..first+count-1,
   * a frame of that range invokes exactly the actions registered at it, each
   * once and in push order, and any other frame invokes nothing.
   */
  lemma FireRangeAt(t: Table, first: nat, count: nat, frame: nat)
    ensures AtFrame(FireRange(t, first, count), frame)
         == if first <= frame < first + count then Fire(t, frame) else []
  {
    var calls := FireIn(t);
    forall g: nat
      ensures AtFrame(calls(g), frame) == if g == frame then calls(g) else []
    {
      AtFrameOfInvocations(Lookup(t, FrameKey(g)), g, frame);
    }
    FireRangeIsSpan(t, first, count);
    SpanAt(calls, first, count, frame);
  }

  /** Frames are dispatched in increasing order and only within the range. */
  lemma {:induction false} FireRangeOrdered(t: Table, first: nat, count: nat)
    ensures forall i :: 0 <= i < |FireRange(t, first, count)| ==>
              first <= FireRange(t, first, count)[i].frame < first + count
    ensures forall i, j :: 0 <= i < j < |FireRange(t, first, count)| ==>
              FireRange(t, first, count)[i].frame <= FireRange(t, first, count)[j].frame
    decreases count
  {
    if count > 0 {
      FireRangeOrdered(t, first + 1, count - 1);
      var head := Fire(t, first);
      var rest := FireRange(t, first + 1, count - 1);
      var r := FireRange(t, first, count);
      assert r == head + rest;
      forall i | 0 <= i < |r| ensures first <= r[i].frame < first + count {
        if i >= |head| { assert r[i] == rest[i - |head|]; }
      }
      forall i, j | 0 <= i < j < |r| ensures r[i].frame <= r[j].frame {
        if j >= |head| { assert r[j] == rest[j - |head|]; }
        if i >= |head| { assert r[i] == rest[i - |head|]; }
      }
    }
  }
}
