/**
 The two channels together: window error events, boundary catches, setup
 calls and event-loop turns as one sequence of events over the interceptor
 state, with the handshake properties proved over any such sequence.
 */
module Handshake {
  import opened Wrappers
  import opened OverlayStyles
  import opened Interceptor
  import opened ErrorBoundary

  datatype Event =
    | SetupCall(selector: Option<string>)
    | Uncaught(err: ErrorId)
    | Caught(err: ErrorId, handler: Handler, info: ErrorInfo)
    | Tick

  function Step(s: State, ev: Event): State {
    match ev
    case SetupCall(selector) => Setup(s, selector)
    case Uncaught(err) => ErrorEvent(s, err).0
    case Caught(err, h, info) => BoundaryCatch(s, h, err, info)
    case Tick => RunNextDeferred(s)
  }

  function Run(s: State, evs: seq<Event>): State
    decreases |evs|
  {
    if evs == [] then s else Run(Step(s, evs[0]), evs[1..])
  }

  /** Unrolls a run over one, two or three events. */
  lemma RunShort(s: State, a: Event, b: Event, c: Event)
    ensures Run(s, [a]) == Step(s, a)
    ensures Run(s, [a, b]) == Step(Step(s, a), b)
    ensures Run(s, [a, b, c]) == Step(Step(Step(s, a), b), c)
  {
    assert [a][1..] == [];
    assert [a, b][1..] == [b];
    assert [a, b, c][1..] == [b, c];
    assert Run(Step(s, a), [b]) == Step(Step(s, a), b) by { assert [b][1..] == []; }
    assert Run(Step(Step(s, a), b), [c]) == Step(Step(Step(s, a), b), c) by { assert [c][1..] == []; }
    assert Run(Step(s, a), [b, c]) == Run(Step(Step(s, a), b), [c]) by { assert [b, c][1..] == [c]; }
  }

  lemma {:induction false} RunAppend(s: State, a: seq<Event>, b: seq<Event>)
    ensures Run(s, a + b) == Run(Run(s, a), b)
    decreases |a|
  {
    if a == [] {
      assert a + b == b;
    } else {
      assert (a + b)[0] == a[0];
      assert (a + b)[1..] == a[1..] + b;
      RunAppend(Step(s, a[0]), a[1..], b);
    }
  }

  lemma ValidStep(s: State, ev: Event)
    requires Valid(s)
    ensures Valid(Step(s, ev))
  {
    if ev.Tick? {
      ValidRunNextDeferred(s);
    }
  }

  /** Every state reached from a valid one by any events is valid. */
  lemma {:induction false} ValidRun(s: State, evs: seq<Event>)
    requires Valid(s)
    ensures Valid(Run(s, evs))
    decreases |evs|
  {
    if evs != [] {
      ValidStep(s, evs[0]);
      ValidRun(Step(s, evs[0]), evs[1..]);
    }
  }

  /** From a fresh page, no error is ever thrown back twice, whatever happens. */
  lemma RethrownAtMostOnce(intercept: bool, styles: Option<StyleElement>, evs: seq<Event>)
    ensures var r := Run(Init(intercept, styles), evs).rethrown;
      forall i, j :: 0 <= i < j < |r| ==> r[i] != r[j]
  {
    InitValid(intercept, styles);
    ValidRun(Init(intercept, styles), evs);
  }

  /** Outside development mode no setup, error, catch or turn changes anything. */
  lemma {:induction false} DisabledIsInert(s: State, evs: seq<Event>)
    requires Valid(s) && !s.intercept
    ensures Run(s, evs) == s
    decreases |evs|
  {
    if evs != [] {
      assert Step(s, evs[0]) == s;
      DisabledIsInert(s, evs[1..]);
    }
  }

  /** A claimed error that has not been thrown back is never thrown back later. */
  lemma {:induction false} ClaimedNeverRethrown(s: State, evs: seq<Event>, err: ErrorId)
    requires err in s.suppressed && err !in s.rethrown
    ensures err in Run(s, evs).suppressed && err !in Run(s, evs).rethrown
    decreases |evs|
  {
    if evs != [] {
      var s1 := Step(s, evs[0]);
      assert err in s1.suppressed && err !in s1.rethrown;
      ClaimedNeverRethrown(s1, evs[1..], err);
    }
  }

  /**
   An error caught by a boundary that does not allow the overlay, after
   the window listeners saw it: it is claimed before its deferred check can
   run, so it is never thrown back, whatever happens afterwards.
   */
  lemma CaughtErrorNeverRethrown(s: State, err: ErrorId, h: Handler, info: ErrorInfo, later: seq<Event>)
    requires Valid(s) && err !in s.rethrown
    requires !h.settings.allowDevErrorOverlay
    ensures err !in Run(s, [Uncaught(err), Caught(err, h, info)] + later).rethrown
  {
    var evs := [Uncaught(err), Caught(err, h, info)] + later;
    if !s.intercept {
      DisabledIsInert(s, evs);
    } else {
      var s2 := Run(s, [Uncaught(err), Caught(err, h, info)]);
      RunShort(s, Uncaught(err), Caught(err, h, info), Tick);
      var s1 := ErrorEvent(s, err).0;
      assert err !in s1.rethrown;
      assert s2 == BoundaryCatch(s1, h, err, info);
      assert err in s2.suppressed && err !in s2.rethrown;
      RunAppend(s, [Uncaught(err), Caught(err, h, info)], later);
      ClaimedNeverRethrown(s2, later, err);
    }
  }

  /**
   Scenario: an error thrown inside a boundary that claims it, with nothing
   else queued. The event is default-prevented, the overlay stays hidden
   through the deferred check, and nothing is thrown back.
   */
  lemma CaughtScenario(s: State, err: ErrorId, h: Handler, info: ErrorInfo)
    requires Valid(s) && s.intercept && s.listeners > 0 && err !in s.captured && s.pending == []
    requires !h.settings.allowDevErrorOverlay
    ensures ErrorEvent(s, err).1
    ensures var r := Run(s, [Uncaught(err), Caught(err, h, info)]);
      Hides(r.styles) && r.pending == [err]
    ensures var r := Run(s, [Uncaught(err), Caught(err, h, info), Tick]);
      Hides(r.styles) && r.rethrown == s.rethrown && r.pending == []
  {
    RunShort(s, Uncaught(err), Caught(err, h, info), Tick);
    var s1 := ErrorEvent(s, err).0;
    var s2 := BoundaryCatch(s1, h, err, info);
    assert s1.pending == [err] && Hides(s1.styles);
    assert s2 == s1.(suppressed := s1.suppressed + {err});
    assert RunNextDeferred(s2) == s2.(pending := []);
  }

  /**
   Scenario: an error thrown outside any claiming boundary, with nothing
   else queued. The overlay is hidden at once; on the next turn it is let
   through and the error is thrown back exactly once, and that throw
   arriving at the listeners changes nothing.
   */
  lemma UncaughtScenario(s: State, err: ErrorId)
    requires Valid(s) && s.intercept && s.listeners > 0 && s.pending == []
    requires err !in s.captured && err !in s.suppressed
    ensures Hides(Run(s, [Uncaught(err)]).styles)
    ensures var r := Run(s, [Uncaught(err), Tick]);
      && r.styles.Some? && r.styles.value.disabled
      && r.rethrown == s.rethrown + [err] && r.pending == []
    ensures var r := Run(s, [Uncaught(err), Tick]);
      Run(r, [Uncaught(err)]) == r
  {
    RunShort(s, Uncaught(err), Tick, Tick);
    var s1 := ErrorEvent(s, err).0;
    assert s1.pending == [err] && err in s1.captured && err !in s1.suppressed;
    var r := RunNextDeferred(s1);
    assert r == s1.(styles := AllowCraOverlay(s1.styles, true), pending := [], rethrown := s1.rethrown + [err]);
    RunShort(r, Uncaught(err), Tick, Tick);
  }

  /**
   However often setup ran, one window error event for a new error queues
   exactly one deferred check and hides the overlay.
   */
  lemma RepeatedSetupQueuesOneCheck(s: State, first: Option<string>, second: Option<string>, err: ErrorId)
    requires Valid(s) && s.intercept && err !in s.captured
    ensures var t := Run(s, [SetupCall(first), SetupCall(second)]);
      t.listeners == s.listeners + 2
      && Run(t, [Uncaught(err)]).pending == s.pending + [err]
      && Hides(Run(t, [Uncaught(err)]).styles)
  {
    var e := Uncaught(err);
    RunShort(s, SetupCall(first), SetupCall(second), e);
    var t := Run(s, [SetupCall(first), SetupCall(second)]);
    RunShort(t, e, e, e);
    assert t.styles.Some? && t.captured == s.captured && t.pending == s.pending;
  }
}
