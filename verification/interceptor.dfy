/**
 The window-level error interceptor of setupErrorHandler.ts, as a state
 machine over immutable states.

 - `intercept` is the development-mode switch, fixed for the life of the page;
 - `styles` is the hiding `<style>` element (see OverlayStyles);
 - `listeners` counts the window `error` listeners installed by setup calls;
 - `captured` and `suppressed` are the errors carrying the "captured" and
   the "overlay ignore" (claimed) flags;
 - `pending` is the FIFO of deferred checks scheduled with `setTimeout`,
   each holding the error it revisits;
 - `rethrown` logs, in order, the errors a deferred check threw back.
 */
module Interceptor {
  import opened Wrappers
  import opened OverlayStyles

  /** The identity of a thrown error object; its flags live in the state, keyed by it. */
  type ErrorId = nat

  datatype State = State(
    intercept: bool,
    styles: Option<StyleElement>,
    listeners: nat,
    captured: set<ErrorId>,
    suppressed: set<ErrorId>,
    pending: seq<ErrorId>,
    rethrown: seq<ErrorId>)

  /** A page before any setup: `styles` is whatever the document already holds under the fixed id. */
  function Init(intercept: bool, styles: Option<StyleElement>): State {
    State(intercept, styles, 0, {}, {}, [], [])
  }

  predicate NoDup(q: seq<ErrorId>) {
    forall i, j :: 0 <= i < j < |q| ==> q[i] != q[j]
  }

  /** What every state reachable from Init satisfies. */
  ghost predicate Valid(s: State) {
    && (s.listeners > 0 ==> s.intercept && s.styles.Some?)
    && (!s.intercept ==> s.listeners == 0 && s.captured == {} && s.suppressed == {}
                         && s.pending == [] && s.rethrown == [])
    && QueuedCaptured(s)
    && (forall e :: e in s.rethrown ==> e in s.captured)
    && NoDup(s.pending) && NoDup(s.rethrown)
    && (forall e :: e in s.pending ==> e !in s.rethrown)
  }

  lemma InitValid(intercept: bool, styles: Option<StyleElement>)
    ensures Valid(Init(intercept, styles))
  {
  }

  /**
   `setupReactAppOverlayErrorHandler`: a no-op outside development mode;
   otherwise installs the hiding element (default selector when none is
   given) and adds one more listener. Nothing else changes.
   */
  function Setup(s: State, selector: Option<string>): (r: State)
    ensures !s.intercept ==> r == s
    ensures s.intercept ==> r.listeners == s.listeners + 1
    ensures s.intercept ==> r.styles == CreateStyles(s.styles, selector.GetOr(DefaultCraOverlaySelector))
    ensures r.(listeners := s.listeners, styles := s.styles) == s
  {
    if !s.intercept then s
    else
      s.(styles := CreateStyles(s.styles, selector.GetOr(DefaultCraOverlaySelector)),
         listeners := s.listeners + 1)
  }

  /**
   The body of one installed listener for error `err`: the new state and
   whether it called `preventDefault`.
   */
  function Listener(s: State, err: ErrorId): (r: (State, bool))
    ensures r.1 <==> err !in s.captured
    ensures !r.1 ==> r.0 == s
    ensures r.1 ==> err in r.0.captured && r.0.pending == s.pending + [err]
    ensures r.1 ==> r.0.styles == AllowCraOverlay(s.styles, false)
    ensures r.0.(captured := s.captured, styles := s.styles, pending := s.pending) == s
    ensures r.0.captured == s.captured + {err}
  {
    if err in s.captured then (s, false)
    else
      (s.(captured := s.captured + {err},
          styles := AllowCraOverlay(s.styles, false),
          pending := s.pending + [err]),
       true)
  }

  /**
   Runs the first `n` listeners in turn on one event; the event's
   `preventDefault` is reported when any of them called it. Only the first
   listener can act: it sets the captured flag the others test.
   */
  function Dispatch(s: State, err: ErrorId, n: nat): (r: (State, bool))
    ensures n == 0 || err in s.captured ==> r == (s, false)
    ensures n > 0 && err !in s.captured ==> r == Listener(s, err)
    decreases n
  {
    if n == 0 then (s, false)
    else
      var (s1, prevented1) := Listener(s, err);
      var (s2, prevented2) := Dispatch(s1, err, n - 1);
      (s2, prevented1 || prevented2)
  }

  /**
   A window `error` event carrying `err`, delivered to every installed
   listener. `preventDefault` is called exactly when some listener exists
   and `err` is not yet captured; then the error is captured, the overlay
   is hidden and exactly one deferred check for it is queued. Otherwise the
   state is unchanged.
   */
  function ErrorEvent(s: State, err: ErrorId): (r: (State, bool))
    ensures r.1 <==> s.listeners > 0 && err !in s.captured
    ensures r.1 ==> r.0 == s.(captured := s.captured + {err},
                              styles := AllowCraOverlay(s.styles, false),
                              pending := s.pending + [err])
    ensures !r.1 ==> r.0 == s
  {
    Dispatch(s, err, s.listeners)
  }

  /** `suppressCaughtOverlayError`: in development mode, sets the claimed flag of `err` and nothing else. */
  function Claim(s: State, err: ErrorId): (r: State)
    ensures !s.intercept ==> r == s
    ensures s.intercept ==> r.suppressed == s.suppressed + {err}
    ensures r.(suppressed := s.suppressed) == s
  {
    if !s.intercept then s
    else s.(suppressed := s.suppressed + {err})
  }

  /** Claiming twice is the same as claiming once. */
  lemma ClaimIdempotent(s: State, err: ErrorId)
    ensures Claim(Claim(s, err), err) == Claim(s, err)
  {
  }

  /**
   One turn of the event loop: the oldest deferred check runs. For a
   claimed error it only leaves the queue. For an unclaimed one the overlay
   is let through again and the error is thrown; the throw reaches the
   window listeners once more as a new `error` event.
   */
  function RunNextDeferred(s: State): (r: State)
    ensures s.pending == [] ==> r == s
    ensures s.pending != [] && s.pending[0] in s.suppressed ==> r == s.(pending := s.pending[1..])
    ensures s.pending != [] && s.pending[0] !in s.suppressed && s.pending[0] in s.captured ==>
      r == s.(styles := AllowCraOverlay(s.styles, true),
              pending := s.pending[1..],
              rethrown := s.rethrown + [s.pending[0]])
  {
    if s.pending == [] then s
    else
      var err := s.pending[0];
      var popped := s.(pending := s.pending[1..]);
      if err in s.suppressed then popped
      else
        var released := popped.(styles := AllowCraOverlay(popped.styles, true),
                                rethrown := popped.rethrown + [err]);
        ErrorEvent(released, err).0
  }

  /** `n` turns of the event loop. */
  function RunDeferred(s: State, n: nat): State
    decreases n
  {
    if n == 0 then s else RunDeferred(RunNextDeferred(s), n - 1)
  }

  /** The errors of `q`, in order, that are not in `claimed`. */
  function Unclaimed(q: seq<ErrorId>, claimed: set<ErrorId>): (r: seq<ErrorId>)
    ensures forall e :: e in r <==> e in q && e !in claimed
    ensures |r| <= |q|
  {
    if q == [] then []
    else (if q[0] in claimed then [] else [q[0]]) + Unclaimed(q[1..], claimed)
  }

  lemma ValidSetup(s: State, selector: Option<string>)
    requires Valid(s)
    ensures Valid(Setup(s, selector))
  {
  }

  lemma ValidErrorEvent(s: State, err: ErrorId)
    requires Valid(s)
    ensures Valid(ErrorEvent(s, err).0)
  {
  }

  lemma ValidClaim(s: State, err: ErrorId)
    requires Valid(s)
    ensures Valid(Claim(s, err))
  {
  }

  lemma ValidRunNextDeferred(s: State)
    requires Valid(s)
    ensures Valid(RunNextDeferred(s))
  {
    if s.pending != [] {
      var err := s.pending[0];
      var r := RunNextDeferred(s);
      assert r.pending == s.pending[1..];
      forall e | e in r.pending
        ensures e != err
      {
        var k :| 0 <= k < |r.pending| && r.pending[k] == e;
        assert s.pending[k + 1] == e;
      }
      if err !in s.suppressed {
        assert r.rethrown == s.rethrown + [err];
        forall i, j | 0 <= i < j < |r.rethrown|
          ensures r.rethrown[i] != r.rethrown[j]
        {
          if j == |s.rethrown| {
            assert r.rethrown[i] in s.rethrown;
          }
        }
      }
    }
  }

  /**
   A deferred check that throws its error back: the error is already
   captured, so delivering that throw to the listeners again changes nothing
   and is not default-prevented (the platform reports it as usual).
   */
  lemma RethrowIsIgnored(s: State)
    requires Valid(s)
    requires s.pending != [] && s.pending[0] !in s.suppressed
    ensures ErrorEvent(RunNextDeferred(s), s.pending[0]) == (RunNextDeferred(s), false)
  {
  }

  /** Every queued check is for a captured error (part of Valid). */
  ghost predicate QueuedCaptured(s: State) {
    forall e :: e in s.pending ==> e in s.captured
  }

  /** One queued check: the queue's head leaves it and is thrown back iff unclaimed. */
  lemma NextDeferredOutcome(s: State)
    requires QueuedCaptured(s) && s.pending != []
    ensures var r := RunNextDeferred(s);
      var err := s.pending[0];
      && r.pending == s.pending[1..]
      && r.rethrown == s.rethrown + (if err in s.suppressed then [] else [err])
      && r.styles == (if err in s.suppressed then s.styles else AllowCraOverlay(s.styles, true))
      && r.captured == s.captured && r.suppressed == s.suppressed
      && r.listeners == s.listeners && r.intercept == s.intercept
  {
  }

  lemma QueuedCapturedAfterNext(s: State)
    requires QueuedCaptured(s) && s.pending != []
    ensures QueuedCaptured(RunNextDeferred(s))
  {
  }

  /** Running every queued check empties the queue and changes no flag and no listener. */
  lemma {:induction false} DrainKeepsFlags(s: State)
    requires QueuedCaptured(s)
    ensures var r := RunDeferred(s, |s.pending|);
      && r.pending == []
      && r.captured == s.captured && r.suppressed == s.suppressed
      && r.listeners == s.listeners && r.intercept == s.intercept
    decreases |s.pending|
  {
    if s.pending != [] {
      var s1 := RunNextDeferred(s);
      NextDeferredOutcome(s);
      QueuedCapturedAfterNext(s);
      DrainKeepsFlags(s1);
    }
  }

  lemma ConcatAssoc(a: seq<ErrorId>, b: seq<ErrorId>, c: seq<ErrorId>)
    ensures (a + b) + c == a + (b + c)
  {
  }

  lemma UnclaimedCons(q: seq<ErrorId>, claimed: set<ErrorId>)
    requires q != []
    ensures Unclaimed(q, claimed) == (if q[0] in claimed then [] else [q[0]]) + Unclaimed(q[1..], claimed)
  {
  }

  /** Running every queued check throws back exactly the unclaimed queued errors, in queue order. */
  lemma {:induction false} DrainRethrows(s: State)
    requires QueuedCaptured(s)
    ensures RunDeferred(s, |s.pending|).rethrown == s.rethrown + Unclaimed(s.pending, s.suppressed)
    decreases |s.pending|
  {
    if s.pending != [] {
      var s1 := RunNextDeferred(s);
      var head := if s.pending[0] in s.suppressed then [] else [s.pending[0]];
      assert s1.rethrown == s.rethrown + head && s1.pending == s.pending[1..] && s1.suppressed == s.suppressed by {
        NextDeferredOutcome(s);
      }
      QueuedCapturedAfterNext(s);
      DrainRethrows(s1);
      UnclaimedCons(s.pending, s.suppressed);
      var tail := Unclaimed(s1.pending, s.suppressed);
      calc {
        RunDeferred(s, |s.pending|).rethrown;
        RunDeferred(s1, |s1.pending|).rethrown;
        (s.rethrown + head) + tail;
        { ConcatAssoc(s.rethrown, head, tail); }
        s.rethrown + (head + tail);
      }
    }
  }

  /** Running every queued check lets the overlay through iff some queued error was unclaimed. */
  lemma {:induction false} DrainStyles(s: State)
    requires QueuedCaptured(s)
    ensures RunDeferred(s, |s.pending|).styles
            == (if Unclaimed(s.pending, s.suppressed) == [] then s.styles else AllowCraOverlay(s.styles, true))
    decreases |s.pending|
  {
    if s.pending != [] {
      var err := s.pending[0];
      var s1 := RunNextDeferred(s);
      NextDeferredOutcome(s);
      QueuedCapturedAfterNext(s);
      DrainStyles(s1);
      assert Unclaimed(s.pending, s.suppressed)
        == (if err in s.suppressed then [] else [err]) + Unclaimed(s1.pending, s1.suppressed);
      if err !in s.suppressed {
        AllowCraOverlayLastWins(s.styles, true, true);
      }
    }
  }

  /**
   Running every queued check: the queue empties, exactly the unclaimed
   queued errors are thrown back, in queue order, and the overlay is let
   through iff at least one of them was. No flag and no listener changes.
   */
  lemma DrainOutcome(s: State)
    requires Valid(s)
    ensures var r := RunDeferred(s, |s.pending|);
      && r.pending == []
      && r.rethrown == s.rethrown + Unclaimed(s.pending, s.suppressed)
      && r.styles == (if Unclaimed(s.pending, s.suppressed) == [] then s.styles
                      else AllowCraOverlay(s.styles, true))
      && r.captured == s.captured && r.suppressed == s.suppressed
      && r.listeners == s.listeners && r.intercept == s.intercept
  {
    DrainKeepsFlags(s);
    DrainRethrows(s);
    DrainStyles(s);
  }

  /** Running checks keeps the invariant. */
  lemma {:induction false} ValidRunDeferred(s: State, n: nat)
    requires Valid(s)
    ensures Valid(RunDeferred(s, n))
    decreases n
  {
    if n > 0 {
      ValidRunNextDeferred(s);
      ValidRunDeferred(RunNextDeferred(s), n - 1);
    }
  }

  /**
   An error whose check is queued and that is still unclaimed when the
   checks run is thrown back exactly once: it is in the log, and at one
   position only.
   */
  lemma UnclaimedQueuedRethrownOnce(s: State, err: ErrorId)
    requires Valid(s) && err in s.pending && err !in s.suppressed
    ensures var r := RunDeferred(s, |s.pending|).rethrown;
      && err in r
      && forall i, j :: 0 <= i < |r| && 0 <= j < |r| && r[i] == err && r[j] == err ==> i == j
  {
    DrainRethrows(s);
    ValidRunDeferred(s, |s.pending|);
    var r := RunDeferred(s, |s.pending|).rethrown;
    assert err in Unclaimed(s.pending, s.suppressed);
    assert err in r;
  }
}
