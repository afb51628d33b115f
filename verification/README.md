# react-app-error-boundary: overlay-suppression handshake, in Dafny

This project models the core of `react-app-error-boundary`. During development,
the framework draws an error overlay over the page for every uncaught error.
The library hides that overlay long enough for an `<ErrorBoundary>` to claim
the error. It shows the overlay again, and throws the error back, only when no
boundary claimed it.

The model has two parts:

- **The interceptor** (`src/setupErrorHandler.ts`) is a state machine over
  immutable states. The state holds:
  - the hiding `<style>` element: absent, or its text and `disabled` bit;
  - the number of window `error` listeners;
  - the two per-error flags ("captured" and "overlay ignore", the latter
    called *claimed* below), as sets of error identities;
  - the FIFO queue of deferred checks that `setTimeout` scheduled;
  - the log of errors thrown back.

  The transitions are `Setup`, `ErrorEvent` (one event delivered to every
  listener), `Claim` (`suppressCaughtOverlayError`) and `RunNextDeferred`
  (one event-loop turn). A throw from a deferred check is delivered to the
  listeners again, as it is in a browser.
- **The boundary** (`src/ErrorBoundary.tsx`) is a set of pure functions:
  - the fallback selection;
  - the props forwarded to the wrapped boundary;
  - the options merge and the two setters of the module-level defaults;
  - `handleError`, as the ordered list of its effects.

  `BoundaryCatch` applies those effects to the interceptor state.

Module `Handshake` puts both channels into one event sequence. Over any
sequence of events it proves:

- a claimed error is never thrown back;
- no error is thrown back more than once;
- outside development mode nothing changes at all.

Narrower cases are proved too:

- an error whose queued check runs while it is still unclaimed is thrown
  back exactly once (`Interceptor.UnclaimedQueuedRethrownOnce`);
- the thrown-back error, arriving at the listeners again, is ignored;
- after repeated setup, one event still queues a single check.

Some details of the code that the model keeps:

- The style element's bit is `disabled`. `disabled == false` means the overlay
  is hidden.
- Calling setup twice adds a listener but never a second suppression cycle.
  The captured flag makes every listener after the first a no-op for an
  error (`Interceptor.Dispatch`, `Handshake.RepeatedSetupQueuesOneCheck`).
- `ErrorBoundary` renders null only when `FallbackComponent` is given
  explicitly and is falsy. An omitted `FallbackComponent` becomes the current
  default fallback.

## Model

| member | source | states |
|---|---|---|
| OverlayStyles.CreateStyles | src/setupErrorHandler.ts:14-23 | If the element already exists, it is returned unchanged. Otherwise a new element is created with the fixed id; it is enabled, so it hides, and the selector read back from its rule is the given one |
| OverlayStyles.CreateStylesIdempotent | src/setupErrorHandler.ts:15 | A second `createStyles`, with any selector, leaves the element the first call produced |
| OverlayStyles.RuleSelectorRoundTrip | src/setupErrorHandler.ts:21 | The rule text is the selector followed by the hiding declaration; reading the selector back gives exactly the one written |
| OverlayStyles.AllowCraOverlay | src/setupErrorHandler.ts:25-30 | Without the element nothing happens. With it, only `disabled` changes, to `allow`. The overlay is hidden afterwards iff the element exists and `allow` is false |
| OverlayStyles.AllowCraOverlayLastWins | src/setupErrorHandler.ts:29 | Two toggles in a row have the effect of the last one |
| Interceptor.InitValid | src/setupErrorHandler.ts:1-35 | A page before setup satisfies the invariant: no listener, no flags, nothing queued or thrown back |
| Interceptor.Setup | src/setupErrorHandler.ts:43-49 | Outside development mode the state is unchanged. Otherwise the element is ensured, with the default selector when none is given, and one listener is added; nothing else changes |
| Interceptor.ValidSetup | src/setupErrorHandler.ts:43-49 | Setup keeps the invariant; in particular, a listener exists only once the element does |
| Interceptor.Listener | src/setupErrorHandler.ts:49-66 | One listener calls `preventDefault` iff the error is not yet captured. Then it captures the error, applies `allowCRAOverlay(false)` to the element (only its `disabled` bit changes, to hide the overlay; an absent element stays absent) and queues one check for it; only those three parts of the state change. For a captured error it changes nothing |
| Interceptor.Dispatch | src/setupErrorHandler.ts:49-67 | Delivering one event to n listeners has the effect of the first listener alone. Every later listener sees the captured flag and does nothing |
| Interceptor.ErrorEvent | src/setupErrorHandler.ts:49-58 | `preventDefault` is called iff a listener exists and the error is not captured. Then the error is captured, the overlay hidden and exactly one check queued for it. Otherwise nothing changes |
| Interceptor.ValidErrorEvent | src/setupErrorHandler.ts:51-58 | An event keeps the invariant: every queued check is for a captured error, and no error is queued twice |
| Interceptor.Claim | src/setupErrorHandler.ts:70-73 | Outside development mode the state is unchanged. Otherwise the claimed flag of that one error is set; captured flags, element, listeners and queue are untouched |
| Interceptor.ClaimIdempotent | src/setupErrorHandler.ts:72 | Claiming twice equals claiming once |
| Interceptor.ValidClaim | src/setupErrorHandler.ts:70-73 | A claim keeps the invariant |
| Interceptor.RunNextDeferred | src/setupErrorHandler.ts:58-65 | A check for a claimed error only leaves the queue. For an unclaimed, captured error the overlay is let through (`disabled = true`) and the error is appended to the thrown-back log once |
| Interceptor.ValidRunNextDeferred | src/setupErrorHandler.ts:58-65 | A check keeps the invariant; in particular, no error is ever in the thrown-back log twice or both queued and thrown back |
| Interceptor.RethrowIsIgnored | src/setupErrorHandler.ts:51-63 | The error a check throws back reaches the listeners as a new event. That event is not default-prevented and changes nothing, because the error is already captured |
| Interceptor.DrainOutcome | src/setupErrorHandler.ts:58-65 | Running every queued check empties the queue. It throws back exactly the unclaimed queued errors, in queue order, and lets the overlay through iff there was one. Flags and listeners stay the same |
| Interceptor.DrainKeepsFlags | src/setupErrorHandler.ts:58-65 | Running every queued check empties the queue and changes no flag, listener or mode |
| Interceptor.DrainRethrows | src/setupErrorHandler.ts:60-63 | Running every queued check appends to the thrown-back log exactly the queued errors that are unclaimed, in queue order |
| Interceptor.DrainStyles | src/setupErrorHandler.ts:60-62 | After every queued check has run, the overlay is let through iff some queued error was unclaimed; otherwise the element is as it was |
| Interceptor.UnclaimedQueuedRethrownOnce | src/setupErrorHandler.ts:58-63 | An error whose check is queued and which is still unclaimed when the checks run appears in the thrown-back log, at exactly one position |
| ErrorBoundary.SetDefaultFallback | src/ErrorBoundary.tsx:106-108 | Replaces the default fallback component and keeps the options defaults |
| ErrorBoundary.DefaultFallbackFollowsSetter | src/ErrorBoundary.tsx:50 | An instance without fallback props selects whatever component the latest setter installed |
| ErrorBoundary.SetDefaultOptions | src/ErrorBoundary.tsx:110-112 | Each given key overwrites its default; each key not given keeps its previous default; the default fallback is untouched |
| ErrorBoundary.SetDefaultOptionsLaws | src/ErrorBoundary.tsx:110-112 | Setting no keys changes nothing; setting the same keys twice equals setting them once |
| ErrorBoundary.InitialResolution | src/ErrorBoundary.tsx:33-36 | With no options given anywhere, errors are logged and the overlay is suppressed |
| ErrorBoundary.ResolveOptions | src/ErrorBoundary.tsx:54-55 | For each of the two options: the instance's own value when it gives the key, otherwise the current default |
| ErrorBoundary.ResolveAfterSetDefaults | src/ErrorBoundary.tsx:54-55 | For each key: the instance's own value, else the latest default set for it, else the earlier default |
| ErrorBoundary.SelectVariant | src/ErrorBoundary.tsx:71-103 | A truthy `fallback` wins, then a truthy `fallbackRender`. The result is null iff neither is given and `FallbackComponent` is explicitly falsy |
| ErrorBoundary.SelectVariantIsFirstCandidate | src/ErrorBoundary.tsx:71-103 | The selection equals the first present entry of the list static, render, component-or-default |
| ErrorBoundary.StaticFallbackWins | src/ErrorBoundary.tsx:71-77 | With all three fallback props given, the static element is used |
| ErrorBoundary.Render | src/ErrorBoundary.tsx:47-103 | Null exactly when no fallback is selected. Otherwise the wrapped boundary gets the selected fallback, the children and remaining props unchanged, and a handler over `onError` and the resolved options |
| ErrorBoundary.HandleError | src/ErrorBoundary.tsx:59-69 | The claim is made iff the overlay is not allowed. The error is logged iff the overlay is not allowed, logging is on and the mode is development. `onError`, when given, is called exactly once, last, with the original error and info. The claim comes first, and there are no other effects: at most one claim and at most one log |
| ErrorBoundary.ClaimPrecedesOnError | src/ErrorBoundary.tsx:62-66 | A corollary of `HandleError`: when the handler claims, the claim is the first effect; an `onError`, when given, comes after it, as the last effect |
| ErrorBoundary.ApplyEffects | src/ErrorBoundary.tsx:63 | Only claim effects touch the interceptor state. They add exactly the claimed errors to the claimed flags, and do so only in development mode |
| ErrorBoundary.BoundaryCatch | src/ErrorBoundary.tsx:59-69 | A catch in development mode with the overlay not allowed sets that error's claimed flag and nothing else. Any other catch changes nothing |
| Handshake.ValidRun | src/setupErrorHandler.ts:43-73 | Any sequence of setups, events, catches and turns keeps the invariant |
| Handshake.RethrownAtMostOnce | src/setupErrorHandler.ts:51-63 | From a fresh page, no error is ever thrown back twice, whatever the events |
| Handshake.DisabledIsInert | src/setupErrorHandler.ts:43-73 | Outside development mode no sequence of setups, errors, catches or turns changes anything |
| Handshake.ClaimedNeverRethrown | src/setupErrorHandler.ts:58-64 | A claimed error not yet thrown back stays claimed and is never thrown back, whatever follows |
| Handshake.CaughtErrorNeverRethrown | src/ErrorBoundary.tsx:62-63 | Suppose an error not yet thrown back reaches the listeners, and then a boundary that does not allow the overlay catches it. That error is never thrown back, whatever follows. This holds whether or not the listeners had captured it before, and in either mode |
| Handshake.CaughtScenario | src/setupErrorHandler.ts:49-65 | An error caught and claimed by a boundary is default-prevented. The overlay stays hidden before and after its check, and nothing is thrown back |
| Handshake.UncaughtScenario | src/setupErrorHandler.ts:49-65 | For an error no boundary claims, the overlay is hidden at once. On the next turn it is let through and the error is thrown back exactly once; that throw coming back changes nothing |
| Handshake.RepeatedSetupQueuesOneCheck | src/setupErrorHandler.ts:49-52 | After two setups, one event for a new error still queues exactly one check and hides the overlay |

## Left out

- The DOM is reduced to an optional style element. `getElementById`, `createElement` and `appendChild` are not modelled, and an element with the fixed id that other code created is taken as given.
- CSS validity is not modelled. The `!important` after the `;` in the rule text is kept as written, but what a browser makes of it is not modelled.
- `setTimeout` timing and the event loop are an explicit FIFO queue. The caller steps it one turn at a time (`RunNextDeferred`, `Handshake.Tick`).
- `process.env.NODE_ENV` is a boolean: the `intercept` field of the state, fixed at `Init`. `BoundaryCatch` passes the same value to the log check.
- `console.error` output is a `LogCaught` effect, and the user's `onError` is a `CallOnError` effect. Whatever the callback itself does is outside the model.
- JSX rendering, `useCallback` memoisation and the wrapped `react-error-boundary` library are foreign code. Elements, render functions, components, callbacks and the forwarded props are opaque values; the model only states which variant is chosen and what is forwarded.
- Error values that are not objects are not modelled: a `null` error from a cross-origin script error, or a thrown primitive. The listener would fail while reading or writing their flags. Errors are opaque identities.
- ErrorBoundary.SetDefaultOptions: a key given with an explicit `undefined` value is treated as not given. `Object.assign` would copy the `undefined`.
- ErrorBoundary.SetDefaultFallback: only components are accepted; a falsy default fallback, which the TypeScript type rules out, is not modelled.
- `src/index.ts` only re-exports and is not part of this model.
