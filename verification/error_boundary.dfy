/**
 The decisions made by the `ErrorBoundary` component of ErrorBoundary.tsx:
 which fallback the underlying boundary is given, what is forwarded to it,
 which options are in force, and what the `handleError` callback does when
 an error is caught. Rendering itself belongs to the wrapped library; the
 elements, render functions, components and callbacks are opaque names.
 */
module ErrorBoundary {
  import opened Wrappers
  import Interceptor

  /** A prop as the destructuring sees it: left out (or undefined), given but falsy, or given. */
  datatype Slot<T> = Omitted | Falsy | Given(value: T)

  datatype Element = Element(name: string)
  datatype RenderFn = RenderFn(name: string)
  datatype Component = Component(name: string)
  datatype Callback = Callback(name: string)

  /** Extra context the underlying boundary passes next to the error. */
  datatype ErrorInfo = ErrorInfo(componentStack: string)

  /** All other props, forwarded verbatim; the values are opaque. */
  type Rest = map<string, string>

  /** The per-instance options; None stands for a key that is not given. */
  datatype Options = Options(logCaughtErrors: Option<bool>, allowDevErrorOverlay: Option<bool>)

  /** Options with every key present. */
  datatype Settings = Settings(logCaughtErrors: bool, allowDevErrorOverlay: bool)

  /** The module-level mutable state: the default fallback component and the options defaults. */
  datatype Globals = Globals(defaultFallback: Component, optionsDefaults: Settings)

  /** The component that shows the error's message, used until another default is set. */
  const BuiltinFallback: Component := Component("DefaultFallback")

  const InitialOptionsDefaults: Settings := Settings(logCaughtErrors := true, allowDevErrorOverlay := false)

  const InitialGlobals: Globals := Globals(BuiltinFallback, InitialOptionsDefaults)

  datatype Props = Props(
    children: seq<Element>,
    fallback: Slot<Element>,
    fallbackRender: Slot<RenderFn>,
    fallbackComponent: Slot<Component>,
    onError: Option<Callback>,
    options: Options,
    rest: Rest)

  /** Which fallback prop the underlying boundary receives, if it is rendered at all. */
  datatype Variant = Static(element: Element) | RenderProp(render: RenderFn) | ComponentProp(component: Component) | Null

  /** The `handleError` closure: what it captured when the component rendered. */
  datatype Handler = Handler(onError: Option<Callback>, settings: Settings)

  /** What `ErrorBoundary` returns: the underlying boundary with its props, or null. */
  datatype Rendered =
    | Boundary(variant: Variant, handler: Handler, rest: Rest, children: seq<Element>)
    | RenderNull

  /** One observable thing `handleError` does. */
  datatype Effect =
    | SuppressOverlay(err: Interceptor.ErrorId)
    | LogCaught(err: Interceptor.ErrorId)
    | CallOnError(callback: Callback, err: Interceptor.ErrorId, info: ErrorInfo)

  /** `setDefaultErrorBoundaryFallback`: the component later selections fall back to. */
  function SetDefaultFallback(g: Globals, component: Component): (r: Globals)
    ensures r.defaultFallback == component
    ensures r.optionsDefaults == g.optionsDefaults
  {
    g.(defaultFallback := component)
  }

  /** `setDefaultErrorBoundaryOptions`: the given keys overwrite the defaults, the others stay. */
  function SetDefaultOptions(g: Globals, o: Options): (r: Globals)
    ensures r.defaultFallback == g.defaultFallback
    ensures o.logCaughtErrors.Some? ==> r.optionsDefaults.logCaughtErrors == o.logCaughtErrors.value
    ensures o.logCaughtErrors.None? ==> r.optionsDefaults.logCaughtErrors == g.optionsDefaults.logCaughtErrors
    ensures o.allowDevErrorOverlay.Some? ==> r.optionsDefaults.allowDevErrorOverlay == o.allowDevErrorOverlay.value
    ensures o.allowDevErrorOverlay.None? ==> r.optionsDefaults.allowDevErrorOverlay == g.optionsDefaults.allowDevErrorOverlay
  {
    g.(optionsDefaults := Settings(
         o.logCaughtErrors.GetOr(g.optionsDefaults.logCaughtErrors),
         o.allowDevErrorOverlay.GetOr(g.optionsDefaults.allowDevErrorOverlay)))
  }

  /** The options in force for one instance: its own where given, the current defaults otherwise. */
  function ResolveOptions(o: Options, defaults: Settings): (r: Settings)
    ensures o.logCaughtErrors.Some? ==> r.logCaughtErrors == o.logCaughtErrors.value
    ensures o.logCaughtErrors.None? ==> r.logCaughtErrors == defaults.logCaughtErrors
    ensures o.allowDevErrorOverlay.Some? ==> r.allowDevErrorOverlay == o.allowDevErrorOverlay.value
    ensures o.allowDevErrorOverlay.None? ==> r.allowDevErrorOverlay == defaults.allowDevErrorOverlay
  {
    Settings(o.logCaughtErrors.GetOr(defaults.logCaughtErrors),
             o.allowDevErrorOverlay.GetOr(defaults.allowDevErrorOverlay))
  }

  /**
   Setting defaults and then resolving an instance's options: a key the
   instance gives wins; otherwise the most recent default for it; otherwise
   the initial one.
   */
  lemma ResolveAfterSetDefaults(g: Globals, defaults: Options, own: Options)
    ensures var s := ResolveOptions(own, SetDefaultOptions(g, defaults).optionsDefaults);
      && s.logCaughtErrors == own.logCaughtErrors.GetOr(defaults.logCaughtErrors.GetOr(g.optionsDefaults.logCaughtErrors))
      && s.allowDevErrorOverlay == own.allowDevErrorOverlay.GetOr(defaults.allowDevErrorOverlay.GetOr(g.optionsDefaults.allowDevErrorOverlay))
  {
  }

  /** With nothing given anywhere, errors are logged and the overlay is suppressed. */
  lemma InitialResolution()
    ensures ResolveOptions(Options(None, None), InitialGlobals.optionsDefaults)
            == Settings(logCaughtErrors := true, allowDevErrorOverlay := false)
  {
  }

  /** Setting defaults with no keys changes nothing; setting the same keys twice is setting them once. */
  lemma SetDefaultOptionsLaws(g: Globals, o: Options)
    ensures SetDefaultOptions(g, Options(None, None)) == g
    ensures SetDefaultOptions(SetDefaultOptions(g, o), o) == SetDefaultOptions(g, o)
  {
  }

  /**
   The fallback chosen for `p`: a truthy `fallback`, else a truthy
   `fallbackRender`, else the `FallbackComponent` (the current default when
   it is left out), else nothing.
   */
  function SelectVariant(p: Props, defaultFallback: Component): (r: Variant)
    ensures p.fallback.Given? ==> r == Static(p.fallback.value)
    ensures !p.fallback.Given? && p.fallbackRender.Given? ==> r == RenderProp(p.fallbackRender.value)
    ensures r == Null <==> !p.fallback.Given? && !p.fallbackRender.Given? && p.fallbackComponent.Falsy?
  {
    var component := match p.fallbackComponent
      case Omitted => Some(defaultFallback)
      case Falsy => None
      case Given(c) => Some(c);
    if p.fallback.Given? then Static(p.fallback.value)
    else if p.fallbackRender.Given? then RenderProp(p.fallbackRender.value)
    else if component.Some? then ComponentProp(component.value)
    else Null
  }

  /** The first present entry of a precedence list. */
  function FirstPresent(candidates: seq<Option<Variant>>): (r: Variant)
    ensures r == Null <==> forall i :: 0 <= i < |candidates| ==> candidates[i].None? || candidates[i].value == Null
    ensures r != Null ==> exists i :: (0 <= i < |candidates| && candidates[i] == Some(r)
                                       && forall j :: 0 <= j < i ==> candidates[j].None? || candidates[j].value == Null)
  {
    if candidates == [] then Null
    else if candidates[0].Some? && candidates[0].value != Null then candidates[0].value
    else FirstPresent(candidates[1..])
  }

  /** Each fallback prop as a candidate: present when truthy, the component's falling back to the default. */
  function Candidates(p: Props, defaultFallback: Component): seq<Option<Variant>> {
    [ if p.fallback.Given? then Some(Static(p.fallback.value)) else None,
      if p.fallbackRender.Given? then Some(RenderProp(p.fallbackRender.value)) else None,
      match p.fallbackComponent
        case Omitted => Some(ComponentProp(defaultFallback))
        case Falsy => None
        case Given(c) => Some(ComponentProp(c)) ]
  }

  /** The selection is the first present candidate of the fixed precedence list. */
  lemma SelectVariantIsFirstCandidate(p: Props, defaultFallback: Component)
    ensures SelectVariant(p, defaultFallback) == FirstPresent(Candidates(p, defaultFallback))
  {
    var c := Candidates(p, defaultFallback);
    assert c[1..][0] == c[1];
    assert c[1..][1..][0] == c[2];
    assert c[1..][1..][1..] == [];
  }

  /** With all three fallback props given, the static element wins. */
  lemma StaticFallbackWins(p: Props, defaultFallback: Component)
    requires p.fallback.Given? && p.fallbackRender.Given? && p.fallbackComponent.Given?
    ensures SelectVariant(p, defaultFallback) == Static(p.fallback.value)
  {
  }

  /** A later `setDefaultErrorBoundaryFallback` decides what an instance without fallback props shows. */
  lemma DefaultFallbackFollowsSetter(g: Globals, component: Component, p: Props)
    requires !p.fallback.Given? && !p.fallbackRender.Given? && p.fallbackComponent.Omitted?
    ensures SelectVariant(p, SetDefaultFallback(g, component).defaultFallback) == ComponentProp(component)
  {
  }

  /**
   `ErrorBoundary` itself: null exactly when no fallback is selected;
   otherwise the underlying boundary gets the selected fallback, a handler
   closing over `onError` and the resolved options, and the children and
   remaining props unchanged.
   */
  function Render(p: Props, g: Globals): (r: Rendered)
    ensures r.RenderNull? <==> !p.fallback.Given? && !p.fallbackRender.Given? && p.fallbackComponent.Falsy?
    ensures r.Boundary? ==> r.rest == p.rest && r.children == p.children
    ensures r.Boundary? ==> r.handler.onError == p.onError
    ensures r.Boundary? ==> r.handler.settings == ResolveOptions(p.options, g.optionsDefaults)
    ensures r.Boundary? ==> r.variant == SelectVariant(p, g.defaultFallback) && r.variant != Null
  {
    var v := SelectVariant(p, g.defaultFallback);
    if v == Null then RenderNull
    else Boundary(v, Handler(p.onError, ResolveOptions(p.options, g.optionsDefaults)), p.rest, p.children)
  }

  /** How many of the effects are calls of the user's `onError`. */
  function OnErrorCalls(effects: seq<Effect>): (n: nat)
    ensures n == 0 <==> forall i :: 0 <= i < |effects| ==> !effects[i].CallOnError?
  {
    if effects == [] then 0
    else (if effects[0].CallOnError? then 1 else 0) + OnErrorCalls(effects[1..])
  }

  /**
   `handleError` for error `err` with context `info`, in the order its
   effects happen: the overlay claim and the log (development mode only)
   unless the overlay is allowed, then the user's `onError` if supplied.
   */
  function HandleError(h: Handler, devMode: bool, err: Interceptor.ErrorId, info: ErrorInfo): (effects: seq<Effect>)
    ensures SuppressOverlay(err) in effects <==> !h.settings.allowDevErrorOverlay
    ensures LogCaught(err) in effects <==> !h.settings.allowDevErrorOverlay && h.settings.logCaughtErrors && devMode
    ensures |effects| == (if !h.settings.allowDevErrorOverlay then 1 else 0)
                         + (if !h.settings.allowDevErrorOverlay && h.settings.logCaughtErrors && devMode then 1 else 0)
                         + (if h.onError.Some? then 1 else 0)
    ensures !h.settings.allowDevErrorOverlay ==> effects[0] == SuppressOverlay(err)
    ensures OnErrorCalls(effects) == (if h.onError.Some? then 1 else 0)
    ensures h.onError.Some? ==> effects[|effects| - 1] == CallOnError(h.onError.value, err, info)
    ensures forall i :: 0 <= i < |effects| ==> effects[i].err == err
  {
    var claimed := if h.settings.allowDevErrorOverlay then [] else [SuppressOverlay(err)];
    var logged := if !h.settings.allowDevErrorOverlay && h.settings.logCaughtErrors && devMode then [LogCaught(err)] else [];
    var called := if h.onError.Some? then [CallOnError(h.onError.value, err, info)] else [];
    assert OnErrorCalls(claimed + logged + called) == OnErrorCalls(called) by {
      OnErrorCallsAppend(claimed + logged, called);
    }
    claimed + logged + called
  }

  lemma {:induction false} OnErrorCallsAppend(a: seq<Effect>, b: seq<Effect>)
    ensures OnErrorCalls(a + b) == OnErrorCalls(a) + OnErrorCalls(b)
    decreases |a|
  {
    if a != [] {
      assert (a + b)[0] == a[0];
      assert (a + b)[1..] == a[1..] + b;
      OnErrorCallsAppend(a[1..], b);
    } else {
      assert a + b == b;
    }
  }

  /**
   A corollary of HandleError's contract, spelled out for readers: the
   claim, when made, is the first effect; the user's `onError`, when given,
   comes after it.
   */
  lemma ClaimPrecedesOnError(h: Handler, devMode: bool, err: Interceptor.ErrorId, info: ErrorInfo)
    requires !h.settings.allowDevErrorOverlay
    ensures var effects := HandleError(h, devMode, err, info);
      && effects[0] == SuppressOverlay(err)
      && (h.onError.Some? ==> |effects| >= 2 && effects[|effects| - 1].CallOnError?)
  {
  }

  /** The interceptor state after the effects: only a claim touches it. */
  function ApplyEffects(s: Interceptor.State, effects: seq<Effect>): (r: Interceptor.State)
    ensures r.(suppressed := s.suppressed) == s
    ensures s.intercept ==> forall e :: e in r.suppressed <==> e in s.suppressed || SuppressOverlay(e) in effects
    ensures !s.intercept ==> r == s
    decreases |effects|
  {
    if effects == [] then s
    else
      var s1 := if effects[0].SuppressOverlay? then Interceptor.Claim(s, effects[0].err) else s;
      assert forall e :: SuppressOverlay(e) in effects <==> effects[0] == SuppressOverlay(e) || SuppressOverlay(e) in effects[1..] by {
        assert effects == [effects[0]] + effects[1..];
      }
      ApplyEffects(s1, effects[1..])
  }

  /**
   The underlying boundary catching `err` with handler `h`: the claim and
   the development-mode check of the log read the same environment switch
   as the interceptor. Outside development mode nothing changes; with the
   overlay allowed nothing changes; otherwise only the claimed flag of
   `err` is set.
   */
  function BoundaryCatch(s: Interceptor.State, h: Handler, err: Interceptor.ErrorId, info: ErrorInfo): (r: Interceptor.State)
    ensures s.intercept && !h.settings.allowDevErrorOverlay ==> r == s.(suppressed := s.suppressed + {err})
    ensures !s.intercept || h.settings.allowDevErrorOverlay ==> r == s
  {
    var effects := HandleError(h, s.intercept, err, info);
    var r := ApplyEffects(s, effects);
    assert forall e :: SuppressOverlay(e) in effects ==> e == err;
    r
  }
}
