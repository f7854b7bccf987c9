/** The reconcile loop of the operator (src/main.rs): the guards that decide whether an
    Ingress is translated, the per-host translation into HTTPRoute / TCPRoute patches, the
    error policy and the leadership flag. The cluster is abstracted as a map of service
    ports and a patch oracle; every patch call is appended to a write log. */
module Reconciler {
  import opened Wrappers
  import opened Text
  import opened ValueFilters
  import opened Owners
  import opened Routes

  /** The field manager of every server-side apply. */
  const FIELD_MANAGER: string := "ingress-to-gateway-controller"
  /** apiVersion and kind of `networking::v1::Ingress`, the owner of generated routes. */
  const INGRESS_API_VERSION: string := "networking.k8s.io/v1"
  const INGRESS_KIND: string := "Ingress"

  /** The command-line flags `reconcile` reads (`I2GArgs`). */
  datatype Args = Args(
    defaultGatewayName: string,
    defaultGatewayNamespace: string,
    linkToIngress: bool,
    experimental: bool,
    skipByDefault: bool)

  /** The annotation names `reconcile` reads. */
  datatype AnnotationKeys = AnnotationKeys(
    translateIngress: string,
    gatewayName: string,
    gatewayNamespace: string,
    desiredSection: string,
    headerFiltersPrefix: string,
    queryFiltersPrefix: string)

  /** Everything a reconcile depends on besides the Ingress: the flags, the annotation
      names, the named service ports of the cluster and `sanitize_hostname`. */
  datatype Setup = Setup(args: Args, keys: AnnotationKeys, ports: ServicePorts, sanitize: string -> string)

  datatype IngressRule = IngressRule(host: Option<string>, http: Option<seq<HttpIngressPath>>)
  datatype IngressSpec = IngressSpec(rules: Option<seq<IngressRule>>, defaultBackend: Option<IngressBackend>)
  /** An Ingress, reduced to the fields `reconcile` reads. */
  datatype Ingress = Ingress(
    name: string,
    namespace: Option<string>,
    uid: Option<string>,
    annotations: Option<Annotations>,
    spec: Option<IngressSpec>)

  /** `Action::requeue(Duration::from_secs(seconds))`. */
  datatype Action = Requeue(seconds: nat)

  /** The two `I2GError` variants `reconcile` produces: a validation message, or a
      rejected patch (named after the route it tried to apply). */
  datatype ReconcileError = AnyhowError(message: string) | KubeError(route: string)

  datatype RouteObject = Http(http: HttpRoute) | Tcp(tcp: TcpRoute)
  /** One `Api::patch` call: namespace, object name, field manager and applied object. */
  datatype PatchCall = PatchCall(namespace: string, name: string, fieldManager: string, obj: RouteObject)

  // --------------------------------------------------------------- decisions

  /** The Ingress has a spec, the spec has rules, and the Ingress has a namespace. */
  predicate WellFormed(ingress: Ingress) {
    ingress.spec.Some? && ingress.spec.value.rules.Some? && ingress.namespace.Some?
  }

  /** The value of annotation `key`, if the Ingress has annotations and that one. */
  function Annotation(ingress: Ingress, key: string): Option<string> {
    if ingress.annotations.Some? then Lookup(ingress.annotations.value, key) else None
  }

  /** Skip when the translate annotation is present and not `true` (any case), or when it
      is absent and the operator skips by default. */
  predicate SkipTranslation(setup: Setup, ingress: Ingress) {
    var v := Annotation(ingress, setup.keys.translateIngress);
    if v.Some? then !IsTrueValue(v.value) else setup.args.skipByDefault
  }

  /** The gateway of the routes: the annotation's, else the operator default. */
  function GatewayName(setup: Setup, ingress: Ingress): string {
    Annotation(ingress, setup.keys.gatewayName).GetOr(setup.args.defaultGatewayName)
  }

  function GatewayNamespace(setup: Setup, ingress: Ingress): string {
    Annotation(ingress, setup.keys.gatewayNamespace).GetOr(setup.args.defaultGatewayNamespace)
  }

  /** The header or query matchers: none without annotations, else those under `prefix`. */
  function MatchersFor(annotations: Option<Annotations>, prefix: string): Option<seq<MatchRule>> {
    if annotations.Some? then Some(Matchers(annotations.value, prefix)) else None
  }

  /** The `RouteInputInfo` of one host. */
  function InfoFor(setup: Setup, ingress: Ingress, namespace: string, host: string): RouteInfo {
    RouteInfo(
      ingress.name, namespace, ingress.annotations,
      GatewayName(setup, ingress), GatewayNamespace(setup, ingress),
      Annotation(ingress, setup.keys.desiredSection), host,
      MatchersFor(ingress.annotations, setup.keys.headerFiltersPrefix),
      MatchersFor(ingress.annotations, setup.keys.queryFiltersPrefix))
  }

  function IngressOwner(ingress: Ingress): Owner {
    Owner(INGRESS_API_VERSION, INGRESS_KIND, ingress.name, ingress.uid)
  }

  /** A route's owner references after the optional `add_owner(ingress)`. An Ingress without
      uid would make `add_owner` panic; the methods below exclude it, so here it is total. */
  function Linked(setup: Setup, ingress: Ingress, refs: Option<seq<OwnerReference>>): Option<seq<OwnerReference>> {
    if setup.args.linkToIngress && ingress.uid.Some? then Some(WithOwner(refs.GetOr([]), ReferenceTo(IngressOwner(ingress)))) else refs
  }

  function HttpPatch(setup: Setup, ingress: Ingress, namespace: string, route: HttpRoute): PatchCall
  {
    PatchCall(namespace, route.name, FIELD_MANAGER, Http(route.(ownerReferences := Linked(setup, ingress, route.ownerReferences))))
  }

  function TcpPatch(setup: Setup, ingress: Ingress, namespace: string, route: TcpRoute): PatchCall
  {
    PatchCall(namespace, route.name, FIELD_MANAGER, Tcp(route.(ownerReferences := Linked(setup, ingress, route.ownerReferences))))
  }

  /** One patch per HTTP route, in order. */
  function HttpPatches(setup: Setup, ingress: Ingress, namespace: string, routes: seq<HttpRoute>): seq<PatchCall>
  {
    seq(|routes|, i requires 0 <= i < |routes| => HttpPatch(setup, ingress, namespace, routes[i]))
  }

  /** The patches one Ingress rule asks for. A rule without host, a host whose HTTP routes
      fail to build, and (without HTTP paths) a disabled experimental mode, a missing
      default backend or backend service, or a TCP route that fails to build all give none. */
  function HostPatches(setup: Setup, ingress: Ingress, namespace: string, defaultBackend: Option<IngressBackend>, rule: IngressRule): seq<PatchCall>
  {
    if rule.host.None? then []
    else
      var info := InfoFor(setup, ingress, namespace, rule.host.value);
      if rule.http.Some? then
        match HttpRoutesOf(info, rule.http.value, setup.ports, setup.sanitize)
        case Err(_) => []
        case Ok(routes) => HttpPatches(setup, ingress, namespace, routes)
      else if !setup.args.experimental || defaultBackend.None? || defaultBackend.value.service.None? then []
      else
        match CreateTcpRoute(info, defaultBackend.value.service.value, setup.ports, setup.sanitize)
        case Err(_) => []
        case Ok(route) => [TcpPatch(setup, ingress, namespace, route)]
  }

  /** The concatenation of `f` over `xs`, in order. */
  function FlatMap<T>(f: T -> seq<PatchCall>, xs: seq<T>): seq<PatchCall> {
    if xs == [] then [] else FlatMap(f, xs[..|xs| - 1]) + f(xs[|xs| - 1])
  }

  /** The patches of all rules, in rule order. */
  function Planned(setup: Setup, ingress: Ingress, namespace: string, defaultBackend: Option<IngressBackend>, rules: seq<IngressRule>): seq<PatchCall> {
    FlatMap(rule => HostPatches(setup, ingress, namespace, defaultBackend, rule), rules)
  }

  /** The calls issued when each rejected patch aborts the rest: every call up to and
      including the first rejected one. */
  function ApplyUntilFailure(calls: seq<PatchCall>, accepts: PatchCall -> bool): seq<PatchCall> {
    if calls == [] then []
    else if accepts(calls[0]) then [calls[0]] + ApplyUntilFailure(calls[1..], accepts)
    else [calls[0]]
  }

  predicate AllAccepted(calls: seq<PatchCall>, accepts: PatchCall -> bool) {
    forall i :: 0 <= i < |calls| ==> accepts(calls[i])
  }

  /** The action after an error: `on_error` requeues after 30 seconds, whatever the error. */
  function OnError(ingress: Ingress, err: ReconcileError): (a: Action)
    ensures a.seconds == 30
  {
    Requeue(30)
  }

  // ------------------------------------------------------------------ lemmas

  /** The issued calls are a prefix of the planned ones; all of them are issued exactly when
      all are accepted, and otherwise the last issued call is the only rejected one. */
  lemma {:induction false} ApplyUntilFailurePrefix(calls: seq<PatchCall>, accepts: PatchCall -> bool)
    ensures var done := ApplyUntilFailure(calls, accepts);
      && |done| <= |calls| && done == calls[..|done|]
      && (AllAccepted(calls, accepts) ==> done == calls)
      && (!AllAccepted(calls, accepts) ==> done != [] && !accepts(done[|done| - 1]) && AllAccepted(done[..|done| - 1], accepts))
    decreases |calls|
  {
    if calls != [] && accepts(calls[0]) {
      var rest := calls[1..];
      ApplyUntilFailurePrefix(rest, accepts);
      var done := ApplyUntilFailure(calls, accepts);
      var tail := ApplyUntilFailure(rest, accepts);
      assert done == [calls[0]] + tail;
      assert calls == [calls[0]] + rest;
      if AllAccepted(rest, accepts) {
        assert AllAccepted(calls, accepts) by {
          forall i | 0 <= i < |calls| ensures accepts(calls[i]) {
            if i > 0 { assert calls[i] == rest[i - 1]; }
          }
        }
      } else {
        var k :| 0 <= k < |rest| && !accepts(rest[k]);
        assert !accepts(calls[k + 1]);
        var d, t := done[..|done| - 1], tail[..|tail| - 1];
        assert d == [calls[0]] + t;
        forall i | 0 <= i < |d| ensures accepts(d[i]) {
          if i > 0 { assert d[i] == t[i - 1]; }
        }
      }
    }
  }

  /** Accepted calls pass straight through. */
  lemma {:induction false} ApplyAccepted(xs: seq<PatchCall>, ys: seq<PatchCall>, accepts: PatchCall -> bool)
    requires AllAccepted(xs, accepts)
    ensures ApplyUntilFailure(xs + ys, accepts) == xs + ApplyUntilFailure(ys, accepts)
    decreases |xs|
  {
    if xs != [] {
      assert (xs + ys)[1..] == xs[1..] + ys;
      ApplyAccepted(xs[1..], ys, accepts);
      assert xs == [xs[0]] + xs[1..];
    } else {
      assert xs + ys == ys;
    }
  }

  /** A rejection inside `ys` hides everything after it. */
  lemma {:induction false} ApplyStops(ys: seq<PatchCall>, zs: seq<PatchCall>, accepts: PatchCall -> bool)
    requires !AllAccepted(ys, accepts)
    ensures ApplyUntilFailure(ys + zs, accepts) == ApplyUntilFailure(ys, accepts)
    decreases |ys|
  {
    if accepts(ys[0]) {
      assert (ys + zs)[1..] == ys[1..] + zs;
      assert !AllAccepted(ys[1..], accepts) by {
        var k :| 0 <= k < |ys| && !accepts(ys[k]);
        assert ys[1..][k - 1] == ys[k];
      }
      ApplyStops(ys[1..], zs, accepts);
    }
  }

  /** A rejection at position `i` after clean calls: the calls up to `i` are issued. */
  lemma ApplyRejectedAt(calls: seq<PatchCall>, i: nat, accepts: PatchCall -> bool)
    requires i < |calls| && AllAccepted(calls[..i], accepts) && !accepts(calls[i])
    ensures ApplyUntilFailure(calls, accepts) == calls[..i + 1]
    ensures !AllAccepted(calls, accepts)
  {
    ApplyAccepted(calls[..i], calls[i..], accepts);
    assert calls == calls[..i] + calls[i..];
    assert calls[i..][0] == calls[i];
    assert calls[..i + 1] == calls[..i] + [calls[i]];
  }

  lemma AppendAssoc(a: seq<PatchCall>, b: seq<PatchCall>, c: seq<PatchCall>)
    ensures (a + b) + c == a + (b + c)
  {
  }

  lemma AllAcceptedAppend(xs: seq<PatchCall>, ys: seq<PatchCall>, accepts: PatchCall -> bool)
    ensures AllAccepted(xs + ys, accepts) <==> AllAccepted(xs, accepts) && AllAccepted(ys, accepts)
  {
    if AllAccepted(xs, accepts) && AllAccepted(ys, accepts) {
      forall i | 0 <= i < |xs + ys| ensures accepts((xs + ys)[i]) {
        if i >= |xs| { assert (xs + ys)[i] == ys[i - |xs|]; }
      }
    }
    if AllAccepted(xs + ys, accepts) {
      forall i | 0 <= i < |xs| ensures accepts(xs[i]) {
        assert (xs + ys)[i] == xs[i];
      }
      forall i | 0 <= i < |ys| ensures accepts(ys[i]) {
        assert (xs + ys)[|xs| + i] == ys[i];
      }
    }
  }

  lemma {:induction false} FlatMapAppend<T>(f: T -> seq<PatchCall>, a: seq<T>, b: seq<T>)
    ensures FlatMap(f, a + b) == FlatMap(f, a) + FlatMap(f, b)
    decreases |b|
  {
    if b == [] {
      assert a + b == a;
    } else {
      assert (a + b)[..|a + b| - 1] == a + b[..|b| - 1];
      FlatMapAppend(f, a, b[..|b| - 1]);
    }
  }

  /** The plan splits at rule `k` into the rules before it, its own patches, and the rest. */
  lemma FlatMapSplit<T>(f: T -> seq<PatchCall>, xs: seq<T>, k: nat)
    requires k < |xs|
    ensures FlatMap(f, xs[..k + 1]) == FlatMap(f, xs[..k]) + f(xs[k])
    ensures FlatMap(f, xs) == FlatMap(f, xs[..k + 1]) + FlatMap(f, xs[k + 1..])
  {
    assert xs[..k + 1][..k] == xs[..k];
    FlatMapAppend(f, xs[..k + 1], xs[k + 1..]);
    assert xs[..k + 1] + xs[k + 1..] == xs;
  }

  /** A rejection inside `host`, after the clean calls `done`, ends the pass there. */
  lemma ApplyRejectedInside(done: seq<PatchCall>, host: seq<PatchCall>, rest: seq<PatchCall>, accepts: PatchCall -> bool)
    requires AllAccepted(done, accepts) && !AllAccepted(host, accepts)
    ensures ApplyUntilFailure((done + host) + rest, accepts) == done + ApplyUntilFailure(host, accepts)
    ensures !AllAccepted((done + host) + rest, accepts)
  {
    assert (done + host) + rest == done + (host + rest);
    ApplyAccepted(done, host + rest, accepts);
    ApplyStops(host, rest, accepts);
    AllAcceptedAppend(done, host + rest, accepts);
    AllAcceptedAppend(host, rest, accepts);
  }

  /** A rule that yields no patch (no host, routes that fail to build, a skipped non-HTTP
      rule) is passed over: the rules around it are planned as if it were absent. */
  lemma SkippedRule(setup: Setup, ingress: Ingress, namespace: string, defaultBackend: Option<IngressBackend>, before: seq<IngressRule>, rule: IngressRule, after: seq<IngressRule>)
    requires HostPatches(setup, ingress, namespace, defaultBackend, rule) == []
    ensures Planned(setup, ingress, namespace, defaultBackend, before + [rule] + after)
         == Planned(setup, ingress, namespace, defaultBackend, before + after)
  {
    FlatMapSkip(r => HostPatches(setup, ingress, namespace, defaultBackend, r), before, rule, after);
  }

  lemma FlatMapSkip<T>(f: T -> seq<PatchCall>, before: seq<T>, x: T, after: seq<T>)
    requires f(x) == []
    ensures FlatMap(f, before + [x] + after) == FlatMap(f, before + after)
  {
    FlatMapAppend(f, before + [x], after);
    FlatMapAppend(f, before, after);
    assert (before + [x])[..|before|] == before;
    assert FlatMap(f, before + [x]) == FlatMap(f, before) + f(x);
  }

  /** Every patch is a server-side apply by the operator's field manager into the Ingress's
      namespace, of an object that names the Ingress as owner when linking is on. */
  lemma {:induction false} PlannedCalls(setup: Setup, ingress: Ingress, namespace: string, defaultBackend: Option<IngressBackend>, rules: seq<IngressRule>, c: PatchCall)
    requires setup.args.linkToIngress ==> ingress.uid.Some?
    requires c in Planned(setup, ingress, namespace, defaultBackend, rules)
    ensures c.namespace == namespace && c.fieldManager == FIELD_MANAGER
    ensures setup.args.linkToIngress ==>
      var refs := if c.obj.Http? then c.obj.http.ownerReferences else c.obj.tcp.ownerReferences;
      refs.Some? && HasUid(refs.value, ingress.uid.value)
    ensures c.obj.Http? ==> c.name == c.obj.http.name
    ensures c.obj.Tcp? ==> c.name == c.obj.tcp.name
    decreases |rules|
  {
    var init := rules[..|rules| - 1];
    if c in Planned(setup, ingress, namespace, defaultBackend, init) {
      PlannedCalls(setup, ingress, namespace, defaultBackend, init, c);
    }
  }

  /** Every planned route hangs under the gateway the annotations name, else under the
      operator's default gateway, in the section the annotations ask for. */
  lemma {:induction false} PlannedParents(setup: Setup, ingress: Ingress, namespace: string, defaultBackend: Option<IngressBackend>, rules: seq<IngressRule>, c: PatchCall)
    requires c in Planned(setup, ingress, namespace, defaultBackend, rules)
    ensures var parents := if c.obj.Http? then c.obj.http.parentRefs else c.obj.tcp.parentRefs;
      parents == [ParentRef(Some(GATEWAY_GROUP), Some(GATEWAY_KIND),
        (if Annotation(ingress, setup.keys.gatewayName).Some? then Annotation(ingress, setup.keys.gatewayName).value else setup.args.defaultGatewayName),
        Some(if Annotation(ingress, setup.keys.gatewayNamespace).Some? then Annotation(ingress, setup.keys.gatewayNamespace).value else setup.args.defaultGatewayNamespace),
        Annotation(ingress, setup.keys.desiredSection))]
    decreases |rules|
  {
    var init := rules[..|rules| - 1];
    if c in Planned(setup, ingress, namespace, defaultBackend, init) {
      PlannedParents(setup, ingress, namespace, defaultBackend, init, c);
    } else {
      var rule := rules[|rules| - 1];
      var info := InfoFor(setup, ingress, namespace, rule.host.value);
      if rule.http.Some? {
        var routes := HttpRoutesOf(info, rule.http.value, setup.ports, setup.sanitize).value;
        HttpRoutesOutcome(info, rule.http.value, setup.ports, setup.sanitize);
        var collected := HttpRulesOf(setup.ports, namespace, rule.http.value, MatchRulesets(info.headerMatchers, info.queryMatchers)).value;
        RoutesOfShape(info, SplitRoutesFlag(info.annotations), collected, setup.sanitize);
        var i :| 0 <= i < |routes| && c == HttpPatch(setup, ingress, namespace, routes[i]);
      }
    }
  }

  // ------------------------------------------------------------- the operator

  /** The operator's state: the leadership flag shared with the lease task, and the log of
      patch calls issued to the cluster. `accepts` says which patches the API server takes. */
  class Operator {
    var isLeader: bool
    var log: seq<PatchCall>
    const setup: Setup
    const accepts: PatchCall -> bool

    constructor(setup: Setup, accepts: PatchCall -> bool, isLeader: bool)
      ensures this.setup == setup && this.accepts == accepts && this.isLeader == isLeader && log == []
    {
      this.setup := setup;
      this.accepts := accepts;
      this.isLeader := isLeader;
      log := [];
    }

    /** `Api::patch` with server-side apply: the call is logged; it may be rejected. */
    method Patch(call: PatchCall) returns (ok: bool)
      modifies this
      ensures log == old(log) + [call] && ok == accepts(call)
      ensures isLeader == old(isLeader)
    {
      log := log + [call];
      ok := accepts(call);
    }

    /** Link a route to the Ingress when the operator is configured to. */
    method LinkOwner(ingress: Ingress, refs: Option<seq<OwnerReference>>) returns (linked: Option<seq<OwnerReference>>)
      requires setup.args.linkToIngress ==> ingress.uid.Some?
      ensures linked == Linked(setup, ingress, refs)
    {
      linked := refs;
      if setup.args.linkToIngress {
        var meta := new ObjectMeta(refs);
        meta.AddOwner(IngressOwner(ingress));
        linked := meta.ownerReferences;
      }
    }

    /** The `for mut route in routes` loop of `reconcile`: link each route, patch it, and
        stop at the first rejection, returning that route's name. */
    method PatchHttpRoutes(ingress: Ingress, namespace: string, routes: seq<HttpRoute>) returns (rejected: Option<string>)
      requires setup.args.linkToIngress ==> ingress.uid.Some?
      modifies this
      ensures var calls := HttpPatches(setup, ingress, namespace, routes);
        && log == old(log) + ApplyUntilFailure(calls, accepts)
        && (rejected.None? <==> AllAccepted(calls, accepts))
      ensures isLeader == old(isLeader)
    {
      ghost var calls := HttpPatches(setup, ingress, namespace, routes);
      for i := 0 to |routes|
        invariant log == old(log) + calls[..i] && AllAccepted(calls[..i], accepts)
        invariant isLeader == old(isLeader)
      {
        var route := routes[i];
        var owners := LinkOwner(ingress, route.ownerReferences);
        route := route.(ownerReferences := owners);
        assert calls[i] == PatchCall(namespace, route.name, FIELD_MANAGER, Http(route));
        var ok := Patch(PatchCall(namespace, route.name, FIELD_MANAGER, Http(route)));
        assert calls[..i + 1] == calls[..i] + [calls[i]];
        AppendAssoc(old(log), calls[..i], [calls[i]]);
        if !ok {
          ApplyRejectedAt(calls, i, accepts);
          return Some(route.name);
        }
        AllAcceptedAppend(calls[..i], [calls[i]], accepts);
      }
      assert calls[..|routes|] == calls;
      ApplyAccepted(calls, [], accepts);
      assert calls + [] == calls;
      return None;
    }

    /** One pass of the host loop of `reconcile`: build the host's routes and patch them,
        stopping at the first rejected patch, whose route name is returned. */
    method ReconcileHost(ingress: Ingress, namespace: string, base: RouteInfo, defaultBackend: Option<IngressBackend>, rule: IngressRule)
      returns (rejected: Option<string>)
      requires setup.args.linkToIngress ==> ingress.uid.Some?
      requires base == InfoFor(setup, ingress, namespace, base.hostname)
      modifies this
      ensures var calls := HostPatches(setup, ingress, namespace, defaultBackend, rule);
        && log == old(log) + ApplyUntilFailure(calls, accepts)
        && (rejected.None? <==> AllAccepted(calls, accepts))
      ensures isLeader == old(isLeader)
    {
      ghost var calls := HostPatches(setup, ingress, namespace, defaultBackend, rule);
      if rule.host.None? {
        return None;
      }
      var host := rule.host.value;
      var routeInfo := base.(hostname := host);
      if rule.http.Some? {
        var built := CreateHttpRoutes(routeInfo, rule.http.value, setup.ports, setup.sanitize);
        if built.Err? {
          return None;
        }
        rejected := PatchHttpRoutes(ingress, namespace, built.value);
        return;
      }
      if !setup.args.experimental {
        return None;
      }
      if defaultBackend.None? {
        return None;
      }
      var backend := defaultBackend.value;
      if backend.service.None? {
        return None;
      }
      var built := CreateTcpRoute(routeInfo, backend.service.value, setup.ports, setup.sanitize);
      if built.Err? {
        return None;
      }
      var route := built.value;
      var owners := LinkOwner(ingress, route.ownerReferences);
      route := route.(ownerReferences := owners);
      var ok := Patch(PatchCall(namespace, route.name, FIELD_MANAGER, Tcp(route)));
      if !ok {
        return Some(route.name);
      }
      return None;
    }

    /** `reconcile`. Not a leader: requeue after 20 s. Translation skipped: requeue after
        60 s. No spec, no rules or no namespace: an error. None of these writes anything.
        Otherwise every rule's patches are issued in order until one is rejected, which
        makes the reconcile fail; a host whose routes fail to build is skipped and the
        later hosts still run. A pass without rejection requeues after 10 s. */
    method Reconcile(ingress: Ingress) returns (r: Result<Action, ReconcileError>)
      requires ingress.annotations.Some? ==> IsAnnotationMap(ingress.annotations.value)
      requires setup.args.linkToIngress ==> ingress.uid.Some?
      modifies this
      ensures isLeader == old(isLeader)
      ensures !isLeader ==> r == Ok(Requeue(20)) && log == old(log)
      ensures isLeader && SkipTranslation(setup, ingress) ==> r == Ok(Requeue(60)) && log == old(log)
      ensures isLeader && !SkipTranslation(setup, ingress) && !WellFormed(ingress) ==>
          r.Err? && r.error.AnyhowError? && log == old(log)
      ensures isLeader && !SkipTranslation(setup, ingress) && WellFormed(ingress) ==>
          var calls := Planned(setup, ingress, ingress.namespace.value, ingress.spec.value.defaultBackend, ingress.spec.value.rules.value);
          && log == old(log) + ApplyUntilFailure(calls, accepts)
          && (r == Ok(Requeue(10)) <==> AllAccepted(calls, accepts))
          && (r.Err? <==> !AllAccepted(calls, accepts))
          && (r.Err? ==> r.error.KubeError?)
    {
      if !isLeader {
        return Ok(Requeue(20));
      }
      var translate := if ingress.annotations.Some? then Lookup(ingress.annotations.value, setup.keys.translateIngress) else None;
      var skipTranslation := if translate.Some? then ToLowerAscii(translate.value) != "true" else setup.args.skipByDefault;
      if skipTranslation {
        return Ok(Requeue(60));
      }
      if ingress.spec.None? {
        return Err(AnyhowError("Ingres doesn't have spec section"));
      }
      var ingressSpec := ingress.spec.value;
      if ingressSpec.rules.None? {
        return Err(AnyhowError("Ingress doesn't have any routing rules"));
      }
      var ingressRules := ingressSpec.rules.value;
      if ingress.namespace.None? {
        return Err(AnyhowError("Ingress doesn't have a namespace"));
      }
      var namespace := ingress.namespace.value;
      var desiredSectionName := if ingress.annotations.Some? then Lookup(ingress.annotations.value, setup.keys.desiredSection) else None;
      var gwNamespace := setup.args.defaultGatewayNamespace;
      var gwName := setup.args.defaultGatewayName;
      var headerMatchers: Option<seq<MatchRule>> := None;
      var queryMatchers: Option<seq<MatchRule>> := None;
      if ingress.annotations.Some? {
        var annotations := ingress.annotations.value;
        gwNamespace := Lookup(annotations, setup.keys.gatewayNamespace).GetOr(gwNamespace);
        gwName := Lookup(annotations, setup.keys.gatewayName).GetOr(gwName);
        var headers := FromAnnotations(annotations, setup.keys.headerFiltersPrefix);
        headerMatchers := Some(headers);
        var queries := FromAnnotations(annotations, setup.keys.queryFiltersPrefix);
        queryMatchers := Some(queries);
      }
      var defaultBackend := ingressSpec.defaultBackend;
      var base := RouteInfo(ingress.name, namespace, ingress.annotations, gwName, gwNamespace, desiredSectionName, "", headerMatchers, queryMatchers);
      assert base == InfoFor(setup, ingress, namespace, "");
      r := ReconcileRules(ingress, namespace, base, defaultBackend, ingressRules);
    }

    /** The host loop of `reconcile` and its final 10 s requeue: every rule's patches in
        order, the first rejected patch failing the reconcile. */
    method ReconcileRules(ingress: Ingress, namespace: string, base: RouteInfo, defaultBackend: Option<IngressBackend>, ingressRules: seq<IngressRule>)
      returns (r: Result<Action, ReconcileError>)
      requires setup.args.linkToIngress ==> ingress.uid.Some?
      requires base == InfoFor(setup, ingress, namespace, base.hostname)
      modifies this
      ensures isLeader == old(isLeader)
      ensures var calls := Planned(setup, ingress, namespace, defaultBackend, ingressRules);
        && log == old(log) + ApplyUntilFailure(calls, accepts)
        && (r == Ok(Requeue(10)) <==> AllAccepted(calls, accepts))
        && (r.Err? <==> !AllAccepted(calls, accepts))
        && (r.Err? ==> r.error.KubeError?)
    {
      for k := 0 to |ingressRules|
        invariant log == old(log) + Planned(setup, ingress, namespace, defaultBackend, ingressRules[..k])
        invariant AllAccepted(Planned(setup, ingress, namespace, defaultBackend, ingressRules[..k]), accepts)
        invariant isLeader == old(isLeader)
      {
        ghost var done := Planned(setup, ingress, namespace, defaultBackend, ingressRules[..k]);
        ghost var host := HostPatches(setup, ingress, namespace, defaultBackend, ingressRules[k]);
        FlatMapSplit(rule => HostPatches(setup, ingress, namespace, defaultBackend, rule), ingressRules, k);
        ghost var before := log;
        var rejected := ReconcileHost(ingress, namespace, base, defaultBackend, ingressRules[k]);
        if rejected.Some? {
          ApplyRejectedInside(done, host, Planned(setup, ingress, namespace, defaultBackend, ingressRules[k + 1..]), accepts);
          AppendAssoc(old(log), done, ApplyUntilFailure(host, accepts));
          return Err(KubeError(rejected.value));
        }
        ApplyAccepted(host, [], accepts);
        assert host + [] == host;
        assert log == before + host;
        AppendAssoc(old(log), done, host);
        AllAcceptedAppend(done, host, accepts);
      }
      assert ingressRules[..|ingressRules|] == ingressRules;
      ghost var calls := Planned(setup, ingress, namespace, defaultBackend, ingressRules);
      ApplyAccepted(calls, [], accepts);
      assert calls + [] == calls;
      return Ok(Requeue(10));
    }

    /** What the controller does with one reconcile: the action it returns, or the action
        `on_error` gives for its error. A non-leader requeues after 20 s and a skipped
        Ingress after 60 s; every malformed Ingress and every rejected patch leads to a
        30 s requeue, and a clean pass to a 10 s one. */
    method ReconcileAndRequeue(ingress: Ingress) returns (action: Action)
      requires ingress.annotations.Some? ==> IsAnnotationMap(ingress.annotations.value)
      requires setup.args.linkToIngress ==> ingress.uid.Some?
      modifies this
      ensures action.seconds in {10, 20, 30, 60}
      ensures isLeader == old(isLeader)
      ensures !isLeader ==> action == Requeue(20) && log == old(log)
      ensures isLeader && SkipTranslation(setup, ingress) ==> action == Requeue(60) && log == old(log)
      ensures isLeader && !SkipTranslation(setup, ingress) && !WellFormed(ingress) ==>
          action == Requeue(30) && log == old(log)
      ensures isLeader && !SkipTranslation(setup, ingress) && WellFormed(ingress) ==>
          var calls := Planned(setup, ingress, ingress.namespace.value, ingress.spec.value.defaultBackend, ingress.spec.value.rules.value);
          && log == old(log) + ApplyUntilFailure(calls, accepts)
          && (action == Requeue(10) <==> AllAccepted(calls, accepts))
          && (action == Requeue(30) <==> !AllAccepted(calls, accepts))
    {
      var r := Reconcile(ingress);
      if r.Ok? {
        action := r.value;
      } else {
        action := OnError(ingress, r.error);
      }
    }

    /** One iteration of `lease_renew`: an acquired-or-renewed lease sets the flag to
        whether the lease is held; a failed attempt leaves it as it was. */
    method LeaseRenewStep(outcome: Result<bool, string>)
      modifies this
      ensures isLeader == (if outcome.Ok? then outcome.value else old(isLeader))
      ensures log == old(log)
    {
      match outcome
      case Ok(acquiredLease) => isLeader := acquiredLease;
      case Err(_) =>
    }
  }
}
