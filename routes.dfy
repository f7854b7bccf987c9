/** Route translation (src/main.rs): the matcher variants of a host, the service-port lookup,
    and the HTTPRoute / TCPRoute objects built for one Ingress host. */
module Routes {
  import opened Wrappers
  import opened Text
  import opened ValueFilters
  import opened Owners

  /** The annotation that asks for one HTTPRoute per rule. */
  const SPLIT_ROUTES: string := "i2g-gateway/split_routes"
  /** API group and kind of `gateways::Gateway`, the parent of every route. */
  const GATEWAY_GROUP: string := "gateway.networking.k8s.io"
  const GATEWAY_KIND: string := "Gateway"

  // ------------------------------------------------------------ Ingress side

  datatype ServiceBackendPort = ServiceBackendPort(name: Option<string>, number: Option<int>)
  datatype IngressServiceBackend = IngressServiceBackend(name: string, port: Option<ServiceBackendPort>)
  datatype IngressBackend = IngressBackend(service: Option<IngressServiceBackend>)
  /** `HTTPIngressPath`: the optional path, its `pathType` string and its backend. */
  datatype HttpIngressPath = HttpIngressPath(path: Option<string>, pathType: string, backend: IngressBackend)

  /** The named ports of the cluster's services, keyed by (namespace, service, port name).
      A missing key stands for a failed fetch, a missing service, or a service without
      that port: `get_svc_port_number` treats all three alike. */
  type ServicePorts = map<(string, string, string), int>

  /** `get_svc_port_number`: a numeric port is used as is, without any lookup; a named port
      is looked up in the service; a port with neither gives nothing. */
  function GetSvcPortNumber(ports: ServicePorts, namespace: string, service: string, port: ServiceBackendPort): (r: Option<int>)
    ensures port.number.Some? ==> r == port.number
    ensures port.number.None? && port.name.None? ==> r.None?
    ensures port.number.None? && port.name.Some? ==>
      r == if (namespace, service, port.name.value) in ports then Some(ports[(namespace, service, port.name.value)]) else None
  {
    if port.number.Some? then port.number
    else if port.name.None? then None
    else
      var key := (namespace, service, port.name.value);
      if key in ports then Some(ports[key]) else None
  }

  // ------------------------------------------------------------ Gateway side

  /** `HTTPRouteRulesMatchesPathType`, the two values the translation produces. */
  datatype PathMatchType = Exact | PathPrefix

  datatype PathMatch = PathMatch(matchType: Option<PathMatchType>, value: Option<string>)
  /** `HTTPRouteRulesMatches` (its `method` is always unset). */
  datatype RouteMatch = RouteMatch(headers: Option<seq<HeaderMatch>>, queryParams: Option<seq<QueryParamMatch>>, path: Option<PathMatch>)
  /** A backend reference: service name and port (kind, group, namespace, weight unset). */
  datatype BackendRef = BackendRef(name: string, port: Option<int>)
  datatype HttpRule = HttpRule(backendRefs: seq<BackendRef>, matches: seq<RouteMatch>)
  datatype ParentRef = ParentRef(group: Option<string>, kind: Option<string>, name: string, namespace: Option<string>, sectionName: Option<string>)
  datatype HttpRoute = HttpRoute(
    name: string,
    hostnames: seq<string>,
    parentRefs: seq<ParentRef>,
    rules: seq<HttpRule>,
    ownerReferences: Option<seq<OwnerReference>>)
  datatype TcpRule = TcpRule(backendRefs: seq<BackendRef>)
  datatype TcpRoute = TcpRoute(
    name: string,
    parentRefs: seq<ParentRef>,
    rules: seq<TcpRule>,
    ownerReferences: Option<seq<OwnerReference>>)

  /** `RouteInputInfo`: what one Ingress host contributes to its routes. */
  datatype RouteInfo = RouteInfo(
    ingressName: string,
    ingressNamespace: string,
    annotations: Option<Annotations>,
    gwName: string,
    gwNamespace: string,
    sectionName: Option<string>,
    hostname: string,
    headerMatchers: Option<seq<MatchRule>>,
    queryMatchers: Option<seq<MatchRule>>)

  /** The single parent reference of every generated route. */
  function ParentRefFor(info: RouteInfo): ParentRef {
    ParentRef(Some(GATEWAY_GROUP), Some(GATEWAY_KIND), info.gwName, Some(info.gwNamespace), info.sectionName)
  }

  // ------------------------------------------------------ create_match_rulesets

  /** One matcher variant: an optional header list and an optional query list. */
  type Ruleset = (Option<seq<MatchRule>>, Option<seq<MatchRule>>)

  /** `EitherQueryOrHeaderMatcher`. */
  datatype TaggedRule = Header(rule: MatchRule) | Query(rule: MatchRule)

  function TagHeaders(rules: seq<MatchRule>): seq<TaggedRule> {
    seq(|rules|, i requires 0 <= i < |rules| => Header(rules[i]))
  }

  function TagQueries(rules: seq<MatchRule>): seq<TaggedRule> {
    seq(|rules|, i requires 0 <= i < |rules| => Query(rules[i]))
  }

  /** `From<EitherQueryOrHeaderMatcher> for MatchRule`, over a list. */
  function Untag(items: seq<TaggedRule>): seq<MatchRule> {
    seq(|items|, i requires 0 <= i < |items| => items[i].rule)
  }

  /** The header rules among `items`, in order. */
  function HeadersIn(items: seq<TaggedRule>): seq<MatchRule> {
    if items == [] then []
    else
      var last := items[|items| - 1];
      HeadersIn(items[..|items| - 1]) + if last.Header? then [last.rule] else []
  }

  /** The query rules among `items`, in order. */
  function QueriesIn(items: seq<TaggedRule>): seq<MatchRule> {
    if items == [] then []
    else
      var last := items[|items| - 1];
      QueriesIn(items[..|items| - 1]) + if last.Query? then [last.rule] else []
  }

  lemma {:induction false} SplitTagged(h: seq<MatchRule>, q: seq<MatchRule>)
    ensures HeadersIn(TagHeaders(h) + TagQueries(q)) == h
    ensures QueriesIn(TagHeaders(h) + TagQueries(q)) == q
    decreases |h| + |q|
  {
    var items := TagHeaders(h) + TagQueries(q);
    if q != [] {
      var q' := q[..|q| - 1];
      assert items[..|items| - 1] == TagHeaders(h) + TagQueries(q');
      assert items[|items| - 1] == Query(q[|q| - 1]);
      SplitTagged(h, q');
      assert q == q' + [q[|q| - 1]];
    } else if h != [] {
      var h' := h[..|h| - 1];
      assert TagQueries(q) == [] && TagQueries(q) == TagQueries([]);
      assert items == TagHeaders(h) && items[..|items| - 1] == TagHeaders(h') + TagQueries(q);
      assert items[|items| - 1] == Header(h[|h| - 1]);
      SplitTagged(h', q);
      assert h == h' + [h[|h| - 1]];
    } else {
      assert items == [];
    }
  }

  /** The callback `create_match_rulesets` hands to the product of the two tagged lists:
      it flattens the pair, sorts the rules into a header list and a query list, and
      leaves a side unset when its list is empty. */
  method CombineVariant(product: seq<seq<TaggedRule>>) returns (ruleset: Ruleset)
    ensures var items := Flat(product);
      && ruleset.0 == (if HeadersIn(items) == [] then None else Some(HeadersIn(items)))
      && ruleset.1 == (if QueriesIn(items) == [] then None else Some(QueriesIn(items)))
  {
    var items := Flat(product);
    var headersList, queryList := [], [];
    for i := 0 to |items|
      invariant headersList == HeadersIn(items[..i]) && queryList == QueriesIn(items[..i])
    {
      assert items[..i + 1][..i] == items[..i];
      match items[i]
      case Header(rule) => headersList := headersList + [rule];
      case Query(rule) => queryList := queryList + [rule];
    }
    assert items[..|items|] == items;
    var queryRuleset: Option<seq<MatchRule>> := None;
    var headerRuleset: Option<seq<MatchRule>> := None;
    if queryList != [] {
      queryRuleset := Some(queryList);
    }
    if headersList != [] {
      headerRuleset := Some(headersList);
    }
    ruleset := (headerRuleset, queryRuleset);
  }

  /** The concatenation of a list of lists (`flatten`). */
  function Flat(lists: seq<seq<TaggedRule>>): seq<TaggedRule> {
    if lists == [] then [] else Flat(lists[..|lists| - 1]) + lists[|lists| - 1]
  }

  /** A header combination and a query combination, both non-empty, give the variant that
      sets both lists. */
  lemma CombineBoth(h: seq<MatchRule>, q: seq<MatchRule>)
    requires h != [] && q != []
    ensures var items := Flat([TagHeaders(h), TagQueries(q)]);
      HeadersIn(items) == h && QueriesIn(items) == q
  {
    var pair := [TagHeaders(h), TagQueries(q)];
    assert pair[..1] == [TagHeaders(h)] && pair[..1][..0] == [];
    assert Flat(pair[..1]) == TagHeaders(h);
    assert Flat(pair) == TagHeaders(h) + TagQueries(q);
    SplitTagged(h, q);
  }

  /** The combinations of an optional matcher list: none when the list is absent. */
  function Products(matchers: Option<seq<MatchRule>>): seq<seq<MatchRule>> {
    if matchers.Some? then CartesianProductOf(matchers.value) else []
  }

  /** Every combination holds at least one rule. */
  lemma ProductsNonEmpty(matchers: Option<seq<MatchRule>>, p: seq<MatchRule>)
    requires p in Products(matchers)
    ensures p != []
  {
    var rules := matchers.value;
    CartesianProductSound(rules, p);
    CartesianProductEmpty(rules);
    assert rules[0] in rules;
  }

  /** The header combination `h` with each query combination. */
  function Row(h: seq<MatchRule>, qs: seq<seq<MatchRule>>): seq<Ruleset> {
    seq(|qs|, j requires 0 <= j < |qs| => (Some(h), Some(qs[j])))
  }

  /** Every header combination with every query combination, headers varying slowest. */
  function Pairs(hs: seq<seq<MatchRule>>, qs: seq<seq<MatchRule>>): seq<Ruleset> {
    if hs == [] then [] else Pairs(hs[..|hs| - 1], qs) + Row(hs[|hs| - 1], qs)
  }

  /** The result of `create_match_rulesets`. */
  function MatchRulesets(headers: Option<seq<MatchRule>>, queries: Option<seq<MatchRule>>): seq<Ruleset> {
    var hc, qc := Products(headers), Products(queries);
    if hc == [] && qc == [] then [(None, None)]
    else if hc == [] then seq(|qc|, i requires 0 <= i < |qc| => (None, Some(qc[i])))
    else if qc == [] then seq(|hc|, i requires 0 <= i < |hc| => (Some(hc[i]), None))
    else Pairs(hc, qc)
  }

  /** `create_match_rulesets`: the header and query combinations, paired when both exist.
      The final `res.is_empty()` test cannot succeed once both lists are non-empty and is
      not modelled. */
  method CreateMatchRulesets(headers: Option<seq<MatchRule>>, queries: Option<seq<MatchRule>>) returns (res: seq<Ruleset>)
    ensures res == MatchRulesets(headers, queries)
  {
    ghost var hc, qc := Products(headers), Products(queries);
    var headersCart: seq<seq<TaggedRule>> := [];
    if headers.Some? {
      var product := CartesianProduct(headers.value);
      headersCart := seq(|product|, i requires 0 <= i < |product| => TagHeaders(product[i]));
    }
    var queryCart: seq<seq<TaggedRule>> := [];
    if queries.Some? {
      var product := CartesianProduct(queries.value);
      queryCart := seq(|product|, i requires 0 <= i < |product| => TagQueries(product[i]));
    }
    assert |headersCart| == |hc| && |queryCart| == |qc|;
    if headersCart == [] && queryCart == [] {
      return [(None, None)];
    }
    if headersCart == [] {
      res := [];
      for i := 0 to |queryCart|
        invariant res == seq(i, k requires 0 <= k < i => (None, Some(qc[k])))
      {
        assert Untag(queryCart[i]) == qc[i];
        res := res + [(None, Some(Untag(queryCart[i])))];
      }
      return;
    }
    if queryCart == [] {
      res := [];
      for i := 0 to |headersCart|
        invariant res == seq(i, k requires 0 <= k < i => (Some(hc[k]), None))
      {
        assert Untag(headersCart[i]) == hc[i];
        res := res + [(Some(Untag(headersCart[i])), None)];
      }
      return;
    }
    forall k | 0 <= k < |hc| ensures hc[k] != [] {
      ProductsNonEmpty(headers, hc[k]);
    }
    forall k | 0 <= k < |qc| ensures qc[k] != [] {
      ProductsNonEmpty(queries, qc[k]);
    }
    res := ForEachPair(headersCart, queryCart, hc, qc);
  }

  /** `permutator::cartesian_product` over the two tagged lists with the callback
      `CombineVariant`: every header combination with every query combination, the
      header side varying slowest. */
  method ForEachPair(headersCart: seq<seq<TaggedRule>>, queryCart: seq<seq<TaggedRule>>, ghost hc: seq<seq<MatchRule>>, ghost qc: seq<seq<MatchRule>>)
    returns (res: seq<Ruleset>)
    requires |headersCart| == |hc| && forall i :: 0 <= i < |hc| ==> headersCart[i] == TagHeaders(hc[i]) && hc[i] != []
    requires |queryCart| == |qc| && forall j :: 0 <= j < |qc| ==> queryCart[j] == TagQueries(qc[j]) && qc[j] != []
    ensures res == Pairs(hc, qc)
  {
    res := [];
    for i := 0 to |headersCart|
      invariant res == Pairs(hc[..i], qc)
    {
      for j := 0 to |queryCart|
        invariant res == Pairs(hc[..i], qc) + Row(hc[i], qc[..j])
      {
        CombineBoth(hc[i], qc[j]);
        var ruleset := CombineVariant([headersCart[i], queryCart[j]]);
        assert Row(hc[i], qc[..j + 1]) == Row(hc[i], qc[..j]) + [(Some(hc[i]), Some(qc[j]))];
        res := res + [ruleset];
      }
      assert qc[..|qc|] == qc;
      assert hc[..i + 1][..i] == hc[..i];
    }
    assert hc[..|hc|] == hc;
  }

  lemma {:induction false} PairsCount(hs: seq<seq<MatchRule>>, qs: seq<seq<MatchRule>>)
    ensures |Pairs(hs, qs)| == |hs| * |qs|
    decreases |hs|
  {
    if hs != [] {
      PairsCount(hs[..|hs| - 1], qs);
      assert |hs| * |qs| == (|hs| - 1) * |qs| + |qs|;
    }
  }

  lemma {:induction false} PairsMembers(hs: seq<seq<MatchRule>>, qs: seq<seq<MatchRule>>, x: Ruleset)
    ensures x in Pairs(hs, qs) <==> x.0.Some? && x.1.Some? && x.0.value in hs && x.1.value in qs
    decreases |hs|
  {
    if hs != [] {
      var init, last := hs[..|hs| - 1], hs[|hs| - 1];
      PairsMembers(init, qs, x);
      assert hs == init + [last];
      if x in Row(last, qs) {
        var j :| 0 <= j < |qs| && Row(last, qs)[j] == x;
      }
      if x.0 == Some(last) && x.1.Some? && x.1.value in qs {
        var j :| 0 <= j < |qs| && qs[j] == x.1.value;
        assert Row(last, qs)[j] == x;
      }
    }
  }

  /** A matcher list yields no combination exactly when it is absent or empty. */
  lemma ProductsEmpty(matchers: Option<seq<MatchRule>>)
    ensures Products(matchers) == [] <==> matchers.None? || matchers.value == []
  {
    if matchers.Some? {
      CartesianProductEmpty(matchers.value);
    }
  }

  /** There is always at least one matcher variant. */
  lemma MatchRulesetsNonEmpty(headers: Option<seq<MatchRule>>, queries: Option<seq<MatchRule>>)
    ensures |MatchRulesets(headers, queries)| > 0
  {
    var hc, qc := Products(headers), Products(queries);
    if hc != [] && qc != [] {
      PairsCount(hc, qc);
      assert |hc| * |qc| >= |qc|;
    }
  }

  /** The single unrestricted variant
      `(None, None)` comes exactly when there are no header and no query rules. */
  lemma MatchRulesetsNoRules(headers: Option<seq<MatchRule>>, queries: Option<seq<MatchRule>>)
    ensures MatchRulesets(headers, queries) == [(None, None)]
        <==> (headers.None? || headers.value == []) && (queries.None? || queries.value == [])
  {
    ProductsEmpty(headers);
    ProductsEmpty(queries);
    var hc, qc := Products(headers), Products(queries);
    var r := MatchRulesets(headers, queries);
    MatchRulesetsNonEmpty(headers, queries);
    if hc != [] && qc != [] {
      PairsMembers(hc, qc, r[0]);
      assert r[0] in r;
    } else if hc != [] || qc != [] {
      assert r[0].0.Some? || r[0].1.Some?;
    }
  }

  /** With rules on one side only: one variant per combination of that side, in order, the
      other side unset. */
  lemma MatchRulesetsOneSide(headers: Option<seq<MatchRule>>, queries: Option<seq<MatchRule>>)
    ensures (headers.None? || headers.value == []) && queries.Some? && queries.value != [] ==>
      var qc := CartesianProductOf(queries.value);
      && |MatchRulesets(headers, queries)| == |qc|
      && forall i :: 0 <= i < |qc| ==> MatchRulesets(headers, queries)[i] == (None, Some(qc[i]))
    ensures (queries.None? || queries.value == []) && headers.Some? && headers.value != [] ==>
      var hc := CartesianProductOf(headers.value);
      && |MatchRulesets(headers, queries)| == |hc|
      && forall i :: 0 <= i < |hc| ==> MatchRulesets(headers, queries)[i] == (Some(hc[i]), None)
  {
    ProductsEmpty(headers);
    ProductsEmpty(queries);
  }

  /** With rules on both sides: |header combinations| x |query combinations| variants, each
      setting both lists, and every pair of combinations appears. */
  lemma MatchRulesetsBothSides(headers: seq<MatchRule>, queries: seq<MatchRule>, x: Ruleset)
    requires headers != [] && queries != []
    ensures |MatchRulesets(Some(headers), Some(queries))|
         == |CartesianProductOf(headers)| * |CartesianProductOf(queries)|
    ensures x in MatchRulesets(Some(headers), Some(queries)) <==>
      x.0.Some? && x.1.Some? && x.0.value in CartesianProductOf(headers) && x.1.value in CartesianProductOf(queries)
  {
    ProductsEmpty(Some(headers));
    ProductsEmpty(Some(queries));
    PairsCount(CartesianProductOf(headers), CartesianProductOf(queries));
    PairsMembers(CartesianProductOf(headers), CartesianProductOf(queries), x);
  }

  // ------------------------------------------------------- create_http_routes

  /** The closed path-type map; any other `pathType` is an error. */
  function PathMatchTypeOf(pathType: string): (r: Option<PathMatchType>)
    ensures r.Some? <==> pathType == "Prefix" || pathType == "Exact" || pathType == "ImplementationSpecific"
    ensures r == Some(Exact) <==> pathType == "Exact"
  {
    if pathType == "Prefix" then Some(PathPrefix)
    else if pathType == "Exact" then Some(Exact)
    else if pathType == "ImplementationSpecific" then Some(PathPrefix)
    else None
  }

  /** The backend service name and resolved port of a path, when it has both. */
  function BackendOf(ports: ServicePorts, namespace: string, path: HttpIngressPath): Option<(string, int)> {
    match path.backend.service
    case None => None
    case Some(svc) =>
      match svc.port
      case None => None
      case Some(port) =>
        match GetSvcPortNumber(ports, namespace, svc.name, port)
        case None => None
        case Some(number) => Some((svc.name, number))
  }

  /** The rule a usable path contributes for one matcher variant. */
  function RuleFor(service: string, port: int, matchType: PathMatchType, path: Option<string>, ruleset: Ruleset): HttpRule {
    var headers := if ruleset.0.Some? then Some(HeaderMatchesOf(ruleset.0.value)) else None;
    var queries := if ruleset.1.Some? then Some(QueryParamMatchesOf(ruleset.1.value)) else None;
    HttpRule([BackendRef(service, Some(port))], [RouteMatch(headers, queries, Some(PathMatch(Some(matchType), path)))])
  }

  datatype PathOutcome = Skipped | UnknownPathType(pathType: string) | Produced(rules: seq<HttpRule>)

  /** One path of the loop: skipped without a service, a port or a resolvable port number;
      an error for an unknown path type; otherwise one rule per matcher variant. */
  function PathOutcomeOf(ports: ServicePorts, namespace: string, path: HttpIngressPath, rulesets: seq<Ruleset>): PathOutcome {
    match BackendOf(ports, namespace, path)
    case None => Skipped
    case Some((service, port)) =>
      match PathMatchTypeOf(path.pathType)
      case None => UnknownPathType(path.pathType)
      case Some(t) => Produced(seq(|rulesets|, k requires 0 <= k < |rulesets| => RuleFor(service, port, t, path.path, rulesets[k])))
  }

  /** The rules collected over `paths`, or the error of the first unknown path type. */
  function HttpRulesOf(ports: ServicePorts, namespace: string, paths: seq<HttpIngressPath>, rulesets: seq<Ruleset>): Result<seq<HttpRule>, string> {
    if paths == [] then Ok([])
    else
      match HttpRulesOf(ports, namespace, paths[..|paths| - 1], rulesets)
      case Err(e) => Err(e)
      case Ok(rules) =>
        match PathOutcomeOf(ports, namespace, paths[|paths| - 1], rulesets)
        case Skipped => Ok(rules)
        case UnknownPathType(t) => Err("Unknown path type: " + t)
        case Produced(more) => Ok(rules + more)
  }

  /** `split_routes`: the annotation is present and lowercases to `true`. */
  function SplitRoutesFlag(annotations: Option<Annotations>): bool {
    annotations.Some? && Lookup(annotations.value, SPLIT_ROUTES).Some? && IsTrueValue(Lookup(annotations.value, SPLIT_ROUTES).value)
  }

  /** The path a rule matches, or `root` when it has none. */
  function RuleLabel(rule: HttpRule): string {
    if |rule.matches| > 0 && rule.matches[0].path.Some? && rule.matches[0].path.value.value.Some?
    then rule.matches[0].path.value.value.value
    else "root"
  }

  function SplitRouteName(info: RouteInfo, sanitize: string -> string, rule: HttpRule): string {
    info.ingressName + "-" + sanitize(info.hostname) + "-" + sanitize(RuleLabel(rule))
  }

  function SingleRouteName(info: RouteInfo, sanitize: string -> string): string {
    info.ingressName + "-" + sanitize(info.hostname) + "-http"
  }

  /** The routes built from the collected rules: one per rule when `split` is set, named
      after the rule's path, else a single `-http` route holding every rule. */
  function RoutesOf(info: RouteInfo, split: bool, rules: seq<HttpRule>, sanitize: string -> string): seq<HttpRoute> {
    if split then
      seq(|rules|, i requires 0 <= i < |rules| =>
        HttpRoute(SplitRouteName(info, sanitize, rules[i]), [info.hostname], [ParentRefFor(info)], [rules[i]], None))
    else
      [HttpRoute(SingleRouteName(info, sanitize), [info.hostname], [ParentRefFor(info)], rules, None)]
  }

  /** The result of `create_http_routes`. */
  function HttpRoutesOf(info: RouteInfo, paths: seq<HttpIngressPath>, ports: ServicePorts, sanitize: string -> string): Result<seq<HttpRoute>, string> {
    var rulesets := MatchRulesets(info.headerMatchers, info.queryMatchers);
    match HttpRulesOf(ports, info.ingressNamespace, paths, rulesets)
    case Err(e) => Err(e)
    case Ok(rules) =>
      if rules == [] then Err("No valid paths found")
      else Ok(RoutesOf(info, SplitRoutesFlag(info.annotations), rules, sanitize))
  }

  /** `create_http_routes`: collect one rule per (usable path, matcher variant), then build
      one route per rule when `split_routes` is set, else a single route with all rules.
      `sanitize` is `utils::sanitize_hostname`. */
  method CreateHttpRoutes(info: RouteInfo, paths: seq<HttpIngressPath>, ports: ServicePorts, sanitize: string -> string)
    returns (result: Result<seq<HttpRoute>, string>)
    ensures result == HttpRoutesOf(info, paths, ports, sanitize)
  {
    var splitRoutes := SplitRoutesFlag(info.annotations);
    var matchRuleset := CreateMatchRulesets(info.headerMatchers, info.queryMatchers);
    var rules: seq<HttpRule> := [];
    for p := 0 to |paths|
      invariant HttpRulesOf(ports, info.ingressNamespace, paths[..p], matchRuleset) == Ok(rules)
    {
      var outcome := PathRules(ports, info.ingressNamespace, paths[p], matchRuleset);
      HttpRulesStep(ports, info.ingressNamespace, paths, p, matchRuleset);
      match outcome
      case Skipped =>
      case UnknownPathType(pathType) =>
        HttpRulesOfErrSticky(ports, info.ingressNamespace, paths, p + 1, matchRuleset);
        return Err("Unknown path type: " + pathType);
      case Produced(more) =>
        rules := rules + more;
    }
    assert paths[..|paths|] == paths;
    if rules == [] {
      return Err("No valid paths found");
    }
    if splitRoutes {
      return Ok(seq(|rules|, i requires 0 <= i < |rules| =>
        HttpRoute(SplitRouteName(info, sanitize, rules[i]), [info.hostname], [ParentRefFor(info)], [rules[i]], None)));
    }
    return Ok([HttpRoute(SingleRouteName(info, sanitize), [info.hostname], [ParentRefFor(info)], rules, None)]);
  }

  /** One iteration of the paths loop of `create_http_routes`: skip a path without service,
      port or resolvable port number, fail on an unknown path type, else build one rule per
      matcher variant. */
  method PathRules(ports: ServicePorts, namespace: string, path: HttpIngressPath, rulesets: seq<Ruleset>)
    returns (outcome: PathOutcome)
    ensures outcome == PathOutcomeOf(ports, namespace, path, rulesets)
  {
    if path.backend.service.None? {
      return Skipped;
    }
    var svc := path.backend.service.value;
    if svc.port.None? {
      return Skipped;
    }
    var svcPortNumber := GetSvcPortNumber(ports, namespace, svc.name, svc.port.value);
    if svcPortNumber.None? {
      return Skipped;
    }
    var matchType := PathMatchTypeOf(path.pathType);
    if matchType.None? {
      return UnknownPathType(path.pathType);
    }
    var rules: seq<HttpRule> := [];
    for k := 0 to |rulesets|
      invariant rules == seq(k, i requires 0 <= i < k => RuleFor(svc.name, svcPortNumber.value, matchType.value, path.path, rulesets[i]))
    {
      rules := rules + [RuleFor(svc.name, svcPortNumber.value, matchType.value, path.path, rulesets[k])];
    }
    return Produced(rules);
  }

  /** One more path extends the collected rules by that path's outcome. */
  lemma HttpRulesStep(ports: ServicePorts, namespace: string, paths: seq<HttpIngressPath>, p: nat, rulesets: seq<Ruleset>)
    requires p < |paths| && HttpRulesOf(ports, namespace, paths[..p], rulesets).Ok?
    ensures var rules := HttpRulesOf(ports, namespace, paths[..p], rulesets).value;
      HttpRulesOf(ports, namespace, paths[..p + 1], rulesets) ==
        match PathOutcomeOf(ports, namespace, paths[p], rulesets)
        case Skipped => Ok(rules)
        case UnknownPathType(t) => Err("Unknown path type: " + t)
        case Produced(more) => Ok(rules + more)
  {
    assert paths[..p + 1][..p] == paths[..p];
  }

  /** Once a path has failed, the paths after it do not matter. */
  lemma {:induction false} HttpRulesOfErrSticky(ports: ServicePorts, namespace: string, paths: seq<HttpIngressPath>, n: nat, rulesets: seq<Ruleset>)
    requires n <= |paths|
    requires HttpRulesOf(ports, namespace, paths[..n], rulesets).Err?
    ensures HttpRulesOf(ports, namespace, paths, rulesets) == HttpRulesOf(ports, namespace, paths[..n], rulesets)
    decreases |paths| - n
  {
    if n < |paths| {
      assert paths[..n + 1][..n] == paths[..n];
      HttpRulesOfErrSticky(ports, namespace, paths, n + 1, rulesets);
    } else {
      assert paths[..n] == paths;
    }
  }

  /** A path is usable when it has a service, a port and a resolvable port number. */
  predicate Usable(ports: ServicePorts, namespace: string, path: HttpIngressPath) {
    BackendOf(ports, namespace, path).Some?
  }

  function UsableCount(ports: ServicePorts, namespace: string, paths: seq<HttpIngressPath>): nat {
    if paths == [] then 0
    else UsableCount(ports, namespace, paths[..|paths| - 1]) + if Usable(ports, namespace, paths[|paths| - 1]) then 1 else 0
  }

  /** A usable path whose path type is not one of the three known ones. */
  predicate BadPath(ports: ServicePorts, namespace: string, path: HttpIngressPath) {
    Usable(ports, namespace, path) && PathMatchTypeOf(path.pathType).None?
  }

  predicate AnyBadPath(ports: ServicePorts, namespace: string, paths: seq<HttpIngressPath>) {
    paths != [] && (AnyBadPath(ports, namespace, paths[..|paths| - 1]) || BadPath(ports, namespace, paths[|paths| - 1]))
  }

  lemma {:induction false} AnyBadPathExists(ports: ServicePorts, namespace: string, paths: seq<HttpIngressPath>)
    ensures AnyBadPath(ports, namespace, paths) <==> exists i :: 0 <= i < |paths| && BadPath(ports, namespace, paths[i])
    decreases |paths|
  {
    if paths != [] {
      var init := paths[..|paths| - 1];
      AnyBadPathExists(ports, namespace, init);
      if exists i :: 0 <= i < |paths| && BadPath(ports, namespace, paths[i]) {
        var i :| 0 <= i < |paths| && BadPath(ports, namespace, paths[i]);
        if i < |init| {
          assert init[i] == paths[i];
        }
      }
      if exists i :: 0 <= i < |init| && BadPath(ports, namespace, init[i]) {
        var i :| 0 <= i < |init| && BadPath(ports, namespace, init[i]);
        assert paths[i] == init[i];
      }
    }
  }

  /** Collecting fails exactly when a usable path has an unknown path type (unusable paths
      are skipped before their type is read); otherwise each usable path contributes one
      rule per matcher variant. */
  lemma {:induction false} HttpRulesOutcome(ports: ServicePorts, namespace: string, paths: seq<HttpIngressPath>, rulesets: seq<Ruleset>)
    ensures HttpRulesOf(ports, namespace, paths, rulesets).Err? <==> AnyBadPath(ports, namespace, paths)
    ensures HttpRulesOf(ports, namespace, paths, rulesets).Ok? ==>
      |HttpRulesOf(ports, namespace, paths, rulesets).value| == |rulesets| * UsableCount(ports, namespace, paths)
    decreases |paths|
  {
    if paths != [] {
      var init := paths[..|paths| - 1];
      HttpRulesOutcome(ports, namespace, init, rulesets);
      if HttpRulesOf(ports, namespace, paths, rulesets).Ok? {
        MulSucc(|rulesets|, UsableCount(ports, namespace, init));
      }
    }
  }

  /** Every rule of every route, in route order. */
  function AllRules(routes: seq<HttpRoute>): seq<HttpRule> {
    if routes == [] then [] else AllRules(routes[..|routes| - 1]) + routes[|routes| - 1].rules
  }

  lemma {:induction false} AllRulesOfSingletons(routes: seq<HttpRoute>, rules: seq<HttpRule>)
    requires |routes| == |rules| && forall i :: 0 <= i < |routes| ==> routes[i].rules == [rules[i]]
    ensures AllRules(routes) == rules
    decreases |routes|
  {
    if routes != [] {
      AllRulesOfSingletons(routes[..|routes| - 1], rules[..|rules| - 1]);
      assert rules == rules[..|rules| - 1] + [rules[|rules| - 1]];
    }
  }

  /** The routes hold every collected rule in order, all for the host and under the one
      gateway parent: one route per rule, named after the rule's path, when split, else a
      single `-http` route. */
  lemma RoutesOfShape(info: RouteInfo, split: bool, rules: seq<HttpRule>, sanitize: string -> string)
    ensures var routes := RoutesOf(info, split, rules, sanitize);
      && AllRules(routes) == rules
      && (forall i :: 0 <= i < |routes| ==> routes[i].hostnames == [info.hostname] && routes[i].parentRefs == [ParentRefFor(info)])
      && (split ==> |routes| == |rules| && forall i :: 0 <= i < |routes| ==>
            routes[i].rules == [rules[i]] && routes[i].name == SplitRouteName(info, sanitize, rules[i]))
      && (!split ==> |routes| == 1 && routes[0].name == SingleRouteName(info, sanitize))
  {
    var routes := RoutesOf(info, split, rules, sanitize);
    if split {
      AllRulesOfSingletons(routes, rules);
    } else {
      assert routes[..0] == [];
    }
  }

  /** `create_http_routes` fails exactly when a usable path has an unknown type or no path
      is usable; on success it returns the routes built from the collected rules. */
  lemma HttpRoutesOutcome(info: RouteInfo, paths: seq<HttpIngressPath>, ports: ServicePorts, sanitize: string -> string)
    ensures HttpRoutesOf(info, paths, ports, sanitize).Err? <==>
        AnyBadPath(ports, info.ingressNamespace, paths) || UsableCount(ports, info.ingressNamespace, paths) == 0
    ensures HttpRoutesOf(info, paths, ports, sanitize).Ok? ==>
      var rulesets := MatchRulesets(info.headerMatchers, info.queryMatchers);
      var rules := HttpRulesOf(ports, info.ingressNamespace, paths, rulesets).value;
      && |rules| == |rulesets| * UsableCount(ports, info.ingressNamespace, paths)
      && HttpRoutesOf(info, paths, ports, sanitize).value == RoutesOf(info, SplitRoutesFlag(info.annotations), rules, sanitize)
  {
    var rulesets := MatchRulesets(info.headerMatchers, info.queryMatchers);
    MatchRulesetsNonEmpty(info.headerMatchers, info.queryMatchers);
    HttpRulesOutcome(ports, info.ingressNamespace, paths, rulesets);
    var collected := HttpRulesOf(ports, info.ingressNamespace, paths, rulesets);
    if collected.Ok? {
      var n := UsableCount(ports, info.ingressNamespace, paths);
      ProductZero(|rulesets|, n);
    }
  }

  lemma MulSucc(m: nat, n: nat)
    ensures m * (n + 1) == m * n + m
  {
  }

  lemma ProductZero(m: nat, n: nat)
    requires m > 0
    ensures m * n == 0 <==> n == 0
  {
  }

  /** A split route is named after the path of its rule, or `root` without one. */
  lemma RuleLabelOfPath(service: string, port: int, t: PathMatchType, path: Option<string>, ruleset: Ruleset)
    ensures RuleLabel(RuleFor(service, port, t, path, ruleset)) == path.GetOr("root")
  {
  }

  /** With `split_routes`, every matcher variant of one path yields a route of the same name,
      so those routes are applied to a single object, each patch replacing the previous one. */
  lemma SplitNamesOfOnePath(info: RouteInfo, sanitize: string -> string, ports: ServicePorts, path: HttpIngressPath, rulesets: seq<Ruleset>, i: nat, j: nat)
    requires PathOutcomeOf(ports, info.ingressNamespace, path, rulesets).Produced?
    requires i < |rulesets| && j < |rulesets|
    ensures var rules := PathOutcomeOf(ports, info.ingressNamespace, path, rulesets).rules;
      && |rules| == |rulesets|
      && SplitRouteName(info, sanitize, rules[i]) == SplitRouteName(info, sanitize, rules[j])
      && SplitRouteName(info, sanitize, rules[i]) == info.ingressName + "-" + sanitize(info.hostname) + "-" + sanitize(path.path.GetOr("root"))
  {
    var (service, port) := BackendOf(ports, info.ingressNamespace, path).value;
    var t := PathMatchTypeOf(path.pathType).value;
    RuleLabelOfPath(service, port, t, path.path, rulesets[i]);
    RuleLabelOfPath(service, port, t, path.path, rulesets[j]);
  }

  // -------------------------------------------------------- create_tcp_routes

  /** `create_tcp_routes`: one `-tcp` route with one rule holding one backend, or an error
      when the service has no port or the port does not resolve. */
  function CreateTcpRoute(info: RouteInfo, svc: IngressServiceBackend, ports: ServicePorts, sanitize: string -> string)
    : (r: Result<TcpRoute, string>)
    ensures r.Err? <==> svc.port.None? || GetSvcPortNumber(ports, info.ingressNamespace, svc.name, svc.port.value).None?
    ensures r.Ok? ==>
      && r.value.name == info.ingressName + "-" + sanitize(info.hostname) + "-tcp"
      && r.value.parentRefs == [ParentRefFor(info)]
      && |r.value.rules| == 1
      && r.value.rules[0].backendRefs == [BackendRef(svc.name, GetSvcPortNumber(ports, info.ingressNamespace, svc.name, svc.port.value))]
      && r.value.ownerReferences.None?
  {
    var safeHostname := sanitize(info.hostname);
    if svc.port.None? then Err("Backend doesn't have port")
    else
      match GetSvcPortNumber(ports, info.ingressNamespace, svc.name, svc.port.value)
      case None => Err("Couldn't resolve port for a service " + svc.name)
      case Some(number) =>
        Ok(TcpRoute(info.ingressName + "-" + safeHostname + "-tcp", [ParentRefFor(info)],
          [TcpRule([BackendRef(svc.name, Some(number))])], None))
  }
}
