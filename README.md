# i2g-operator in Dafny

This project models the core of **i2g-operator**, a Kubernetes controller that translates
`networking.k8s.io/v1` Ingress objects into Gateway-API `HTTPRoute` and `TCPRoute` objects.

It models three source files:

- **Match rules** (`src/value_filters.rs`, module `ValueFilters`).
  - An annotation value `key=value` or `key~=value` parses into a `MatchRule`.
  - `from_annotations` collects the rules under an annotation prefix. Each rule is weighted by
    the last `/` segment of its key, read as an `i32`, and the rules are sorted stably by weight.
  - `make_groups` buckets the rules by key.
  - `catesian_product` picks one rule per key in every possible way.
  - The `From` impls turn rules into header and query-parameter match entries.
- **Route translation** (`src/main.rs`, module `Routes`).
  - `create_match_rulesets` pairs header and query combinations into matcher variants.
  - `get_svc_port_number` resolves a backend port.
  - `create_http_routes` builds one rule per usable path and matcher variant. It then builds
    either one route per rule (`split_routes`) or a single route.
  - `create_tcp_routes` builds a TCP route.
- **The reconcile loop** (`src/main.rs`, module `Reconciler`).
  - The `Operator` class holds the leadership flag that `lease_renew` updates. It also holds the
    log of patch calls the operator issues to the API server.
  - `reconcile` checks, in order:
    - leadership;
    - the translate annotation;
    - that the Ingress has a spec, rules and a namespace.

    It then patches the routes of every host, in order, and stops at the first rejected patch.
  - `on_error` decides the requeue after an error.
- **Owner references** (`src/utils.rs`, module `Owners`). `add_owner` appends an owner reference
  to an object's metadata unless one with the same uid is already there.

Supporting modules:

- `Wrappers`: `Option` and `Result`.
- `Text`: the string functions of Rust's standard library that the code relies on: `starts_with`,
  `split_once`, `split('/').last()`, `str::parse::<i32>` and `to_lowercase` compared with
  `"true"`.

How the cluster is modelled:

- The cluster is a map from (namespace, service, port name) to port number.
- A patch oracle `accepts` says which server-side applies the API server takes.
- The `Reconciler` specification functions (`Planned`, `HostPatches`, `ApplyUntilFailure`) state
  which patches a reconcile issues. The `Operator` methods are proved to issue exactly those.

## Model

| member | source | states |
|---|---|---|
| ValueFilters.FromStr | src/value_filters.rs:146-162 | Fails exactly when the text has no `=`. Otherwise the key is the text before the first `=`, with one trailing `~` removed, which marks a regular expression. Rendering the result gives back the input text. |
| ValueFilters.FromStrRender | src/value_filters.rs:146-162 | Round trip: every rule whose key has no `=` (and, for an exact match, does not end in `~`) parses back from its rendering `key=value` / `key~=value`. |
| ValueFilters.WeightOfNumberedKey | src/value_filters.rs:61 | An annotation key ending in `/<n>`, with `n` an `i32`, has weight `n`. |
| Text.ParseI32 | src/value_filters.rs:56-61 | The weight parse `value.parse()` into an `i32`: every accepted value lies in the `i32` range. |
| Text.ParseI32Sound | src/value_filters.rs:56-61 | Only a sign (none, `+` or `-`) followed by at least one ASCII digit parses. The value is the digits' value, negated after `-`. |
| Text.ParseI32Complete | src/value_filters.rs:56-61 | Every sign followed by digits, leading zeros included (`+5`, `007`), parses to its value when that value fits in an `i32`, and fails otherwise. |
| Text.ParseShowInt | src/value_filters.rs:56-61 | Round trip: every `i32` written in decimal parses back to itself. |
| Text.LastSegment | src/value_filters.rs:61 | `split("/").last()`: the suffix after the last `/` (the whole string when there is none). The result holds no `/` and is a suffix of the input. |
| Text.LastSegmentAfterSlash | src/value_filters.rs:61 | Whatever follows the final `/` is the last segment. |
| Text.IndexOf | src/value_filters.rs:147 | The `split_once('=')` point: absent exactly when the character does not occur; otherwise it is the first occurrence. |
| ValueFilters.EntryKeeps | src/value_filters.rs:59-71 | One annotation contributes a weighted rule iff it has the prefix, carries that weight and its value parses to that rule. |
| ValueFilters.CollectMembers | src/value_filters.rs:57-72 | A weighted rule is collected iff some annotation has the prefix, carries that weight and holds a value that parses to that rule. Annotations without a weight, and values that fail to parse, are dropped. |
| ValueFilters.SortByWeightSorted | src/value_filters.rs:73 | The sort by weight yields non-decreasing weights and is a permutation of its input. |
| ValueFilters.SortByWeightStable | src/value_filters.rs:73 | `sort_by` is stable: entries of equal weight keep their collection order. |
| ValueFilters.InsertSorted | src/value_filters.rs:73 | Inserting into a weight-sorted list keeps it sorted. |
| ValueFilters.InsertMultiset | src/value_filters.rs:73 | Inserting adds exactly the one entry. |
| ValueFilters.InsertWithWeight | src/value_filters.rs:73 | An inserted entry goes ahead of every entry of its own weight. |
| ValueFilters.FromAnnotations | src/value_filters.rs:55-75 | `from_annotations` returns the collected rules sorted by weight (`Matchers`), one per kept annotation. |
| ValueFilters.FromAnnotationsDropsInvalid | src/value_filters.rs:195-202 | In the repository's (commented) example, an unparsable `invalid` value is dropped and `env=dev` is kept. |
| ValueFilters.Lookup | src/main.rs:426 | `BTreeMap::get`: absent iff no entry has the key, else the value of an entry with that key. |
| ValueFilters.KeysOf | src/value_filters.rs:78-85 | The keys that `make_groups` opens buckets for: distinct, and covering the key of every rule. |
| ValueFilters.KeysOfSound | src/value_filters.rs:78-85 | Every bucket key is the key of some rule. |
| ValueFilters.WithKeyMembers | src/value_filters.rs:80-83 | A bucket holds exactly the rules that have its key. |
| ValueFilters.WithoutKeyMembers | src/value_filters.rs:80-83 | The rules left outside a bucket are exactly those with another key. |
| ValueFilters.BucketsOfKeys | src/value_filters.rs:78-84 | After all insertions, the map has a bucket exactly for each seen key, holding that key's rules in input order. |
| ValueFilters.InsertStep | src/value_filters.rs:80-83 | One `entry().or_insert_with().push()`: opens the key's bucket if it is new, then appends the rule. |
| ValueFilters.BucketsInKeyOrder | src/value_filters.rs:85 | The map's values, listed by key, are the groups. |
| ValueFilters.MakeGroups | src/value_filters.rs:77-86 | `make_groups` returns the groups: one per distinct key, each holding that key's rules in input order. |
| ValueFilters.GroupsIsGrouping | src/value_filters.rs:77-86 | The groups partition the rules by key: each group is non-empty and single-keyed, no two groups share a key, and every key has a group. |
| ValueFilters.GroupingIsPermutation | src/value_filters.rs:77-86 | Concatenating any such grouping gives a permutation of the rules, so nothing is lost or duplicated. |
| ValueFilters.SplitByKey | src/value_filters.rs:80-83 | A rule list is the multiset union of one key's rules and the rest. |
| ValueFilters.WithKeyOfRest | src/value_filters.rs:80-83 | Removing one key's rules does not change another key's bucket. |
| ValueFilters.GroupCount | src/value_filters.rs:77-86 | There are as many groups as distinct keys. |
| ValueFilters.CartesianProduct | src/value_filters.rs:88-105 | `catesian_product` returns nothing when there is no group, and otherwise the product of the groups (`CartesianProductOf`). |
| ValueFilters.CrossCount | src/value_filters.rs:94-103 | One product step yields one list per (entry, tail) pair. |
| ValueFilters.CrossMembers | src/value_filters.rs:94-103 | One product step yields exactly the lists whose head is from the group and whose tail is from the rest. |
| ValueFilters.PrependMembers | src/value_filters.rs:94-103 | Prefixing a rule to every list yields exactly the lists that start with it. |
| ValueFilters.ProductCount | src/value_filters.rs:94-103 | The product has one list per combination: the product of the group sizes. |
| ValueFilters.ProductMembers | src/value_filters.rs:94-103 | A list is in the product iff it picks one entry from each group, in group order. |
| ValueFilters.ChoiceIsOnePerKey | src/value_filters.rs:88-105 | A choice of one entry per group picks exactly one rule for each distinct key. |
| ValueFilters.CartesianProductEmpty | src/value_filters.rs:89-92 | The result is empty iff there are no rules. |
| ValueFilters.CartesianProductCount | src/value_filters.rs:88-105 | With rules, the number of combinations is the product of the group sizes. |
| ValueFilters.CartesianProductSound | src/value_filters.rs:88-105 | Every combination picks one rule from each group, hence exactly one rule per distinct key. |
| ValueFilters.CartesianProductComplete | src/value_filters.rs:88-105 | Every choice of one rule per group appears among the combinations. |
| ValueFilters.CartesianProductCompleteAnyOrder | src/value_filters.rs:77-105 | Whatever order the groups come in, every pick of one rule for each distinct key appears among the combinations up to the order of its rules. |
| ValueFilters.HeaderMatchTypeOf | src/value_filters.rs:19-26 | `Equal` maps to `Exact` and nothing else does; a regular expression stays a regular expression. |
| ValueFilters.QueryMatchTypeOf | src/value_filters.rs:28-35 | The same map for query parameters. |
| ValueFilters.HeadersFrom | src/value_filters.rs:108-122 | One header entry per rule, in order. Each entry carries the rule's key, value and converted type, so the rule can be read back unchanged. |
| ValueFilters.QueryParamsFrom | src/value_filters.rs:124-138 | One query-parameter entry per rule, in order, from which the rule can be read back unchanged. |
| Routes.GetSvcPortNumber | src/main.rs:54-84 | A numeric port is returned as is, with no lookup. A named port is looked up in the service, and a missing service or port gives nothing. A port with neither gives nothing. |
| Routes.CreateMatchRulesets | src/main.rs:101-199 | `create_match_rulesets` returns `MatchRulesets`. There are four cases: no combinations on either side; headers only; queries only; both sides. |
| Routes.ForEachPair | src/main.rs:161-194 | The product of the two tagged lists, through the callback: every header combination with every query combination, the header side varying slowest. |
| Routes.CombineVariant | src/main.rs:170-192 | The callback splits a combined product into its header rules and its query rules, in order. An empty side becomes `None`. |
| Routes.SplitTagged | src/main.rs:170-192 | Tagging headers and queries and splitting them again gives back both lists. |
| Routes.CombineBoth | src/main.rs:161-194 | A pair of non-empty combinations yields the variant that sets both lists to exactly those combinations. |
| Routes.ProductsNonEmpty | src/main.rs:117-131 | Every header or query combination holds at least one rule. |
| Routes.ProductsEmpty | src/main.rs:117-131 | A side has no combinations iff its matchers are absent or empty. |
| Routes.PairsCount | src/main.rs:161-194 | Pairing gives \|header combinations\| x \|query combinations\| variants. |
| Routes.PairsMembers | src/main.rs:161-194 | A variant is among the pairs iff both of its sides are set and come from the two combination lists. |
| Routes.MatchRulesetsNonEmpty | src/main.rs:101-199 | There is always at least one matcher variant, so every usable path yields a rule. |
| Routes.MatchRulesetsNoRules | src/main.rs:133-135 | The single unrestricted variant `(None, None)` comes iff neither side has rules. |
| Routes.MatchRulesetsOneSide | src/main.rs:136-159 | With rules on one side only, there is one variant per combination of that side, in order, and the other side is unset. |
| Routes.MatchRulesetsBothSides | src/main.rs:161-194 | With rules on both sides, there are \|header combinations\| x \|query combinations\| variants. Each sets both sides, and every pair appears. |
| Routes.PathMatchTypeOf | src/main.rs:245-254 | `Prefix` and `ImplementationSpecific` map to a path prefix and `Exact` to exact. Any other path type is an error. |
| Routes.CreateHttpRoutes | src/main.rs:201-349 | `create_http_routes` returns `HttpRoutesOf`. |
| Routes.PathRules | src/main.rs:223-283 | One iteration of the paths loop. A path without a service, a port or a resolvable port number is skipped; an unknown path type is an error; otherwise there is one rule per matcher variant, in variant order (`PathOutcomeOf`). |
| Routes.HttpRulesStep | src/main.rs:223-283 | One iteration of the paths loop: skip the path, fail on an unknown type, or append one rule per variant. |
| Routes.HttpRulesOfErrSticky | src/main.rs:245-254 | The first unknown path type ends the function. Later paths do not matter. |
| Routes.AnyBadPathExists | src/main.rs:223-254 | A failing path exists iff some path has a resolvable backend and an unknown path type. |
| Routes.HttpRulesOutcome | src/main.rs:223-283 | Collecting fails iff a usable path has an unknown type. Paths without a service, a port or a resolvable port are skipped before their type is read. Otherwise there are \|variants\| x \|usable paths\| rules. |
| Routes.RoutesOfShape | src/main.rs:289-348 | The routes hold every collected rule in order, each with the host as hostname and the one gateway parent. With `split_routes` there is one route per rule, named `<ingress>-<host>-<path or root>`. Without it there is one route named `<ingress>-<host>-http`. |
| Routes.HttpRoutesOutcome | src/main.rs:201-349 | `create_http_routes` fails iff a usable path has an unknown type or no path is usable (`No valid paths found`). On success there are \|variants\| x \|usable paths\| rules, shaped as in `RoutesOfShape`. |
| Routes.AllRulesOfSingletons | src/main.rs:289-326 | Split routes that hold one rule each together hold the rules in order. |
| Routes.RuleLabelOfPath | src/main.rs:289-326 | A split route is named after its rule's path, or `root` when the path is unset. |
| Routes.SplitNamesOfOnePath | src/main.rs:255-326 | With `split_routes`, every matcher variant of one path yields a route named `<ingress>-<host>-<path or root>`. Several header or query variants of one path therefore share one route name, and their patches land on the same object. |
| Routes.CreateTcpRoute | src/main.rs:351-410 | Fails iff the service has no port or the port does not resolve. Otherwise it yields one route named `<ingress>-<host>-tcp`, under the gateway parent, with one rule whose one backend is the service at the resolved port. |
| Owners.WithOwner | src/utils.rs:17-33 | The new reference list holds the owner's uid. It is unchanged if the uid was already present, else the reference is appended at the end. A list with unique uids stays unique. |
| Owners.WithOwnerIdempotent | src/utils.rs:27-31 | Adding the same owner twice is the same as adding it once. |
| Owners.ObjectMeta.AddOwner | src/utils.rs:11-34 | `add_owner`: the field becomes `Some` of the updated list, with no field counting as an empty list. The owner's uid is then present, and an already-present uid leaves the list as it was. |
| Owners.AddOwnerTwice | src/utils.rs:11-34 | Calling `add_owner` twice with the same owner leaves the same state as calling it once. |
| Reconciler.OnError | src/main.rs:569-572 | Every error is requeued after 30 seconds. |
| Reconciler.ApplyUntilFailurePrefix | src/main.rs:509-523 | Patching with `?` issues a prefix of the planned calls. All of them are issued when all are accepted; otherwise the last issued call is the only rejected one. |
| Reconciler.ApplyAccepted | src/main.rs:509-523 | Accepted calls are issued and the pass continues. |
| Reconciler.ApplyStops | src/main.rs:509-523 | A rejection cuts off everything planned after it. |
| Reconciler.ApplyRejectedAt | src/main.rs:509-523 | The first rejected call, at position `i`, ends the pass with calls `0..i` issued. |
| Reconciler.ApplyRejectedInside | src/main.rs:486-564 | A rejection inside one host's patches ends the whole reconcile there. |
| Reconciler.AllAcceptedAppend | src/main.rs:486-564 | Two runs of patches are all accepted iff each run is. |
| Reconciler.FlatMapAppend | src/main.rs:486-564 | The plan of two rule lists is the concatenation of their plans. |
| Reconciler.FlatMapSplit | src/main.rs:486-564 | The plan splits at any rule into the earlier rules, that rule's patches and the later rules. |
| Reconciler.FlatMapSkip | src/main.rs:486-564 | A rule that yields nothing leaves the plan unchanged. |
| Reconciler.SkippedRule | src/main.rs:487-490 | A rule that yields no patch does not affect the rules around it. This covers a rule with no host, routes that fail to build, and a skipped non-HTTP rule (lines 505-508, 526-546). |
| Reconciler.PlannedCalls | src/main.rs:509-523 | Every patch is a server-side apply, by field manager `ingress-to-gateway-controller`, into the Ingress's namespace, of the object the call names. With linking on (lines 510-512, 548-550), the object lists the Ingress's uid among its owners. |
| Reconciler.PlannedParents | src/main.rs:448-467 | Every route's one parent is the gateway named by the annotations, else the operator's default gateway, in the annotated section. |
| Reconciler.Operator.constructor | src/main.rs:605-612 | The operator's context starts with an empty write log, the given flags and the given leadership flag. |
| Reconciler.Operator.Patch | src/main.rs:513-523 | `Api::patch`: the call is logged, and it succeeds iff the API server accepts it. |
| Reconciler.Operator.LinkOwner | src/main.rs:510-512 | With `link_to_ingress`, the route gets the Ingress as owner through `add_owner`; otherwise it is left alone. |
| Reconciler.Operator.PatchHttpRoutes | src/main.rs:509-524 | Links and patches each HTTP route in order. The log grows by exactly the issued calls, and a rejected route is reported iff some patch was rejected. |
| Reconciler.Operator.ReconcileHost | src/main.rs:487-563 | One rule: the log grows by exactly the issued patches of `HostPatches`, and the result is a rejection iff some patch was rejected. |
| Reconciler.Operator.ReconcileRules | src/main.rs:486-566 | The host loop: the log grows by the planned patches up to and including the first rejection. The result is a 10 s requeue iff all patches are accepted, else a Kubernetes error. |
| Reconciler.Operator.Reconcile | src/main.rs:412-567 | Each guard exits without writing anything: a non-leader requeues after 20 s, a skipped translation after 60 s, and a missing spec, rules or namespace gives a validation error. Otherwise every planned patch is issued in order up to the first rejection, which fails the reconcile with a Kubernetes error; a clean pass requeues after 10 s. The leadership flag is unchanged. |
| Reconciler.Operator.ReconcileAndRequeue | src/main.rs:614-618 | What the controller does with one reconcile, with `on_error` applied to its errors. A non-leader requeues after 20 s and a skipped Ingress after 60 s. A missing spec, rules or namespace requeues after 30 s. None of these writes anything. Otherwise the log grows by the planned patches up to the first rejection; the requeue is 10 s iff all patches are accepted and 30 s iff one is rejected. |
| Reconciler.Operator.LeaseRenewStep | src/main.rs:585-596 | A successful acquire-or-renew sets the leadership flag to whether the lease is held. A failed attempt leaves the flag as it was. Nothing is patched. |

## Left out

- Fetching the `Service` in `get_svc_port_number` (src/main.rs:65-83) is an API call. It becomes the `ServicePorts` map. A failed fetch, a missing service and a missing port all map to an absent key, which the source treats alike.
- `Api::patch` is an API call. It becomes the `accepts` oracle plus the `log` of issued calls. What the API server does with an accepted apply is not modelled.
- The controller wiring and `main` (src/main.rs:600-630) are left out: client creation, argument parsing, logging setup and the watch stream. `ReconcileAndRequeue` stands for how the controller combines `reconcile` and `on_error`.
- `lease_renew` (src/main.rs:574-599) runs in an endless loop that sleeps 5 s between attempts, using a lease lock held for 15 s. Only one iteration is modelled (`LeaseRenewStep`), with the outcome of `try_acquire_or_renew` as a parameter.
- The `AtomicBool` shared between the lease task and reconciles is a plain field. Concurrency between the two tasks is not modelled.
- `make_groups` returns `HashMap::into_values()`, whose order is unspecified. `Groups` fixes one order, first-seen key order, and `permutator::cartesian_product` is modelled as the usual product with the first group varying slowest. Some properties hold only for that fixed order:
  - the order of the rules inside a combination and the order of the combinations;
  - `ValueFilters.ProductMembers`;
  - the `IsChoice` half of `ValueFilters.CartesianProductSound`;
  - `ValueFilters.CartesianProductComplete`;
  - the "in order" of `Routes.MatchRulesetsOneSide`.

  These hold for any order of the groups: `ValueFilters.GroupsIsGrouping`, `ValueFilters.GroupingIsPermutation`, `ValueFilters.GroupCount`, `ValueFilters.CartesianProductEmpty`, `ValueFilters.CartesianProductCount`, the `OnePerKey` half of `ValueFilters.CartesianProductSound`, and `ValueFilters.CartesianProductCompleteAnyOrder`, which finds any one-rule-per-key pick among the combinations up to the order of its rules.
- `utils::sanitize_hostname` is not part of this model. It is the `sanitize` parameter.
- The annotation-name constants (`TRANSLATE_INGRESS`, `GATEWAY_NAME` and the others) are used by src/main.rs but not defined in src/consts.rs. They are the `AnnotationKeys` record.
- `ctx.is_leader` and `ctx.hostname` are used but not declared in src/ctx.rs. The initial leadership flag is a constructor parameter. The lease holder id is left out together with the lease lock.
- The `I2GArgs` parsing (args.rs) is not modelled. The flags are the `Args` record.
- `to_lowercase` is applied only to ASCII letters. The comparison with `"true"` comes out the same: the only non-ASCII characters that lowercase to ASCII letters are the Kelvin sign, which lowercases to `k`, and `İ`, which lowercases to `i` plus a combining dot, and neither can produce `true`.
- `tracing` logging is not modelled.
- The final `res.is_empty()` branch of `create_match_rulesets` (src/main.rs:195-197) is not modelled. It cannot be reached once both sides have combinations, and every combination is non-empty.
- Optional fields that the translation always sets or never sets are not modelled, for example the Gateway-API objects' `Option`-wrapped `kind`, `namespace` and `weight` of backend references, and the route `method`.
- The fields of `RouteInputInfo` and `Ingress` that the core does not read are not modelled.
- `Reconciler.Operator.Reconcile`: requires a uid when `link_to_ingress` is set. The source unwraps the uid only when a route is actually linked, so an Ingress without uid panics there rather than being refused up front.
- `Reconciler.Operator.ReconcileAndRequeue`, `Reconciler.Operator.ReconcileRules`, `Reconciler.Operator.ReconcileHost`, `Reconciler.Operator.PatchHttpRoutes` and `Reconciler.Operator.LinkOwner` share that requirement.
- `Owners.ObjectMeta.AddOwner`: requires the owner to have a uid. The source calls `unwrap` on it (src/utils.rs:23) and panics when it is missing.
- `Reconciler.Operator.ReconcileRules`, `Reconciler.Operator.ReconcileHost`, `Reconciler.Operator.PatchHttpRoutes`, `Routes.PathRules`, `Routes.ForEachPair` and `Routes.CombineVariant` are helpers. They mirror, respectively, the host loop and one iteration of it, the HTTP-route patch loop, one iteration of the paths loop of `create_http_routes`, the call to `permutator::cartesian_product` and its callback. They are not separate functions in the source.
- `ValueFilters.FromAnnotations`: requires keys in ascending order, which is the order a `BTreeMap` iterates.
