/** Match rules declared in annotations (src/value_filters.rs): parsing `key=value` /
    `key~=value`, collecting weighted rules from annotations, grouping by key, the
    cartesian product across keys, and the conversion to Gateway-API match entries. */
module ValueFilters {
  import opened Wrappers
  import opened Text

  // ------------------------------------------------------------ annotations

  /** An annotation map, as its entries in the order a `BTreeMap` iterates them. */
  type Annotations = seq<(string, string)>

  /** Keys strictly ascending, hence distinct: what `BTreeMap` guarantees. */
  predicate IsAnnotationMap(ann: Annotations) {
    forall i, j :: 0 <= i < j < |ann| ==> StrLess(ann[i].0, ann[j].0)
  }

  /** `BTreeMap::get`. */
  function Lookup(ann: Annotations, key: string): (r: Option<string>)
    ensures r.None? <==> forall i :: 0 <= i < |ann| ==> ann[i].0 != key
    ensures r.Some? ==> exists i :: 0 <= i < |ann| && ann[i] == (key, r.value)
  {
    if ann == [] then None
    else if ann[0].0 == key then Some(ann[0].1)
    else
      var r := Lookup(ann[1..], key);
      assert forall i :: 1 <= i < |ann| ==> ann[i] == ann[1..][i - 1];
      r
  }

  // ------------------------------------------------------------ match rules

  datatype MatchType = Equal | RegularExpression

  datatype MatchRule = MatchRule(key: string, value: string, matchType: MatchType)

  /** The annotation text a rule is written as: `key=value` or `key~=value`. */
  function Render(rule: MatchRule): string {
    rule.key + (if rule.matchType == RegularExpression then "~=" else "=") + rule.value
  }

  /** `MatchRule::from_str`: split at the first `=`; a key ending in `~` marks a
      regular expression and loses that one `~`. */
  function FromStr(rule: string): (r: Result<MatchRule, string>)
    ensures r.Err? <==> '=' !in rule
    ensures r.Ok? ==> Render(r.value) == rule && '=' !in r.value.key
    ensures r.Ok? && r.value.matchType == Equal ==> !EndsWith(r.value.key, '~')
  {
    match IndexOf(rule, '=')
    case None => Err("Invalid rule found '" + rule + "'")
    case Some(i) =>
      var key, value := rule[..i], rule[i + 1..];
      assert rule == key + "=" + value;
      assert forall j :: 0 <= j < |key| ==> key[j] == rule[j];
      if EndsWith(key, '~') then
        var base := key[..|key| - 1];
        assert key == base + "~";
        assert rule == base + "~=" + value;
        Ok(MatchRule(base, value, RegularExpression))
      else
        Ok(MatchRule(key, value, Equal))
  }

  /** Every rule the grammar can express is read back from its annotation text. */
  lemma FromStrRender(rule: MatchRule)
    requires '=' !in rule.key
    requires rule.matchType == Equal ==> !EndsWith(rule.key, '~')
    ensures FromStr(Render(rule)) == Ok(rule)
  {
    var key := if rule.matchType == RegularExpression then rule.key + "~" else rule.key;
    assert Render(rule) == key + "=" + rule.value;
    FirstEquals(key, rule.value);
    if rule.matchType == RegularExpression {
      assert EndsWith(key, '~') && key[..|key| - 1] == rule.key;
    }
  }

  /** In `key=value` with no `=` in `key`, `split_once('=')` splits right after `key`. */
  lemma FirstEquals(key: string, value: string)
    requires '=' !in key
    ensures var s := key + "=" + value;
      IndexOf(s, '=') == Some(|key|) && s[..|key|] == key && s[|key| + 1..] == value
  {
    var s := key + "=" + value;
    assert s[|key|] == '=';
    assert forall j :: 0 <= j < |key| ==> s[j] == key[j];
  }

  // ------------------------------------------------------- from_annotations

  /** The weight of an annotation: the last `/`-separated segment of its key, as an `i32`. */
  function Weight(name: string): Option<int> {
    ParseI32(LastSegment(name))
  }

  /** A key ending in `/<n>` carries weight `n`. */
  lemma WeightOfNumberedKey(base: string, n: int)
    requires I32_MIN <= n <= I32_MAX
    ensures Weight(base + "/" + ShowInt(n)) == Some(n)
  {
    ParseShowInt(n);
    ShowIntNoSlash(n);
    LastSegmentAfterSlash(base, ShowInt(n));
  }

  type Weighted = (int, MatchRule)

  /** What one annotation contributes to `from_annotations`: nothing, or its weighted rule. */
  function Entry(name: string, value: string, prefix: string): seq<Weighted> {
    if !StartsWith(name, prefix) then []
    else match Weight(name)
      case None => []
      case Some(w) =>
        match FromStr(value)
        case Err(_) => []
        case Ok(rule) => [(w, rule)]
  }

  /** The weighted rules collected from `ann`, in iteration order, before sorting. */
  function Collect(ann: Annotations, prefix: string): seq<Weighted> {
    if ann == [] then []
    else Collect(ann[..|ann| - 1], prefix) + Entry(ann[|ann| - 1].0, ann[|ann| - 1].1, prefix)
  }

  /** An annotation yields `x` when its key has the prefix and a weight, and its value parses. */
  predicate Keeps(entry: (string, string), prefix: string, x: Weighted) {
    StartsWith(entry.0, prefix) && Weight(entry.0) == Some(x.0) && FromStr(entry.1) == Ok(x.1)
  }

  /** Exactly the annotations that `Keeps` accepts contribute, each with its own weight and rule. */
  lemma {:induction false} CollectMembers(ann: Annotations, prefix: string, x: Weighted)
    ensures x in Collect(ann, prefix) <==> exists i :: 0 <= i < |ann| && Keeps(ann[i], prefix, x)
    decreases |ann|
  {
    if ann != [] {
      var init, last := ann[..|ann| - 1], ann[|ann| - 1];
      CollectMembers(init, prefix, x);
      assert Collect(ann, prefix) == Collect(init, prefix) + Entry(last.0, last.1, prefix);
      EntryKeeps(last, prefix, x);
      if x in Collect(ann, prefix) {
        if x !in Collect(init, prefix) {
          assert Keeps(ann[|ann| - 1], prefix, x);
        } else {
          var i :| 0 <= i < |init| && Keeps(init[i], prefix, x);
          assert ann[i] == init[i];
        }
      }
      if exists i :: 0 <= i < |ann| && Keeps(ann[i], prefix, x) {
        var i :| 0 <= i < |ann| && Keeps(ann[i], prefix, x);
        if i < |ann| - 1 {
          assert Keeps(init[i], prefix, x);
        }
      }
    }
  }

  /** One annotation contributes `x` exactly when it keeps `x`. */
  lemma EntryKeeps(entry: (string, string), prefix: string, x: Weighted)
    ensures x in Entry(entry.0, entry.1, prefix) <==> Keeps(entry, prefix, x)
  {
  }

  // -------------------------------------------------- stable sort by weight

  function InsertByWeight(x: Weighted, s: seq<Weighted>): seq<Weighted> {
    if s == [] || x.0 <= s[0].0 then [x] + s
    else [s[0]] + InsertByWeight(x, s[1..])
  }

  /** `sort_by` comparing weights, a stable sort (here, insertion sort). */
  function SortByWeight(s: seq<Weighted>): seq<Weighted> {
    if s == [] then [] else InsertByWeight(s[0], SortByWeight(s[1..]))
  }

  predicate SortedByWeight(s: seq<Weighted>) {
    forall i, j :: 0 <= i < j < |s| ==> s[i].0 <= s[j].0
  }

  /** The entries of weight `w`, in order. */
  function WithWeight(s: seq<Weighted>, w: int): seq<Weighted> {
    if s == [] then [] else (if s[0].0 == w then [s[0]] else []) + WithWeight(s[1..], w)
  }

  lemma {:induction false} InsertMultiset(x: Weighted, s: seq<Weighted>)
    ensures multiset(InsertByWeight(x, s)) == multiset(s) + multiset{x}
    decreases |s|
  {
    assert s == [] || s == [s[0]] + s[1..];
    if s != [] && x.0 > s[0].0 {
      InsertMultiset(x, s[1..]);
      assert InsertByWeight(x, s) == [s[0]] + InsertByWeight(x, s[1..]);
    }
  }

  lemma {:induction false} InsertSorted(x: Weighted, s: seq<Weighted>)
    requires SortedByWeight(s)
    ensures SortedByWeight(InsertByWeight(x, s))
    decreases |s|
  {
    if s != [] && x.0 > s[0].0 {
      var rest := s[1..];
      var t := InsertByWeight(x, rest);
      InsertSorted(x, rest);
      InsertLowerBound(x, rest, s[0].0);
      var r := InsertByWeight(x, s);
      assert r == [s[0]] + t;
      forall i, j | 0 <= i < j < |r|
        ensures r[i].0 <= r[j].0
      {
        assert r[j] == t[j - 1];
        if i > 0 {
          assert r[i] == t[i - 1];
        }
      }
    }
  }

  /** Inserting an entry of weight at least `b` into entries of weight at least `b` keeps
      every weight at least `b`. */
  lemma {:induction false} InsertLowerBound(x: Weighted, s: seq<Weighted>, b: int)
    requires x.0 >= b && forall i :: 0 <= i < |s| ==> s[i].0 >= b
    ensures forall i :: 0 <= i < |InsertByWeight(x, s)| ==> InsertByWeight(x, s)[i].0 >= b
    decreases |s|
  {
    if s != [] && x.0 > s[0].0 {
      InsertLowerBound(x, s[1..], b);
      assert InsertByWeight(x, s) == [s[0]] + InsertByWeight(x, s[1..]);
    }
  }

  /** Inserting `x` puts it ahead of every entry of its own weight. */
  lemma {:induction false} InsertWithWeight(x: Weighted, s: seq<Weighted>, w: int)
    ensures WithWeight(InsertByWeight(x, s), w) == (if x.0 == w then [x] else []) + WithWeight(s, w)
    decreases |s|
  {
    var r := InsertByWeight(x, s);
    if s == [] || x.0 <= s[0].0 {
      assert r == [x] + s;
      assert r[1..] == s;
    } else {
      var t := InsertByWeight(x, s[1..]);
      InsertWithWeight(x, s[1..], w);
      assert r == [s[0]] + t;
      assert r[1..] == t;
      var head: seq<Weighted> := if s[0].0 == w then [s[0]] else [];
      var mine: seq<Weighted> := if x.0 == w then [x] else [];
      assert WithWeight(r, w) == head + WithWeight(t, w);
      assert WithWeight(s, w) == head + WithWeight(s[1..], w);
      assert head == [] || mine == [];
    }
  }

  /** The sort orders by non-decreasing weight and is a permutation. */
  lemma {:induction false} SortByWeightSorted(s: seq<Weighted>)
    ensures SortedByWeight(SortByWeight(s))
    ensures multiset(SortByWeight(s)) == multiset(s)
    decreases |s|
  {
    if s != [] {
      SortByWeightSorted(s[1..]);
      InsertSorted(s[0], SortByWeight(s[1..]));
      InsertMultiset(s[0], SortByWeight(s[1..]));
      assert s == [s[0]] + s[1..];
    }
  }

  /** The sort is stable: entries of equal weight keep their input order. */
  lemma {:induction false} SortByWeightStable(s: seq<Weighted>, w: int)
    ensures WithWeight(SortByWeight(s), w) == WithWeight(s, w)
    decreases |s|
  {
    if s != [] {
      SortByWeightStable(s[1..], w);
      InsertWithWeight(s[0], SortByWeight(s[1..]), w);
    }
  }

  function RulesOf(ws: seq<Weighted>): (r: seq<MatchRule>)
    ensures |r| == |ws| && forall i :: 0 <= i < |ws| ==> r[i] == ws[i].1
  {
    seq(|ws|, i requires 0 <= i < |ws| => ws[i].1)
  }

  /** The matcher list `MatcherList::from_annotations` returns. */
  function Matchers(ann: Annotations, prefix: string): seq<MatchRule> {
    RulesOf(SortByWeight(Collect(ann, prefix)))
  }

  /** `MatcherList::from_annotations`: keep the annotations under `prefix` that carry a
      weight and parse, then sort them stably by weight. */
  method FromAnnotations(annotations: Annotations, prefix: string) returns (rules: seq<MatchRule>)
    requires IsAnnotationMap(annotations)
    ensures rules == Matchers(annotations, prefix)
    ensures |rules| == |Collect(annotations, prefix)|
  {
    var weighted: seq<Weighted> := [];
    var i := 0;
    while i < |annotations|
      invariant 0 <= i <= |annotations|
      invariant weighted == Collect(annotations[..i], prefix)
    {
      var (name, value) := annotations[i];
      ghost var seen := annotations[..i + 1];
      assert seen[..i] == annotations[..i] && seen[i] == (name, value);
      assert Collect(seen, prefix) == weighted + Entry(name, value, prefix);
      if StartsWith(name, prefix) {
        var weight := Weight(name);
        if weight.Some? {
          var parsed := FromStr(value);
          if parsed.Ok? {
            weighted := weighted + [(weight.value, parsed.value)];
          }
        }
      }
      i := i + 1;
    }
    assert annotations[..i] == annotations;
    SortByWeightSorted(weighted);
    assert |SortByWeight(weighted)| == |weighted| by {
      assert |multiset(SortByWeight(weighted))| == |multiset(weighted)|;
    }
    weighted := SortByWeight(weighted);
    rules := seq(|weighted|, k requires 0 <= k < |weighted| => weighted[k].1);
  }

  /** The commented test of `from_annotations`: an unparsable value is dropped and the
      other entry is still collected. */
  lemma FromAnnotationsDropsInvalid()
    ensures Matchers([("headers/1", "env=dev"), ("headers/2", "invalid")], "headers/")
         == [MatchRule("env", "dev", Equal)]
  {
    var ann := [("headers/1", "env=dev"), ("headers/2", "invalid")];
    var rule := MatchRule("env", "dev", Equal);
    EntryOfValidRule();
    EntryOfInvalidRule();
    assert ann[..1][..0] == [] && ann[..1][0] == ann[0];
    assert Collect(ann[..1], "headers/") == [(1, rule)];
    assert ann[..|ann| - 1] == ann[..1];
    assert Collect(ann, "headers/") == [(1, rule)];
    assert SortByWeight([(1, rule)]) == [(1, rule)];
  }

  lemma EntryOfValidRule()
    ensures Entry("headers/1", "env=dev", "headers/") == [(1, MatchRule("env", "dev", Equal))]
  {
    WeightOfHeadersOne();
    ParseEnvDev();
    assert StartsWith("headers/1", "headers/");
  }

  lemma WeightOfHeadersOne()
    ensures Weight("headers/1") == Some(1)
  {
    assert ShowInt(1) == "1";
    WeightOfNumberedKey("headers", 1);
    assert "headers" + "/" + ShowInt(1) == "headers/1";
  }

  lemma ParseEnvDev()
    ensures FromStr("env=dev") == Ok(MatchRule("env", "dev", Equal))
  {
    var rule := MatchRule("env", "dev", Equal);
    FromStrRender(rule);
    assert Render(rule) == "env=dev";
  }

  lemma EntryOfInvalidRule()
    ensures Entry("headers/2", "invalid", "headers/") == []
  {
    assert '=' !in "invalid";
  }

  // --------------------------------------------------------- make_groups

  /** The distinct keys of `rules`, in the order they are first seen. */
  function KeysOf(rules: seq<MatchRule>): (keys: seq<string>)
    ensures forall i, j :: 0 <= i < j < |keys| ==> keys[i] != keys[j]
    ensures forall m :: m in rules ==> m.key in keys
  {
    if rules == [] then []
    else
      var init := rules[..|rules| - 1];
      var keys := KeysOf(init);
      var k := rules[|rules| - 1].key;
      assert rules == init + [rules[|rules| - 1]];
      if k in keys then keys else keys + [k]
  }

  /** Every listed key is the key of some rule. */
  lemma {:induction false} KeysOfSound(rules: seq<MatchRule>, k: string)
    requires k in KeysOf(rules)
    ensures exists m :: m in rules && m.key == k
    decreases |rules|
  {
    var init, x := rules[..|rules| - 1], rules[|rules| - 1];
    assert rules == init + [x];
    if k != x.key {
      KeysOfSound(init, k);
    }
  }

  /** The rules with key `key`, in input order. */
  function WithKey(rules: seq<MatchRule>, key: string): seq<MatchRule> {
    if rules == [] then []
    else
      var last := rules[|rules| - 1];
      WithKey(rules[..|rules| - 1], key) + if last.key == key then [last] else []
  }

  /** The rules with any other key, in input order. */
  function WithoutKey(rules: seq<MatchRule>, key: string): seq<MatchRule> {
    if rules == [] then []
    else
      var last := rules[|rules| - 1];
      WithoutKey(rules[..|rules| - 1], key) + if last.key != key then [last] else []
  }

  lemma {:induction false} WithKeyMembers(rules: seq<MatchRule>, key: string, m: MatchRule)
    ensures m in WithKey(rules, key) <==> m in rules && m.key == key
    decreases |rules|
  {
    if rules != [] {
      var init := rules[..|rules| - 1];
      assert rules == init + [rules[|rules| - 1]];
      WithKeyMembers(init, key, m);
    }
  }

  lemma {:induction false} WithoutKeyMembers(rules: seq<MatchRule>, key: string, m: MatchRule)
    ensures m in WithoutKey(rules, key) <==> m in rules && m.key != key
    decreases |rules|
  {
    if rules != [] {
      var init := rules[..|rules| - 1];
      assert rules == init + [rules[|rules| - 1]];
      WithoutKeyMembers(init, key, m);
    }
  }

  /** The groups `make_groups` returns. `HashMap::into_values` has no defined order; the
      model fixes one, first-seen key order. The order of the rules inside each combination,
      and the order of the combinations, follow from that choice, and so do the lemmas that
      speak of them: `ProductMembers`, the `IsChoice` half of `CartesianProductSound`,
      `CartesianProductComplete` and the "in order" of `MatchRulesetsOneSide`. The facts
      that hold for any order are `GroupsIsGrouping`, `GroupingIsPermutation`, `GroupCount`,
      `CartesianProductEmpty`, `CartesianProductCount`, the `OnePerKey` half of
      `CartesianProductSound` and `CartesianProductCompleteAnyOrder`. */
  function Groups(rules: seq<MatchRule>): seq<seq<MatchRule>> {
    var keys := KeysOf(rules);
    seq(|keys|, i requires 0 <= i < |keys| => WithKey(rules, keys[i]))
  }

  /** `groups` partitions `rules` by key: every group is non-empty and is exactly the rules
      of one key in input order, no two groups share a key, and every key has a group. */
  ghost predicate IsGrouping(rules: seq<MatchRule>, groups: seq<seq<MatchRule>>) {
    && (forall i :: 0 <= i < |groups| ==> groups[i] != [] && groups[i] == WithKey(rules, groups[i][0].key))
    && (forall i, j :: 0 <= i < j < |groups| ==> groups[i][0].key != groups[j][0].key)
    && (forall m :: m in rules ==> exists i :: 0 <= i < |groups| && groups[i][0].key == m.key)
  }

  lemma GroupsIsGrouping(rules: seq<MatchRule>)
    ensures IsGrouping(rules, Groups(rules))
  {
    var keys: seq<string> := KeysOf(rules);
    var groups: seq<seq<MatchRule>> := Groups(rules);
    forall i | 0 <= i < |groups|
      ensures groups[i] != [] && groups[i][0].key == keys[i]
    {
      KeysOfSound(rules, keys[i]);
      var m :| m in rules && m.key == keys[i];
      WithKeyMembers(rules, keys[i], m);
      WithKeyMembers(rules, keys[i], groups[i][0]);
    }
    forall m | m in rules
      ensures exists i :: 0 <= i < |groups| && groups[i][0].key == m.key
    {
      var i :| 0 <= i < |keys| && keys[i] == m.key;
      assert groups[i][0].key == m.key;
    }
  }

  function Flatten(groups: seq<seq<MatchRule>>): seq<MatchRule> {
    if groups == [] then [] else groups[0] + Flatten(groups[1..])
  }

  lemma {:induction false} SplitByKey(rules: seq<MatchRule>, key: string)
    ensures multiset(rules) == multiset(WithKey(rules, key)) + multiset(WithoutKey(rules, key))
    decreases |rules|
  {
    if rules != [] {
      var init := rules[..|rules| - 1];
      var last := rules[|rules| - 1];
      SplitByKey(init, key);
      assert rules == init + [last];
      assert WithKey(rules, key) == WithKey(init, key) + (if last.key == key then [last] else []);
      assert WithoutKey(rules, key) == WithoutKey(init, key) + (if last.key != key then [last] else []);
    }
  }

  lemma {:induction false} WithKeyOfRest(rules: seq<MatchRule>, removed: string, key: string)
    requires removed != key
    ensures WithKey(WithoutKey(rules, removed), key) == WithKey(rules, key)
    decreases |rules|
  {
    if rules != [] {
      var init := rules[..|rules| - 1];
      WithKeyOfRest(init, removed, key);
      var rest := WithoutKey(rules, removed);
      if rules[|rules| - 1].key != removed {
        assert rest[..|rest| - 1] == WithoutKey(init, removed);
      } else {
        assert rest == WithoutKey(init, removed);
      }
    }
  }

  /** The concatenated groups of any grouping are a permutation of the input. */
  lemma {:induction false} GroupingIsPermutation(rules: seq<MatchRule>, groups: seq<seq<MatchRule>>)
    requires IsGrouping(rules, groups)
    ensures multiset(Flatten(groups)) == multiset(rules)
    decreases |groups|
  {
    if rules != [] {
      assert rules[0] in rules;
    }
    if groups != [] {
      var key := groups[0][0].key;
      var rest: seq<MatchRule> := WithoutKey(rules, key);
      var tail: seq<seq<MatchRule>> := groups[1..];
      forall i | 0 <= i < |tail|
        ensures tail[i] != [] && tail[i] == WithKey(rest, tail[i][0].key)
      {
        assert tail[i] == groups[i + 1];
        WithKeyOfRest(rules, key, tail[i][0].key);
      }
      forall m | m in rest
        ensures exists i :: 0 <= i < |tail| && tail[i][0].key == m.key
      {
        WithoutKeyMembers(rules, key, m);
        var i :| 0 <= i < |groups| && groups[i][0].key == m.key;
        assert i != 0;
        assert tail[i - 1] == groups[i];
      }
      assert IsGrouping(rest, tail);
      GroupingIsPermutation(rest, tail);
      SplitByKey(rules, key);
    }
  }

  lemma {:induction false} DistinctCard(s: seq<string>)
    requires forall i, j :: 0 <= i < j < |s| ==> s[i] != s[j]
    ensures |set k | k in s| == |s|
    decreases |s|
  {
    if s != [] {
      var init := s[..|s| - 1];
      DistinctCard(init);
      assert s == init + [s[|s| - 1]];
      assert (set k | k in s) == (set k | k in init) + {s[|s| - 1]};
    }
  }

  /** There are as many groups as distinct keys. */
  lemma GroupCount(rules: seq<MatchRule>)
    ensures |Groups(rules)| == |set m | m in rules :: m.key|
  {
    var keys := KeysOf(rules);
    DistinctCard(keys);
    forall k | k in keys
      ensures k in set m | m in rules :: m.key
    {
      KeysOfSound(rules, k);
    }
    assert (set m | m in rules :: m.key) == (set k | k in keys);
  }

  lemma KeysOfSnoc(rules: seq<MatchRule>, x: MatchRule)
    ensures KeysOf(rules + [x]) == if x.key in KeysOf(rules) then KeysOf(rules) else KeysOf(rules) + [x.key]
  {
    assert (rules + [x])[..|rules|] == rules;
  }

  lemma WithKeySnoc(rules: seq<MatchRule>, x: MatchRule, key: string)
    ensures WithKey(rules + [x], key) == WithKey(rules, key) + if x.key == key then [x] else []
  {
    assert (rules + [x])[..|rules|] == rules;
  }

  lemma {:induction false} WithKeyAbsent(rules: seq<MatchRule>, key: string)
    requires key !in KeysOf(rules)
    ensures WithKey(rules, key) == []
    decreases |rules|
  {
    if rules != [] {
      var init, x := rules[..|rules| - 1], rules[|rules| - 1];
      assert rules == init + [x];
      KeysOfSnoc(init, x);
      assert key !in KeysOf(init) && x.key != key;
      WithKeyAbsent(init, key);
      WithKeySnoc(init, x, key);
    }
  }

  /** The `HashMap` after inserting `rules` one by one: each rule is pushed onto its key's
      bucket, which is opened empty the first time the key is seen. */
  ghost function BucketsOf(rules: seq<MatchRule>): map<string, seq<MatchRule>> {
    if rules == [] then map[]
    else
      var table, x := BucketsOf(rules[..|rules| - 1]), rules[|rules| - 1];
      table[x.key := (if x.key in table then table[x.key] else []) + [x]]
  }

  /** Each bucket holds exactly the rules of one seen key, in input order. */
  lemma {:induction false} BucketsOfKeys(rules: seq<MatchRule>, k: string)
    ensures k in BucketsOf(rules) <==> k in KeysOf(rules)
    ensures k in BucketsOf(rules) ==> BucketsOf(rules)[k] == WithKey(rules, k)
    decreases |rules|
  {
    if rules != [] {
      var init, x := rules[..|rules| - 1], rules[|rules| - 1];
      assert rules == init + [x];
      BucketsOfKeys(init, k);
      KeysOfSnoc(init, x);
      WithKeySnoc(init, x, k);
      if x.key == k && k !in BucketsOf(init) {
        WithKeyAbsent(init, k);
      }
    }
  }

  /** One insertion step of `make_groups`: the next rule opens its key's bucket if needed,
      then joins it. */
  lemma InsertStep(rules: seq<MatchRule>, i: nat)
    requires i < |rules|
    ensures var table, key := BucketsOf(rules[..i]), rules[i].key;
      && KeysOf(rules[..i + 1]) == (if key in table then KeysOf(rules[..i]) else KeysOf(rules[..i]) + [key])
      && BucketsOf(rules[..i + 1]) == table[key := (if key in table then table[key] else []) + [rules[i]]]
  {
    assert rules[..i + 1] == rules[..i] + [rules[i]];
    assert rules[..i + 1][..i] == rules[..i];
    KeysOfSnoc(rules[..i], rules[i]);
    BucketsOfKeys(rules[..i], rules[i].key);
  }

  /** Listing the buckets of the seen keys in first-seen order gives the groups. */
  lemma BucketsInKeyOrder(rules: seq<MatchRule>)
    ensures forall n :: 0 <= n < |KeysOf(rules)| ==> KeysOf(rules)[n] in BucketsOf(rules)
    ensures |Groups(rules)| == |KeysOf(rules)|
    ensures forall n :: 0 <= n < |KeysOf(rules)| ==> BucketsOf(rules)[KeysOf(rules)[n]] == Groups(rules)[n]
  {
    var keys := KeysOf(rules);
    forall n | 0 <= n < |keys|
      ensures keys[n] in BucketsOf(rules) && BucketsOf(rules)[keys[n]] == Groups(rules)[n]
    {
      BucketsOfKeys(rules, keys[n]);
    }
  }

  /** `MatcherList::make_groups`: bucket the rules by key. The `HashMap` is a map from key to
      bucket; `order` records the keys as they are first inserted. */
  method MakeGroups(rules: seq<MatchRule>) returns (groups: seq<seq<MatchRule>>)
    ensures groups == Groups(rules)
  {
    var table: map<string, seq<MatchRule>> := map[];
    var order: seq<string> := [];
    var i := 0;
    while i < |rules|
      invariant 0 <= i <= |rules|
      invariant order == KeysOf(rules[..i])
      invariant table == BucketsOf(rules[..i])
    {
      var rule := rules[i];
      InsertStep(rules, i);
      var entry := if rule.key in table then table[rule.key] else [];
      if rule.key !in table {
        order := order + [rule.key];
      }
      table := table[rule.key := entry + [rule]];
      i := i + 1;
    }
    assert rules[..i] == rules;
    BucketsInKeyOrder(rules);
    groups := seq(|order|, n requires 0 <= n < |order| => table[order[n]]);
  }

  // -------------------------------------------------------- cartesian product

  function Prepend(x: MatchRule, products: seq<seq<MatchRule>>): seq<seq<MatchRule>> {
    seq(|products|, i requires 0 <= i < |products| => [x] + products[i])
  }

  function Cross(group: seq<MatchRule>, products: seq<seq<MatchRule>>): seq<seq<MatchRule>> {
    if group == [] then [] else Prepend(group[0], products) + Cross(group[1..], products)
  }

  /** `permutator::cartesian_product`: every way to pick one entry of each group. */
  function Product(groups: seq<seq<MatchRule>>): seq<seq<MatchRule>> {
    if groups == [] then [[]] else Cross(groups[0], Product(groups[1..]))
  }

  function SizeProduct(groups: seq<seq<MatchRule>>): nat {
    if groups == [] then 1 else |groups[0]| * SizeProduct(groups[1..])
  }

  /** `p` picks one entry of each group, in group order. */
  predicate IsChoice(p: seq<MatchRule>, groups: seq<seq<MatchRule>>) {
    |p| == |groups| && forall i :: 0 <= i < |p| ==> p[i] in groups[i]
  }

  lemma PrependMembers(x: MatchRule, products: seq<seq<MatchRule>>, p: seq<MatchRule>)
    ensures p in Prepend(x, products) <==> |p| > 0 && p[0] == x && p[1..] in products
  {
    var pre := Prepend(x, products);
    if p in pre {
      var i :| 0 <= i < |pre| && pre[i] == p;
      assert p[1..] == products[i];
    }
    if |p| > 0 && p[0] == x && p[1..] in products {
      var i :| 0 <= i < |products| && products[i] == p[1..];
      assert pre[i] == p;
    }
  }

  lemma {:induction false} CrossCount(group: seq<MatchRule>, products: seq<seq<MatchRule>>)
    ensures |Cross(group, products)| == |group| * |products|
    decreases |group|
  {
    if group != [] {
      CrossCount(group[1..], products);
      assert |group| * |products| == |products| + |group[1..]| * |products|;
    }
  }

  lemma {:induction false} CrossMembers(group: seq<MatchRule>, products: seq<seq<MatchRule>>, p: seq<MatchRule>)
    ensures p in Cross(group, products) <==> |p| > 0 && p[0] in group && p[1..] in products
    decreases |group|
  {
    if group != [] {
      CrossMembers(group[1..], products, p);
      PrependMembers(group[0], products, p);
      assert group == [group[0]] + group[1..];
    }
  }

  /** The product has one list per combination: the product of the group sizes. */
  lemma {:induction false} ProductCount(groups: seq<seq<MatchRule>>)
    ensures |Product(groups)| == SizeProduct(groups)
    decreases |groups|
  {
    if groups != [] {
      ProductCount(groups[1..]);
      CrossCount(groups[0], Product(groups[1..]));
    }
  }

  /** The product holds exactly the choices of one entry per group. */
  lemma {:induction false} ProductMembers(groups: seq<seq<MatchRule>>, p: seq<MatchRule>)
    ensures p in Product(groups) <==> IsChoice(p, groups)
    decreases |groups|
  {
    if groups == [] {
      assert p in Product(groups) <==> p == [];
    } else {
      CrossMembers(groups[0], Product(groups[1..]), p);
      if |p| > 0 {
        ProductMembers(groups[1..], p[1..]);
        if IsChoice(p, groups) {
          assert forall i :: 0 <= i < |p| - 1 ==> p[1..][i] == p[i + 1] && groups[1..][i] == groups[i + 1];
        }
        if p[0] in groups[0] && IsChoice(p[1..], groups[1..]) {
          forall i | 0 <= i < |p|
            ensures p[i] in groups[i]
          {
            if i > 0 {
              assert p[1..][i - 1] in groups[1..][i - 1];
            }
          }
        }
      }
    }
  }

  /** `p` holds exactly one rule of `rules` for each distinct key of `rules`. */
  ghost predicate OnePerKey(p: seq<MatchRule>, rules: seq<MatchRule>) {
    && (forall i :: 0 <= i < |p| ==> p[i] in rules)
    && (forall i, j :: 0 <= i < j < |p| ==> p[i].key != p[j].key)
    && (forall m :: m in rules ==> exists i :: 0 <= i < |p| && p[i].key == m.key)
  }

  /** Picking one entry per group of a grouping picks one rule per distinct key. */
  lemma ChoiceIsOnePerKey(rules: seq<MatchRule>, groups: seq<seq<MatchRule>>, p: seq<MatchRule>)
    requires IsGrouping(rules, groups) && IsChoice(p, groups)
    ensures OnePerKey(p, rules)
  {
    forall i | 0 <= i < |p|
      ensures p[i] in rules && p[i].key == groups[i][0].key
    {
      assert p[i] in groups[i];
      WithKeyMembers(rules, groups[i][0].key, p[i]);
    }
    forall i, j | 0 <= i < j < |p|
      ensures p[i].key != p[j].key
    {
      assert groups[i][0].key != groups[j][0].key;
    }
    forall m | m in rules
      ensures exists i :: 0 <= i < |p| && p[i].key == m.key
    {
      var i :| 0 <= i < |groups| && groups[i][0].key == m.key;
      assert p[i].key == m.key;
    }
  }

  /** The result of `catesian_product`. */
  function CartesianProductOf(rules: seq<MatchRule>): seq<seq<MatchRule>> {
    var groups := Groups(rules);
    if groups == [] then [] else Product(groups)
  }

  /** `MatcherList::catesian_product`: group the rules, and return no combinations when there
      is no group; otherwise the product of the groups. */
  method CartesianProduct(rules: seq<MatchRule>) returns (result: seq<seq<MatchRule>>)
    ensures result == CartesianProductOf(rules)
  {
    var groups := MakeGroups(rules);
    if groups == [] {
      return [];
    }
    result := Product(groups);
  }

  /** No rules give no combinations, and some rules give at least one. */
  lemma CartesianProductEmpty(rules: seq<MatchRule>)
    ensures CartesianProductOf(rules) == [] <==> rules == []
  {
    var groups := Groups(rules);
    GroupsIsGrouping(rules);
    if rules != [] {
      assert rules[0] in rules;
      var first := seq(|groups|, i requires 0 <= i < |groups| => groups[i][0]);
      ProductMembers(groups, first);
    }
  }

  /** One combination per way of choosing a rule of every key. */
  lemma CartesianProductCount(rules: seq<MatchRule>)
    requires rules != []
    ensures |CartesianProductOf(rules)| == SizeProduct(Groups(rules))
  {
    GroupsIsGrouping(rules);
    assert rules[0] in rules;
    ProductCount(Groups(rules));
  }

  /** Every combination picks one rule of each group, so one rule per distinct key. */
  lemma CartesianProductSound(rules: seq<MatchRule>, p: seq<MatchRule>)
    requires p in CartesianProductOf(rules)
    ensures IsChoice(p, Groups(rules))
    ensures OnePerKey(p, rules)
  {
    var groups := Groups(rules);
    GroupsIsGrouping(rules);
    ProductMembers(groups, p);
    ChoiceIsOnePerKey(rules, groups, p);
  }

  /** Every combination of one entry per group appears in `catesian_product`'s result. */
  lemma CartesianProductComplete(rules: seq<MatchRule>, p: seq<MatchRule>)
    requires rules != [] && IsChoice(p, Groups(rules))
    ensures p in CartesianProductOf(rules)
  {
    GroupsIsGrouping(rules);
    assert rules[0] in rules;
    ProductMembers(Groups(rules), p);
  }

  /** Every key of `keys` is the key of some entry of `p`. */
  ghost predicate CoversKeys(p: seq<MatchRule>, keys: seq<string>) {
    forall i :: 0 <= i < |keys| ==> exists j :: 0 <= j < |p| && p[j].key == keys[i]
  }

  /** The entry of `p` with key `k`. */
  ghost function PickWithKey(p: seq<MatchRule>, k: string): (m: MatchRule)
    requires exists j :: 0 <= j < |p| && p[j].key == k
    ensures m in p && m.key == k
  {
    var j :| 0 <= j < |p| && p[j].key == k; p[j]
  }

  /** The entries of `p`, one per key of `keys`, in the order of `keys`. */
  ghost function Picks(p: seq<MatchRule>, keys: seq<string>): seq<MatchRule>
    requires CoversKeys(p, keys)
  {
    seq(|keys|, i requires 0 <= i < |keys| => PickWithKey(p, keys[i]))
  }

  lemma OnePerKeyCovers(rules: seq<MatchRule>, p: seq<MatchRule>)
    requires OnePerKey(p, rules)
    ensures CoversKeys(p, KeysOf(rules))
  {
    var keys := KeysOf(rules);
    forall i | 0 <= i < |keys|
      ensures exists j :: 0 <= j < |p| && p[j].key == keys[i]
    {
      KeysOfSound(rules, keys[i]);
      var m :| m in rules && m.key == keys[i];
      var j :| 0 <= j < |p| && p[j].key == m.key;
    }
  }

  /** Reordered by group, a pick of one rule per key is a choice of one entry per group. */
  lemma PicksIsChoice(rules: seq<MatchRule>, p: seq<MatchRule>)
    requires OnePerKey(p, rules) && CoversKeys(p, KeysOf(rules))
    ensures IsChoice(Picks(p, KeysOf(rules)), Groups(rules))
  {
    var keys, q := KeysOf(rules), Picks(p, KeysOf(rules));
    forall i | 0 <= i < |q|
      ensures q[i] in Groups(rules)[i]
    {
      WithKeyMembers(rules, keys[i], q[i]);
    }
  }

  /** Entries of `p` with distinct keys are the same entry when their keys agree. */
  lemma SameKeySameIndex(p: seq<MatchRule>, j: nat, j': nat)
    requires forall i, k :: 0 <= i < k < |p| ==> p[i].key != p[k].key
    requires j < |p| && j' < |p| && p[j].key == p[j'].key
    ensures j == j'
  {
  }

  /** A rule of `p` is the one picked for its key, since no other entry shares that key. */
  lemma PickedRule(p: seq<MatchRule>, keys: seq<string>, j: nat)
    requires forall i, k :: 0 <= i < k < |p| ==> p[i].key != p[k].key
    requires CoversKeys(p, keys) && j < |p| && p[j].key in keys
    ensures p[j] in Picks(p, keys)
  {
    var i :| 0 <= i < |keys| && keys[i] == p[j].key;
    var m := PickWithKey(p, keys[i]);
    var j' :| 0 <= j' < |p| && p[j'] == m;
    SameKeySameIndex(p, j, j');
    assert Picks(p, keys)[i] == p[j];
  }

  /** Reordering by group neither loses nor adds a rule. */
  lemma PicksSameRules(rules: seq<MatchRule>, p: seq<MatchRule>)
    requires OnePerKey(p, rules) && CoversKeys(p, KeysOf(rules))
    ensures forall m :: m in Picks(p, KeysOf(rules)) <==> m in p
  {
    var keys := KeysOf(rules);
    forall j | 0 <= j < |p|
      ensures p[j] in Picks(p, keys)
    {
      assert p[j] in rules;
      PickedRule(p, keys, j);
    }
  }

  /** Whatever order the groups come in: every pick of one rule per distinct key appears
      among the combinations, up to the order of its rules. */
  lemma CartesianProductCompleteAnyOrder(rules: seq<MatchRule>, p: seq<MatchRule>)
    requires rules != [] && OnePerKey(p, rules)
    ensures exists q :: q in CartesianProductOf(rules) && forall m :: m in q <==> m in p
  {
    OnePerKeyCovers(rules, p);
    PicksIsChoice(rules, p);
    PicksSameRules(rules, p);
    CartesianProductComplete(rules, Picks(p, KeysOf(rules)));
  }

  // ----------------------------------------------- Gateway-API match entries

  datatype HeaderMatchType = HeaderExact | HeaderRegularExpression
  datatype QueryMatchType = QueryExact | QueryRegularExpression

  /** `HTTPRouteRulesMatchesHeaders`. */
  datatype HeaderMatch = HeaderMatch(name: string, matchType: Option<HeaderMatchType>, value: string)
  /** `HTTPRouteRulesMatchesQueryParams`. */
  datatype QueryParamMatch = QueryParamMatch(name: string, matchType: Option<QueryMatchType>, value: string)

  /** `From<MatchType> for HTTPRouteRulesMatchesHeadersType`. */
  function HeaderMatchTypeOf(t: MatchType): (r: HeaderMatchType)
    ensures r == HeaderExact <==> t == Equal
  {
    match t
    case Equal => HeaderExact
    case RegularExpression => HeaderRegularExpression
  }

  /** `From<MatchType> for HTTPRouteRulesMatchesQueryParamsType`. */
  function QueryMatchTypeOf(t: MatchType): (r: QueryMatchType)
    ensures r == QueryExact <==> t == Equal
  {
    match t
    case Equal => QueryExact
    case RegularExpression => QueryRegularExpression
  }

  function HeaderMatchOf(rule: MatchRule): HeaderMatch {
    HeaderMatch(rule.key, Some(HeaderMatchTypeOf(rule.matchType)), rule.value)
  }

  function QueryParamMatchOf(rule: MatchRule): QueryParamMatch {
    QueryParamMatch(rule.key, Some(QueryMatchTypeOf(rule.matchType)), rule.value)
  }

  /** Reads a match rule back from a header entry. */
  function RuleOfHeader(h: HeaderMatch): Option<MatchRule> {
    match h.matchType
    case None => None
    case Some(HeaderExact) => Some(MatchRule(h.name, h.value, Equal))
    case Some(HeaderRegularExpression) => Some(MatchRule(h.name, h.value, RegularExpression))
  }

  /** Reads a match rule back from a query-parameter entry. */
  function RuleOfQueryParam(q: QueryParamMatch): Option<MatchRule> {
    match q.matchType
    case None => None
    case Some(QueryExact) => Some(MatchRule(q.name, q.value, Equal))
    case Some(QueryRegularExpression) => Some(MatchRule(q.name, q.value, RegularExpression))
  }

  function HeaderMatchesOf(rules: seq<MatchRule>): seq<HeaderMatch> {
    seq(|rules|, i requires 0 <= i < |rules| => HeaderMatchOf(rules[i]))
  }

  function QueryParamMatchesOf(rules: seq<MatchRule>): seq<QueryParamMatch> {
    seq(|rules|, i requires 0 <= i < |rules| => QueryParamMatchOf(rules[i]))
  }

  /** `From<HeadersMatchersList> for Vec<HTTPRouteRulesMatchesHeaders>`: one entry per rule,
      in order, from which the rule is recovered unchanged. */
  method HeadersFrom(rules: seq<MatchRule>) returns (matches: seq<HeaderMatch>)
    ensures matches == HeaderMatchesOf(rules)
    ensures |matches| == |rules|
    ensures forall i :: 0 <= i < |rules| ==> RuleOfHeader(matches[i]) == Some(rules[i])
  {
    matches := [];
    for i := 0 to |rules|
      invariant |matches| == i
      invariant forall n :: 0 <= n < i ==> matches[n] == HeaderMatchOf(rules[n])
    {
      matches := matches + [HeaderMatch(rules[i].key, Some(HeaderMatchTypeOf(rules[i].matchType)), rules[i].value)];
    }
  }

  /** `From<QueryMatchersList> for Vec<HTTPRouteRulesMatchesQueryParams>`: one entry per rule,
      in order, from which the rule is recovered unchanged. */
  method QueryParamsFrom(rules: seq<MatchRule>) returns (matches: seq<QueryParamMatch>)
    ensures matches == QueryParamMatchesOf(rules)
    ensures |matches| == |rules|
    ensures forall i :: 0 <= i < |rules| ==> RuleOfQueryParam(matches[i]) == Some(rules[i])
  {
    matches := [];
    for i := 0 to |rules|
      invariant |matches| == i
      invariant forall n :: 0 <= n < i ==> matches[n] == QueryParamMatchOf(rules[n])
    {
      matches := matches + [QueryParamMatch(rules[i].key, Some(QueryMatchTypeOf(rules[i].matchType)), rules[i].value)];
    }
  }
}
