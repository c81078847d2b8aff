/** What to do about the findings of an estate: advice matched by finding, merged by action, and ordered. */
module Advice {
  import opened Bytes

  // ---------------------------------------------------------------- sorting

  ghost predicate TotalOrder<T(!new)>(before: (T, T) -> bool) {
    && (forall a, b :: before(a, b) || before(b, a))
    && (forall a, b, c :: before(a, b) && before(b, c) ==> before(a, c))
  }

  ghost predicate Sorted<T>(xs: seq<T>, before: (T, T) -> bool) {
    forall i, j :: 0 <= i < j < |xs| ==> before(xs[i], xs[j])
  }

  function InsertBy<T>(x: T, xs: seq<T>, before: (T, T) -> bool): seq<T> {
    if xs == [] || before(x, xs[0]) then [x] + xs else [xs[0]] + InsertBy(x, xs[1..], before)
  }

  /** A stable sort: what is placed alike keeps its order. */
  function SortBy<T>(xs: seq<T>, before: (T, T) -> bool): seq<T> {
    if xs == [] then [] else InsertBy(xs[0], SortBy(xs[1..], before), before)
  }

  lemma {:induction false} InsertAdds<T(!new)>(x: T, xs: seq<T>, before: (T, T) -> bool)
    ensures multiset(InsertBy(x, xs, before)) == multiset(xs) + multiset{x}
  {
    if xs != [] && !before(x, xs[0]) {
      InsertAdds(x, xs[1..], before);
      assert xs == [xs[0]] + xs[1..];
    }
  }

  lemma {:induction false} InsertIsSorted<T(!new)>(x: T, xs: seq<T>, before: (T, T) -> bool)
    requires TotalOrder(before) && Sorted(xs, before)
    ensures Sorted(InsertBy(x, xs, before), before)
  {
    if xs == [] {
    } else if before(x, xs[0]) {
      forall j | 0 <= j < |xs| ensures before(x, xs[j]) {
        assert j > 0 ==> before(xs[0], xs[j]);
      }
    } else {
      var rest := InsertBy(x, xs[1..], before);
      InsertIsSorted(x, xs[1..], before);
      forall j | 0 <= j < |rest| ensures before(xs[0], rest[j]) {
        InsertAdds(x, xs[1..], before);
        assert rest[j] in multiset(rest);
        assert rest[j] == x || rest[j] in xs[1..];
      }
    }
  }

  lemma {:induction false} SortIsSorted<T(!new)>(xs: seq<T>, before: (T, T) -> bool)
    requires TotalOrder(before)
    ensures Sorted(SortBy(xs, before), before)
    ensures multiset(SortBy(xs, before)) == multiset(xs)
  {
    if xs != [] {
      SortIsSorted(xs[1..], before);
      InsertIsSorted(xs[0], SortBy(xs[1..], before), before);
      InsertAdds(xs[0], SortBy(xs[1..], before), before);
      assert xs == [xs[0]] + xs[1..];
    }
  }

  lemma SortKeepsMembers<T(!new)>(xs: seq<T>, before: (T, T) -> bool, x: T)
    requires TotalOrder(before)
    ensures x in SortBy(xs, before) <==> x in xs
  {
    SortIsSorted(xs, before);
    assert x in multiset(xs) <==> x in multiset(SortBy(xs, before));
  }

  /** What is placed like `k`, in order. */
  function Alike<T>(xs: seq<T>, before: (T, T) -> bool, k: T): seq<T> {
    if xs == [] then []
    else (if before(xs[0], k) && before(k, xs[0]) then [xs[0]] else []) + Alike(xs[1..], before, k)
  }

  lemma {:induction false} InsertIsStable<T(!new)>(x: T, xs: seq<T>, before: (T, T) -> bool, k: T)
    requires TotalOrder(before)
    ensures Alike(InsertBy(x, xs, before), before, k) == Alike([x] + xs, before, k)
  {
    assert ([x] + xs)[1..] == xs;
    if xs != [] && !before(x, xs[0]) {
      InsertIsStable(x, xs[1..], before, k);
      assert ([x] + xs[1..])[1..] == xs[1..];
      assert InsertBy(x, xs, before)[1..] == InsertBy(x, xs[1..], before);
    }
  }

  lemma {:induction false} SortIsStable<T(!new)>(xs: seq<T>, before: (T, T) -> bool, k: T)
    requires TotalOrder(before)
    ensures Alike(SortBy(xs, before), before, k) == Alike(xs, before, k)
  {
    if xs != [] {
      SortIsStable(xs[1..], before, k);
      InsertIsStable(xs[0], SortBy(xs[1..], before), before, k);
      assert ([xs[0]] + SortBy(xs[1..], before))[1..] == SortBy(xs[1..], before);
    }
  }

  // ------------------------------------------------------------ host labels

  predicate Less(a: string, b: string) {
    if b == "" then false
    else if a == "" then true
    else a[0] < b[0] || (a[0] == b[0] && Less(a[1..], b[1..]))
  }

  lemma {:induction false} LessTrans(a: string, b: string, c: string)
    requires Less(a, b) && Less(b, c)
    ensures Less(a, c)
  {
    if a != "" && a[0] == b[0] == c[0] {
      LessTrans(a[1..], b[1..], c[1..]);
    }
  }

  lemma {:induction false} LessTotal(a: string, b: string)
    ensures Less(a, b) || a == b || Less(b, a)
    ensures !(Less(a, b) && Less(b, a)) && !Less(a, a)
  {
    if a != "" {
      LessTotal(a[1..], a[1..]);
      if b != "" && a[0] == b[0] {
        LessTotal(a[1..], b[1..]);
        assert a == [a[0]] + a[1..] && b == [b[0]] + b[1..];
      }
    }
  }

  ghost predicate Increasing(names: seq<string>) {
    forall i, j :: 0 <= i < j < |names| ==> Less(names[i], names[j])
  }

  function InsertName(name: string, names: seq<string>): seq<string> {
    if names == [] || Less(name, names[0]) then [name] + names
    else if names[0] == name then names
    else [names[0]] + InsertName(name, names[1..])
  }

  /** Each name once, in order. */
  function SortedSet(names: seq<string>): seq<string> {
    if names == [] then [] else InsertName(names[0], SortedSet(names[1..]))
  }

  lemma {:induction false} InsertNameIsIncreasing(name: string, names: seq<string>)
    requires Increasing(names)
    ensures Increasing(InsertName(name, names))
    ensures forall n :: n in InsertName(name, names) <==> n == name || n in names
  {
    if names == [] {
    } else if Less(name, names[0]) {
      forall j | 0 <= j < |names| ensures Less(name, names[j]) {
        if j > 0 {
          LessTrans(name, names[0], names[j]);
        }
      }
    } else if names[0] != name {
      LessTotal(name, names[0]);
      var rest := InsertName(name, names[1..]);
      InsertNameIsIncreasing(name, names[1..]);
      assert names == [names[0]] + names[1..];
      forall j | 0 <= j < |rest| ensures Less(names[0], rest[j]) {
        assert rest[j] in rest;
        if rest[j] != name {
          assert rest[j] in names[1..];
        }
      }
    }
  }

  lemma {:induction false} SortedSetIsSet(names: seq<string>)
    ensures Increasing(SortedSet(names))
    ensures forall n :: n in SortedSet(names) <==> n in names
  {
    if names != [] {
      SortedSetIsSet(names[1..]);
      InsertNameIsIncreasing(names[0], SortedSet(names[1..]));
      assert names == [names[0]] + names[1..];
    }
  }

  // ------------------------------------------------------------------ rules

  datatype Remedy = Remedy(priority: int, effort: string, action: string, why: string)

  datatype Entry = Entry(key: string, remedy: Remedy)

  /** The remediation block of a rule profile: its findings table in the order it is written. */
  datatype Rules = Rules(readiness: map<string, Remedy>, findings: seq<Entry>)

  /** What advice is drawn from: how one endpoint is named, and its findings. */
  datatype Finding = Finding(endpoint: string, untestable: bool, readiness: string, ruleFindings: seq<string>)

  datatype Item = Item(priority: int, effort: string, action: string, why: string, trigger: string, hosts: seq<string>)

  ghost predicate DistinctKeys(table: seq<Entry>) {
    forall i, j :: 0 <= i < j < |table| ==> table[i].key != table[j].key
  }

  // --------------------------------------------------------------- matching

  function LongerFirst(a: Entry, b: Entry): bool {
    |a.key| >= |b.key|
  }

  function FirstPrefix(name: string, table: seq<Entry>): Option<Remedy> {
    if table == [] then None
    else if table[0].key <= name then Some(table[0].remedy)
    else FirstPrefix(name, table[1..])
  }

  function Match(name: string, table: seq<Entry>): Option<Remedy> {
    FirstPrefix(name, SortBy(table, LongerFirst))
  }

  /** The longest key of the table that begins the name. */
  ghost predicate Longest(name: string, table: seq<Entry>, entry: Entry) {
    entry in table && entry.key <= name && forall x :: x in table && x.key <= name ==> |x.key| <= |entry.key|
  }

  lemma {:induction false} FirstPrefixIsLongest(name: string, table: seq<Entry>)
    requires Sorted(table, LongerFirst)
    ensures FirstPrefix(name, table).None? <==> forall x :: x in table ==> !(x.key <= name)
    ensures FirstPrefix(name, table).Some? ==>
              exists x :: Longest(name, table, x) && x.remedy == FirstPrefix(name, table).value
  {
    if table != [] {
      assert table == [table[0]] + table[1..];
      if table[0].key <= name {
        assert Longest(name, table, table[0]);
      } else {
        FirstPrefixIsLongest(name, table[1..]);
        if FirstPrefix(name, table).Some? {
          var x :| Longest(name, table[1..], x) && x.remedy == FirstPrefix(name, table).value;
          assert Longest(name, table, x);
        }
      }
    }
  }

  lemma LongestIsUnique(name: string, table: seq<Entry>, a: Entry, b: Entry)
    requires DistinctKeys(table) && Longest(name, table, a) && Longest(name, table, b)
    ensures a == b
  {
  }

  /** A finding gets the remedy of the one longest key that begins it, whatever the order of the table,
      and none exactly when no key does. */
  lemma MatchIsLongest(name: string, table: seq<Entry>)
    requires DistinctKeys(table)
    ensures Match(name, table).None? <==> forall x :: x in table ==> !(x.key <= name)
    ensures forall x :: Longest(name, table, x) ==> Match(name, table) == Some(x.remedy)
  {
    var sorted := SortBy(table, LongerFirst);
    SortIsSorted(table, LongerFirst);
    forall x ensures x in sorted <==> x in table {
      SortKeepsMembers(table, LongerFirst, x);
    }
    FirstPrefixIsLongest(name, sorted);
    forall x | Longest(name, table, x) ensures Match(name, table) == Some(x.remedy) {
      var y :| Longest(name, sorted, y) && y.remedy == FirstPrefix(name, sorted).value;
      assert Longest(name, table, y);
      LongestIsUnique(name, table, x, y);
    }
  }

  // ---------------------------------------------------------------- actions

  function EffortRank(effort: string): nat {
    if effort == "config" then 0 else if effort == "certificate" then 1
    else if effort == "vendor" then 2 else if effort == "design" then 3 else 9
  }

  /** Most urgent first, then what helps the most hosts, then the easiest. */
  function Before(a: Item, b: Item): bool {
    || a.priority < b.priority
    || (a.priority == b.priority
        && (|a.hosts| > |b.hosts| || (|a.hosts| == |b.hosts| && EffortRank(a.effort) <= EffortRank(b.effort))))
  }

  lemma BeforeIsTotal()
    ensures TotalOrder(Before)
  {
  }

  function ToItem(remedy: Remedy, trigger: string, endpoint: string): Item {
    Item(remedy.priority, remedy.effort, remedy.action, remedy.why, trigger, [endpoint])
  }

  /** An action per finding that has a remedy, each remedy's text once. */
  function FindingItems(rules: Rules, endpoint: string, names: seq<string>, seen: set<string>): seq<Item>
    decreases names
  {
    if names == [] then []
    else
      var remedy := Match(names[0], rules.findings);
      if remedy.None? || remedy.value.action in seen then FindingItems(rules, endpoint, names[1..], seen)
      else
        [ToItem(remedy.value, names[0], endpoint)]
        + FindingItems(rules, endpoint, names[1..], seen + {remedy.value.action})
  }

  function ReadinessItems(rules: Rules, f: Finding): seq<Item> {
    if f.readiness in rules.readiness then [ToItem(rules.readiness[f.readiness], f.readiness, f.endpoint)] else []
  }

  function ItemsFor(rules: Rules, f: Finding): seq<Item> {
    if f.untestable then []
    else SortBy(ReadinessItems(rules, f) + FindingItems(rules, f.endpoint, f.ruleFindings, {}), Before)
  }

  // ---------------------------------------------------------------- merging

  function IndexOf(items: seq<Item>, action: string): Option<nat> {
    if items == [] then None
    else if items[0].action == action then Some(0)
    else match IndexOf(items[1..], action)
      case None => None
      case Some(i) => Some(i + 1)
  }

  lemma {:induction false} IndexOfFinds(items: seq<Item>, action: string)
    ensures match IndexOf(items, action)
            case None => forall i :: 0 <= i < |items| ==> items[i].action != action
            case Some(i) => i < |items| && items[i].action == action
  {
    if items != [] {
      IndexOfFinds(items[1..], action);
      assert forall i :: 0 < i < |items| ==> items[i] == items[1..][i - 1];
    }
  }

  /** An action known by its text gains the hosts; a new one is appended. */
  function Merge(items: seq<Item>, item: Item): seq<Item> {
    IndexOfFinds(items, item.action);
    match IndexOf(items, item.action)
    case None => items + [item]
    case Some(i) => items[i := items[i].(hosts := items[i].hosts + item.hosts)]
  }

  function MergeAll(items: seq<Item>, more: seq<Item>): seq<Item>
    decreases more
  {
    if more == [] then items else MergeAll(Merge(items, more[0]), more[1..])
  }

  function Everything(rules: Rules, findings: seq<Finding>): seq<Item> {
    if findings == [] then [] else ItemsFor(rules, findings[0]) + Everything(rules, findings[1..])
  }

  function Tidied(items: seq<Item>): seq<Item> {
    seq(|items|, i requires 0 <= i < |items| => items[i].(hosts := SortedSet(items[i].hosts)))
  }

  function Consolidated(rules: Rules, findings: seq<Finding>): seq<Item> {
    SortBy(Tidied(MergeAll([], Everything(rules, findings))), Before)
  }

  // ------------------------------------------------------------ conservation

  /** The advice contains this action for this endpoint. */
  ghost predicate Advises(items: seq<Item>, action: string, host: string) {
    exists x :: x in items && x.action == action && host in x.hosts
  }

  ghost predicate DistinctActions(items: seq<Item>) {
    forall i, j :: 0 <= i < j < |items| ==> items[i].action != items[j].action
  }

  lemma MergeConserves(items: seq<Item>, item: Item, action: string, host: string)
    ensures Advises(Merge(items, item), action, host)
       <==> Advises(items, action, host) || (item.action == action && host in item.hosts)
  {
    IndexOfFinds(items, item.action);
    var merged := Merge(items, item);
    match IndexOf(items, item.action) {
      case None =>
        assert item in merged;
      case Some(i) =>
        assert merged[i] in merged && items[i] in items;
        if Advises(items, action, host) {
          var x :| x in items && x.action == action && host in x.hosts;
          var j :| 0 <= j < |items| && items[j] == x;
          assert merged[j] in merged && merged[j].action == action && host in merged[j].hosts;
        }
        if Advises(merged, action, host) {
          var x :| x in merged && x.action == action && host in x.hosts;
          var j :| 0 <= j < |merged| && merged[j] == x;
          assert items[j] in items;
        }
    }
  }

  lemma MergeKeepsDistinct(items: seq<Item>, item: Item)
    requires DistinctActions(items)
    ensures DistinctActions(Merge(items, item))
  {
    IndexOfFinds(items, item.action);
  }

  lemma {:induction false} MergeAllConserves(items: seq<Item>, more: seq<Item>, action: string, host: string)
    ensures Advises(MergeAll(items, more), action, host)
       <==> Advises(items, action, host) || Advises(more, action, host)
    decreases more
  {
    if more != [] {
      MergeConserves(items, more[0], action, host);
      MergeAllConserves(Merge(items, more[0]), more[1..], action, host);
      AdvisesAppend([more[0]], more[1..], action, host);
      assert more == [more[0]] + more[1..];
    }
  }

  lemma AdvisesAppend(a: seq<Item>, b: seq<Item>, action: string, host: string)
    ensures Advises(a + b, action, host) <==> Advises(a, action, host) || Advises(b, action, host)
  {
  }

  lemma {:induction false} MergeAllDistinct(items: seq<Item>, more: seq<Item>)
    requires DistinctActions(items)
    ensures DistinctActions(MergeAll(items, more))
    decreases more
  {
    if more != [] {
      MergeKeepsDistinct(items, more[0]);
      MergeAllDistinct(Merge(items, more[0]), more[1..]);
    }
  }

  lemma TidiedConserves(items: seq<Item>, action: string, host: string)
    ensures Advises(Tidied(items), action, host) <==> Advises(items, action, host)
  {
    var tidied := Tidied(items);
    if Advises(items, action, host) {
      var x :| x in items && x.action == action && host in x.hosts;
      var i :| 0 <= i < |items| && items[i] == x;
      SortedSetIsSet(x.hosts);
      assert tidied[i] in tidied;
    }
    if Advises(tidied, action, host) {
      var x :| x in tidied && x.action == action && host in x.hosts;
      var i :| 0 <= i < |tidied| && tidied[i] == x;
      SortedSetIsSet(items[i].hosts);
      assert items[i] in items;
    }
  }

  lemma SortConserves(items: seq<Item>, action: string, host: string)
    ensures Advises(SortBy(items, Before), action, host) <==> Advises(items, action, host)
  {
    BeforeIsTotal();
    forall x ensures x in SortBy(items, Before) <==> x in items {
      SortKeepsMembers(items, Before, x);
    }
  }

  lemma {:induction false} EverythingAdvises(rules: Rules, findings: seq<Finding>, action: string, host: string)
    ensures Advises(Everything(rules, findings), action, host)
       <==> exists f :: f in findings && Advises(ItemsFor(rules, f), action, host)
  {
    if findings != [] {
      EverythingAdvises(rules, findings[1..], action, host);
      AdvisesAppend(ItemsFor(rules, findings[0]), Everything(rules, findings[1..]), action, host);
      assert findings == [findings[0]] + findings[1..];
    }
  }

  /** The estate's advice names exactly the (action, endpoint) pairs that the findings do. */
  lemma AdviceIsConserved(rules: Rules, findings: seq<Finding>, action: string, host: string, all: seq<Item>)
    requires all == Consolidated(rules, findings)
    ensures Advises(all, action, host) <==> exists f :: f in findings && Advises(ItemsFor(rules, f), action, host)
  {
    var everything := Everything(rules, findings);
    EverythingAdvises(rules, findings, action, host);
    MergeAllConserves([], everything, action, host);
    TidiedConserves(MergeAll([], everything), action, host);
    SortConserves(Tidied(MergeAll([], everything)), action, host);
  }

  /** A finding has a remedy of this text. */
  ghost predicate Remedied(rules: Rules, f: Finding, action: string) {
    || (f.readiness in rules.readiness && rules.readiness[f.readiness].action == action)
    || NameRemedied(rules, f.ruleFindings, action)
  }

  ghost predicate NameRemedied(rules: Rules, names: seq<string>, action: string) {
    exists n :: n in names && Match(n, rules.findings).Some? && Match(n, rules.findings).value.action == action
  }

  lemma {:induction false} FindingItemsAdvise(rules: Rules, endpoint: string, names: seq<string>, seen: set<string>,
                                              action: string, host: string)
    ensures Advises(FindingItems(rules, endpoint, names, seen), action, host)
       <==> host == endpoint && action !in seen && NameRemedied(rules, names, action)
    decreases names
  {
    if names != [] {
      var remedy := Match(names[0], rules.findings);
      assert names == [names[0]] + names[1..];
      if remedy.None? || remedy.value.action in seen {
        FindingItemsAdvise(rules, endpoint, names[1..], seen, action, host);
      } else {
        var item := ToItem(remedy.value, names[0], endpoint);
        var rest := FindingItems(rules, endpoint, names[1..], seen + {remedy.value.action});
        FindingItemsAdvise(rules, endpoint, names[1..], seen + {remedy.value.action}, action, host);
        AdvisesAppend([item], rest, action, host);
        assert item in [item];
      }
    }
  }

  /** An endpoint is advised an action, under its own name, exactly when it could be assessed and its readiness
      or one of its findings has that remedy. */
  lemma ItemsForAdvise(rules: Rules, f: Finding, action: string, host: string)
    ensures Advises(ItemsFor(rules, f), action, host)
        <==> !f.untestable && host == f.endpoint && Remedied(rules, f, action)
  {
    if !f.untestable {
      var a, b := ReadinessItems(rules, f), FindingItems(rules, f.endpoint, f.ruleFindings, {});
      SortConserves(a + b, action, host);
      AdvisesAppend(a, b, action, host);
      FindingItemsAdvise(rules, f.endpoint, f.ruleFindings, {}, action, host);
      if f.readiness in rules.readiness {
        assert a[0] in a;
      }
    }
  }

  // ------------------------------------------------------------------- shape

  /** Every action text once, every host list increasing, and the whole in order of urgency, reach and effort. */
  lemma ConsolidatedIsOrdered(rules: Rules, findings: seq<Finding>, all: seq<Item>)
    requires all == Consolidated(rules, findings)
    ensures DistinctActions(all) && Sorted(all, Before)
    ensures forall i :: 0 <= i < |all| ==> Increasing(all[i].hosts) && all[i].hosts != []
  {
    var merged := MergeAll([], Everything(rules, findings));
    var tidied := Tidied(merged);
    BeforeIsTotal();
    SortIsSorted(tidied, Before);
    MergeAllDistinct([], Everything(rules, findings));
    DistinctSurvivesSorting(tidied, all);
    EverythingHasHosts(rules, findings);
    MergeAllHasHosts([], Everything(rules, findings));
    forall i | 0 <= i < |all| ensures Increasing(all[i].hosts) && all[i].hosts != [] {
      assert all[i] in multiset(all);
      var j :| 0 <= j < |tidied| && tidied[j] == all[i];
      SortedSetIsSet(merged[j].hosts);
      assert merged[j].hosts[0] in SortedSet(merged[j].hosts);
    }
  }

  ghost predicate HasHosts(items: seq<Item>) {
    forall i :: 0 <= i < |items| ==> items[i].hosts != []
  }

  lemma {:induction false} MergeAllHasHosts(items: seq<Item>, more: seq<Item>)
    requires HasHosts(items) && HasHosts(more)
    ensures HasHosts(MergeAll(items, more))
    decreases more
  {
    if more != [] {
      IndexOfFinds(items, more[0].action);
      MergeAllHasHosts(Merge(items, more[0]), more[1..]);
    }
  }

  lemma {:induction false} FindingItemsHaveHosts(rules: Rules, endpoint: string, names: seq<string>, seen: set<string>)
    ensures HasHosts(FindingItems(rules, endpoint, names, seen))
    decreases names
  {
    if names != [] {
      var remedy := Match(names[0], rules.findings);
      FindingItemsHaveHosts(rules, endpoint, names[1..], seen);
      if remedy.Some? {
        FindingItemsHaveHosts(rules, endpoint, names[1..], seen + {remedy.value.action});
      }
    }
  }

  lemma {:induction false} EverythingHasHosts(rules: Rules, findings: seq<Finding>)
    ensures HasHosts(Everything(rules, findings))
  {
    if findings != [] {
      var f := findings[0];
      EverythingHasHosts(rules, findings[1..]);
      FindingItemsHaveHosts(rules, f.endpoint, f.ruleFindings, {});
      var items := ReadinessItems(rules, f) + FindingItems(rules, f.endpoint, f.ruleFindings, {});
      BeforeIsTotal();
      SortIsSorted(items, Before);
      forall i | 0 <= i < |SortBy(items, Before)| ensures SortBy(items, Before)[i].hosts != [] {
        assert SortBy(items, Before)[i] in multiset(items);
        var j :| 0 <= j < |items| && items[j] == SortBy(items, Before)[i];
      }
    }
  }

  /** A permutation of distinct actions has distinct actions. */
  lemma DistinctSurvivesSorting(a: seq<Item>, b: seq<Item>)
    requires DistinctActions(a) && multiset(a) == multiset(b)
    ensures DistinctActions(b)
  {
    forall i, j | 0 <= i < j < |b| ensures b[i].action != b[j].action {
      if b[i].action == b[j].action {
        assert b[i] in multiset(b) && b[j] in multiset(b);
        TwiceCounted(b, i, j);
        OnlyOnce(a, b[i], b[j]);
      }
    }
  }

  lemma TwiceCounted<T>(items: seq<T>, i: nat, j: nat)
    requires i < j < |items| && items[i] == items[j]
    ensures multiset(items)[items[i]] >= 2
  {
    assert items == items[..i] + [items[i]] + items[i + 1..j] + [items[j]] + items[j + 1..];
  }

  lemma OnlyOnce(a: seq<Item>, x: Item, y: Item)
    requires DistinctActions(a) && x in multiset(a) && y in multiset(a) && x.action == y.action
    ensures x == y && multiset(a)[x] == 1
  {
    var i :| 0 <= i < |a| && a[i] == x;
    var j :| 0 <= j < |a| && a[j] == y;
    assert a == a[..i] + [x] + a[i + 1..];
    forall k | 0 <= k < |a| && k != i ensures a[k] != x {
    }
    assert x !in multiset(a[..i]) && x !in multiset(a[i + 1..]);
  }

  /** `a` comes before `b`: where they first differ it has the smaller character, or it ends. */
  ghost predicate Earlier(a: string, b: string) {
    exists k :: 0 <= k <= |a| && k < |b| && a[..k] == b[..k] && (k == |a| || a[k] < b[k])
  }

  lemma {:induction false} LessMeans(a: string, b: string)
    ensures Less(a, b) <==> Earlier(a, b)
  {
    if a == "" || b == "" {
      if b != "" {
        assert a[..0] == b[..0];
      }
    } else {
      LessMeans(a[1..], b[1..]);
      if Less(a, b) {
        if a[0] < b[0] {
          assert a[..0] == b[..0];
        } else {
          var k :| 0 <= k <= |a[1..]| && k < |b[1..]| && a[1..][..k] == b[1..][..k]
              && (k == |a[1..]| || a[1..][k] < b[1..][k]);
          assert a[..k + 1] == [a[0]] + a[1..][..k] && b[..k + 1] == [b[0]] + b[1..][..k];
        }
      }
      if Earlier(a, b) {
        var k :| 0 <= k <= |a| && k < |b| && a[..k] == b[..k] && (k == |a| || a[k] < b[k]);
        if k > 0 {
          assert a[0] == a[..k][0] == b[..k][0] == b[0];
          assert a[1..][..k - 1] == a[..k][1..] && b[1..][..k - 1] == b[..k][1..];
        }
      }
    }
  }

  /** The efforts from the easiest; anything else comes after them. */
  const EFFORTS := ["config", "certificate", "vendor", "design"]

  /** `a` is no harder than `b`. */
  ghost predicate NoHarder(a: string, b: string) {
    b !in EFFORTS || exists i, j :: 0 <= i <= j < 4 && EFFORTS[i] == a && EFFORTS[j] == b
  }

  lemma EffortMeans(a: string, b: string)
    ensures NoHarder(a, b) <==> EffortRank(a) <= EffortRank(b)
  {
    assert EFFORTS[0] == "config" && EFFORTS[1] == "certificate" && EFFORTS[2] == "vendor" && EFFORTS[3] == "design";
    EffortPlace(a);
    EffortPlace(b);
  }

  lemma EffortPlace(a: string)
    ensures if a in EFFORTS then EffortRank(a) < 4 && EFFORTS[EffortRank(a)] == a else EffortRank(a) == 9
    ensures forall i :: 0 <= i < 4 && EFFORTS[i] == a ==> i == EffortRank(a)
  {
  }

  /** The order of the estate's advice: the more urgent first; of the equally urgent what helps more hosts; of those the
      easier. The hosts of each are in the order of their characters, without repeats. */
  lemma AdviceInOrder(rules: Rules, findings: seq<Finding>, all: seq<Item>)
    requires all == Consolidated(rules, findings)
    ensures forall i, j :: 0 <= i < j < |all| ==>
              && all[i].priority <= all[j].priority
              && (all[i].priority == all[j].priority ==> |all[i].hosts| >= |all[j].hosts|)
              && (all[i].priority == all[j].priority && |all[i].hosts| == |all[j].hosts| ==>
                    NoHarder(all[i].effort, all[j].effort))
    ensures forall i, j, k :: 0 <= i < |all| && 0 <= j < k < |all[i].hosts| ==>
            Earlier(all[i].hosts[j], all[i].hosts[k])
  {
    ConsolidatedIsOrdered(rules, findings, all);
    hide Consolidated, Less, Earlier, EffortRank, NoHarder;
    forall i, j | 0 <= i < j < |all| && all[i].priority == all[j].priority && |all[i].hosts| == |all[j].hosts|
      ensures NoHarder(all[i].effort, all[j].effort)
    {
      assert Before(all[i], all[j]);
      EffortMeans(all[i].effort, all[j].effort);
    }
    forall i, j | 0 <= i < j < |all|
      ensures all[i].priority <= all[j].priority
              && (all[i].priority == all[j].priority ==> |all[i].hosts| >= |all[j].hosts|)
    {
      assert Before(all[i], all[j]);
    }
    forall i, j, k | 0 <= i < |all| && 0 <= j < k < |all[i].hosts| ensures Earlier(all[i].hosts[j], all[i].hosts[k]) {
      assert Less(all[i].hosts[j], all[i].hosts[k]);
      LessMeans(all[i].hosts[j], all[i].hosts[k]);
    }
  }

  /** An action made for a finding is its remedy, field by field, for one host, and triggered by the first finding with
      that remedy's text. */
  ghost predicate MadeFor(rules: Rules, f: Finding, x: Item) {
    || (f.readiness in rules.readiness && x.trigger == f.readiness
        && Carries(x, rules.readiness[f.readiness], f.endpoint))
    || ItemOf(rules, f.endpoint, f.ruleFindings, {}, x)
  }

  ghost predicate Carries(x: Item, remedy: Remedy, host: string) {
    && x.priority == remedy.priority && x.effort == remedy.effort && x.action == remedy.action && x.why == remedy.why
    && x.hosts == [host]
  }

  /** The finding at `i` has a remedy, and none before it has one of the same text. */
  ghost predicate FirstWithText(rules: Rules, names: seq<string>, i: nat)
    requires i < |names|
  {
    && Match(names[i], rules.findings).Some?
    && forall j :: 0 <= j < i && Match(names[j], rules.findings).Some? ==>
         Match(names[j], rules.findings).value.action != Match(names[i], rules.findings).value.action
  }

  /** Every action for an endpoint is made for one of its findings, and the actions for its rule findings have different
      texts. */
  lemma ItemsAreMade(rules: Rules, f: Finding)
    ensures forall x :: x in ItemsFor(rules, f) ==> MadeFor(rules, f, x)
    ensures DistinctActions(FindingItems(rules, f.endpoint, f.ruleFindings, {}))
  {
    var a, b := ReadinessItems(rules, f), FindingItems(rules, f.endpoint, f.ruleFindings, {});
    FindingItemsMade(rules, f.endpoint, f.ruleFindings, {});
    BeforeIsTotal();
    forall x | x in ItemsFor(rules, f) ensures MadeFor(rules, f, x) {
      SortKeepsMembers(a + b, Before, x);
      if x in b {
        var k :| 0 <= k < |b| && b[k] == x;
        assert ItemOf(rules, f.endpoint, f.ruleFindings, {}, b[k]);
      }
    }
  }

  /** The item is the remedy of one of these findings, the first with its text, which is not yet seen. */
  ghost predicate ItemOf(rules: Rules, endpoint: string, names: seq<string>, seen: set<string>, x: Item) {
    exists i :: 0 <= i < |names| && x.trigger == names[i] && FirstWithText(rules, names, i) && x.action !in seen
                && Carries(x, Match(names[i], rules.findings).value, endpoint)
  }

  lemma {:induction false} FindingItemsMade(rules: Rules, endpoint: string, names: seq<string>, seen: set<string>)
    ensures var items := FindingItems(rules, endpoint, names, seen);
            DistinctActions(items) && forall k :: 0 <= k < |items| ==> ItemOf(rules, endpoint, names, seen, items[k])
    decreases names
  {
    hide Match;
    if names != [] {
      var remedy, rest := Match(names[0], rules.findings), names[1..];
      var items := FindingItems(rules, endpoint, names, seen);
      if remedy.None? || remedy.value.action in seen {
        FindingItemsMade(rules, endpoint, rest, seen);
        forall k | 0 <= k < |items| ensures ItemOf(rules, endpoint, names, seen, items[k]) {
          ItemOfLater(rules, endpoint, names, seen, seen, items[k]);
        }
      } else {
        var more := seen + {remedy.value.action};
        var later := FindingItems(rules, endpoint, rest, more);
        FindingItemsMade(rules, endpoint, rest, more);
        assert FirstWithText(rules, names, 0);
        forall k | 0 <= k < |items| ensures ItemOf(rules, endpoint, names, seen, items[k]) {
          if k > 0 {
            assert items[k] == later[k - 1];
            ItemOfLater(rules, endpoint, names, seen, more, items[k]);
          }
        }
        forall i, j | 0 <= i < j < |items| ensures items[i].action != items[j].action {
          assert items[j] == later[j - 1];
          assert i > 0 ==> items[i] == later[i - 1];
        }
      }
    }
  }

  lemma ItemOfLater(rules: Rules, endpoint: string, names: seq<string>, seen: set<string>, more: set<string>, x: Item)
    requires names != [] && ItemOf(rules, endpoint, names[1..], more, x) && seen <= more
    requires Match(names[0], rules.findings).Some? ==> Match(names[0], rules.findings).value.action in more
    ensures ItemOf(rules, endpoint, names, seen, x)
  {
    hide Match;
    var rest := names[1..];
    var i :| 0 <= i < |rest| && x.trigger == rest[i] && FirstWithText(rules, rest, i) && x.action !in more
             && Carries(x, Match(rest[i], rules.findings).value, endpoint);
    assert names[i + 1] == rest[i];
    forall j | 0 <= j < i + 1 && Match(names[j], rules.findings).Some?
      ensures Match(names[j], rules.findings).value.action != Match(names[i + 1], rules.findings).value.action
    {
      if j > 0 {
        assert names[j] == rest[j - 1];
      }
    }
    assert FirstWithText(rules, names, i + 1);
  }

  // ---------------------------------------------------------------- headers

  /** The first of the items with this text, but for its hosts. */
  function Header(items: seq<Item>, action: string): Option<Item> {
    if items == [] then None
    else if items[0].action == action then Some(items[0].(hosts := []))
    else Header(items[1..], action)
  }

  lemma {:induction false} HeaderAppend(a: seq<Item>, b: seq<Item>, action: string)
    ensures Header(a + b, action) == if Header(a, action).Some? then Header(a, action) else Header(b, action)
  {
    if a == [] {
      assert a + b == b;
    } else {
      HeaderAppend(a[1..], b, action);
      assert (a + b)[1..] == a[1..] + b;
    }
  }

  lemma {:induction false} HeaderIgnoresHosts(a: seq<Item>, b: seq<Item>, action: string)
    requires |a| == |b| && forall i :: 0 <= i < |a| ==> a[i].(hosts := []) == b[i].(hosts := [])
    ensures Header(a, action) == Header(b, action)
  {
    if a != [] {
      assert a[0].(hosts := []).action == b[0].(hosts := []).action;
      HeaderIgnoresHosts(a[1..], b[1..], action);
    }
  }

  lemma {:induction false} HeaderOf(items: seq<Item>, x: Item)
    requires DistinctActions(items) && x in items
    ensures Header(items, x.action) == Some(x.(hosts := []))
  {
    if items[0] != x {
      assert items == [items[0]] + items[1..];
      var i :| 0 <= i < |items| && items[i] == x;
      HeaderOf(items[1..], x);
    }
  }

  lemma {:induction false} HeaderPresent(items: seq<Item>, i: nat)
    requires i < |items|
    ensures Header(items, items[i].action).Some?
  {
    if i > 0 {
      HeaderPresent(items[1..], i - 1);
    }
  }

  lemma {:induction false} MergeAllHeader(items: seq<Item>, more: seq<Item>, action: string)
    ensures Header(MergeAll(items, more), action) == Header(items + more, action)
    decreases more
  {
    if more == [] {
      assert items + more == items;
    } else {
      var one, merged := [more[0]], Merge(items, more[0]);
      MergeAllHeader(merged, more[1..], action);
      assert items + more == items + one + more[1..];
      HeaderAppend(items, one, action);
      HeaderAppend(items + one, more[1..], action);
      HeaderAppend(merged, more[1..], action);
      assert one[1..] == [];
      IndexOfFinds(items, more[0].action);
      match IndexOf(items, more[0].action) {
        case None =>
        case Some(i) =>
          HeaderPresent(items, i);
          HeaderIgnoresHosts(items, merged, action);
      }
    }
  }

  /** Each action keeps the priority, effort, reason and trigger it first came with. */
  lemma FirstAdviceStands(rules: Rules, findings: seq<Finding>, all: seq<Item>, x: Item)
    requires all == Consolidated(rules, findings) && x in all
    ensures Header(Everything(rules, findings), x.action) == Some(x.(hosts := []))
  {
    var everything := Everything(rules, findings);
    var merged := MergeAll([], everything);
    BeforeIsTotal();
    SortKeepsMembers(Tidied(merged), Before, x);
    MergeAllDistinct([], everything);
    HeaderOf(Tidied(merged), x);
    HeaderIgnoresHosts(Tidied(merged), merged, x.action);
    MergeAllHeader([], everything, x.action);
    assert [] + everything == everything;
  }
}
