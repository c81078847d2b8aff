/** Actions as the program keeps them: objects whose host lists grow as findings are merged. */
module Remediation {
  import opened Bytes
  import opened Advice

  class Action {
    const priority: int
    const effort: string
    const action: string
    const why: string
    const trigger: string
    var hosts: seq<string>

    constructor (remedy: Remedy, trigger: string, host: string)
      ensures View() == ToItem(remedy, trigger, host)
    {
      this.priority, this.effort, this.action, this.why := remedy.priority, remedy.effort, remedy.action, remedy.why;
      this.trigger, this.hosts := trigger, [host];
    }

    function View(): Item
      reads this
    {
      Item(priority, effort, action, why, trigger, hosts)
    }
  }

  ghost function Views(actions: seq<Action>): seq<Item>
    reads actions
  {
    seq(|actions|, i requires 0 <= i < |actions| reads actions => actions[i].View())
  }

  ghost predicate Distinct(actions: seq<Action>) {
    forall i, j :: 0 <= i < j < |actions| ==> actions[i] != actions[j]
  }

  // ---------------------------------------------------------------- sorting

  method InsertAction(action: Action, actions: seq<Action>) returns (result: seq<Action>)
    ensures Views(result) == InsertBy(action.View(), Views(actions), Before)
    ensures multiset(result) == multiset(actions) + multiset{action}
  {
    if actions == [] || Before(action.View(), actions[0].View()) {
      result := [action] + actions;
      assert Views(result) == [action.View()] + Views(actions);
    } else {
      var rest := InsertAction(action, actions[1..]);
      result := [actions[0]] + rest;
      assert Views(actions)[1..] == Views(actions[1..]);
      assert Views(result) == [actions[0].View()] + Views(rest);
      assert actions == [actions[0]] + actions[1..];
    }
  }

  method SortActions(actions: seq<Action>) returns (sorted: seq<Action>)
    ensures Views(sorted) == SortBy(Views(actions), Before)
    ensures multiset(sorted) == multiset(actions)
  {
    sorted := [];
    var i := |actions|;
    while i > 0
      invariant 0 <= i <= |actions|
      invariant Views(sorted) == SortBy(Views(actions)[i..], Before)
      invariant multiset(sorted) == multiset(actions[i..])
    {
      i := i - 1;
      assert Views(actions)[i..] == [actions[i].View()] + Views(actions)[i + 1..];
      assert actions[i..] == [actions[i]] + actions[i + 1..];
      sorted := InsertAction(actions[i], sorted);
    }
    assert Views(actions)[0..] == Views(actions) && actions[0..] == actions;
  }

  // --------------------------------------------------------------- matching

  method FindMatch(name: string, table: seq<Entry>) returns (remedy: Option<Remedy>)
    ensures remedy == Match(name, table)
  {
    var sorted := SortBy(table, LongerFirst);
    for i := 0 to |sorted|
      invariant FirstPrefix(name, sorted[i..]) == Match(name, table)
    {
      assert sorted[i..][1..] == sorted[i + 1..];
      if sorted[i].key <= name {
        return Some(sorted[i].remedy);
      }
    }
    return None;
  }

  // ---------------------------------------------------------------- actions

  lemma {:induction false} FindingItemsNext(rules: Rules, endpoint: string, names: seq<string>, name: string,
                                            seen: set<string>)
    ensures FindingItems(rules, endpoint, names + [name], seen)
         == FindingItems(rules, endpoint, names, seen)
            + (var remedy := Match(name, rules.findings);
               if remedy.None? || remedy.value.action in seen + Texts(rules, names) then []
               else [ToItem(remedy.value, name, endpoint)])
    decreases names
  {
    var last := [name];
    if names == [] {
      assert names + last == last && last[1..] == [];
    } else {
      var remedy := Match(names[0], rules.findings);
      assert (names + last)[1..] == names[1..] + last;
      assert names == [names[0]] + names[1..];
      assert remedy.Some? && remedy.value.action in seen ==> seen + {remedy.value.action} == seen;
      var more := if remedy.None? then seen else seen + {remedy.value.action};
      assert seen + Texts(rules, names) == more + Texts(rules, names[1..]);
      FindingItemsNext(rules, endpoint, names[1..], name, more);
    }
  }

  /** The texts of the remedies of these findings. */
  function Texts(rules: Rules, names: seq<string>): set<string> {
    if names == [] then {}
    else
      TextOf(rules, names[0]) + Texts(rules, names[1..])
  }

  function TextOf(rules: Rules, name: string): set<string> {
    var remedy := Match(name, rules.findings);
    if remedy.None? then {} else {remedy.value.action}
  }

  lemma {:induction false} TextsNext(rules: Rules, names: seq<string>, name: string)
    ensures Texts(rules, names + [name])
         == Texts(rules, names) + TextOf(rules, name)
  {
    var last := [name];
    if names == [] {
      assert names + last == last && last[1..] == [];
    } else {
      assert (names + last)[1..] == names[1..] + last;
      TextsNext(rules, names[1..], name);
    }
  }

  /** One action per finding with a remedy whose text is not there yet. */
  method FindingActions(rules: Rules, f: Finding) returns (actions: seq<Action>)
    ensures Views(actions) == FindingItems(rules, f.endpoint, f.ruleFindings, {})
    ensures Distinct(actions) && fresh(actions)
  {
    actions := [];
    var seen: set<string> := {};
    assert Views(actions) == FindingItems(rules, f.endpoint, [], {}) && seen == Texts(rules, []);
    hide Match, FindingItems, Texts;
    for n := 0 to |f.ruleFindings|
      invariant Views(actions) == FindingItems(rules, f.endpoint, f.ruleFindings[..n], {})
      invariant seen == Texts(rules, f.ruleFindings[..n])
      invariant Distinct(actions) && fresh(actions)
    {
      var name := f.ruleFindings[n];
      assert f.ruleFindings[..n + 1] == f.ruleFindings[..n] + [name];
      FindingItemsNext(rules, f.endpoint, f.ruleFindings[..n], name, {});
      TextsNext(rules, f.ruleFindings[..n], name);
      var remedy := FindMatch(name, rules.findings);
      if remedy.Some? && remedy.value.action !in seen {
        seen := seen + {remedy.value.action};
        var action := new Action(remedy.value, name, f.endpoint);
        assert Views(actions + [action]) == Views(actions) + [action.View()];
        actions := actions + [action];
      }
    }
    assert f.ruleFindings[..|f.ruleFindings|] == f.ruleFindings;
  }

  method ActionsFor(rules: Rules, f: Finding) returns (actions: seq<Action>)
    ensures Views(actions) == ItemsFor(rules, f)
    ensures Distinct(actions) && fresh(actions)
  {
    hide FindingItems, SortBy;
    actions := [];
    if f.untestable {
      return;
    }
    if f.readiness in rules.readiness {
      var action := new Action(rules.readiness[f.readiness], f.readiness, f.endpoint);
      actions := [action];
    }
    assert Views(actions) == ReadinessItems(rules, f);
    var found := FindingActions(rules, f);
    forall i, j | 0 <= i < j < |actions + found| ensures (actions + found)[i] != (actions + found)[j] {
      assert (actions + found)[j] in found;
    }
    assert Views(actions + found) == Views(actions) + Views(found);
    var sorted := SortActions(actions + found);
    SameObjects(actions + found, sorted);
    assert forall i :: 0 <= i < |sorted| ==> sorted[i] in actions + found;
    actions := sorted;
  }

  lemma SameObjects(a: seq<Action>, b: seq<Action>)
    requires multiset(a) == multiset(b)
    ensures forall x :: x in a <==> x in b
    ensures Distinct(a) ==> Distinct(b)
  {
    forall x ensures x in a <==> x in b {
      assert x in multiset(a) <==> x in multiset(b);
    }
    if Distinct(a) {
      forall i, j | 0 <= i < j < |b| ensures b[i] != b[j] {
        OnceEach(a, b[i]);
        if b[i] == b[j] {
          TwiceCounted(b, i, j);
        }
      }
    }
  }

  lemma OnceEach(a: seq<Action>, x: Action)
    requires Distinct(a)
    ensures multiset(a)[x] <= 1
  {
    if x in a {
      var i :| 0 <= i < |a| && a[i] == x;
      assert a == a[..i] + [x] + a[i + 1..];
      assert x !in a[..i] && x !in a[i + 1..];
    }
  }

  // -------------------------------------------------------------- the estate

  /** A dictionary in the order of its keys' arrival. */
  ghost predicate Indexed(merged: map<string, Action>, order: seq<Action>) {
    && (forall i :: 0 <= i < |order| ==> order[i].action in merged && merged[order[i].action] == order[i])
    && (forall k :: k in merged ==> merged[k] in order && merged[k].action == k)
    && (forall i, j :: 0 <= i < j < |order| ==> order[i].action != order[j].action)
  }

  /** An action known by its text gains the hosts; another is taken over as it is. */
  method MergeAction(merged: map<string, Action>, order: seq<Action>, action: Action)
    returns (merged': map<string, Action>, order': seq<Action>)
    requires Indexed(merged, order) && action !in order
    modifies order
    ensures Indexed(merged', order') && forall x :: x in order' ==> x in order || x == action
    ensures Views(order') == Merge(old(Views(order)), old(action.View()))
  {
    merged', order' := merged, order;
    ghost var before := Views(order);
    MergeOne(merged, order, action.action);
    if action.action in merged {
      var existing := merged[action.action];
      existing.hosts := existing.hosts + action.hosts;
      ghost var i := IndexOf(before, action.action).value;
      forall k | 0 <= k < |order| && k != i ensures order[k].View() == before[k] {
        assert order[k] != existing;
      }
      assert Views(order') == before[i := order[i].View()];
    } else {
      merged', order' := merged[action.action := action], order + [action];
      assert Views(order') == before + [action.View()];
    }
  }

  lemma MergeOne(merged: map<string, Action>, order: seq<Action>, action: string)
    requires Indexed(merged, order)
    ensures match IndexOf(Views(order), action)
            case None => action !in merged
            case Some(i) => i < |order| && action in merged && merged[action] == order[i]
  {
    IndexOfFinds(Views(order), action);
    if action in merged {
      var i :| 0 <= i < |order| && order[i] == merged[action];
      assert Views(order)[i].action == action;
    }
  }

  /** One finding's actions, merged one by one. */
  method MergeActions(merged: map<string, Action>, order: seq<Action>, actions: seq<Action>)
    returns (merged': map<string, Action>, order': seq<Action>)
    requires Indexed(merged, order) && Distinct(actions) && forall x :: x in actions ==> x !in order
    modifies order, actions
    ensures Indexed(merged', order') && forall x :: x in order' ==> x in order || x in actions
    ensures Views(order') == MergeAll(old(Views(order)), old(Views(actions)))
  {
    hide Merge, IndexOf;
    merged', order' := merged, order;
    ghost var before, items := Views(order), Views(actions);
    assert items[0..] == items;
    for n := 0 to |actions|
      invariant Indexed(merged', order')
      invariant forall x :: x in order' ==> x in order || x in actions[..n]
      invariant forall k :: n <= k < |actions| ==> actions[k].View() == items[k] && actions[k] !in order'
      invariant MergeAll(Views(order'), items[n..]) == MergeAll(before, items)
    {
      assert items[n..][1..] == items[n + 1..];
      ghost var was := order';
      merged', order' := MergeAction(merged', order', actions[n]);
      forall k | n + 1 <= k < |actions| ensures actions[k] !in order' {
        assert actions[k] !in was && actions[k] != actions[n];
      }
      assert actions[..n + 1] == actions[..n] + [actions[n]];
    }
  }

  method Tidy(order: seq<Action>)
    requires Distinct(order)
    modifies order
    ensures Views(order) == Tidied(old(Views(order)))
  {
    ghost var items := Views(order);
    for n := 0 to |order|
      invariant forall k :: 0 <= k < n ==> order[k].View() == items[k].(hosts := SortedSet(items[k].hosts))
      invariant forall k :: n <= k < |order| ==> order[k].View() == items[k]
    {
      order[n].hosts := SortedSet(order[n].hosts);
    }
    assert Views(order) == Tidied(items);
  }

  method Consolidate(rules: Rules, findings: seq<Finding>) returns (actions: seq<Action>)
    ensures Views(actions) == Consolidated(rules, findings)
    ensures Distinct(actions) && fresh(actions)
  {
    hide SortBy, Merge, Tidied, ItemsFor;
    var merged: map<string, Action> := map[];
    var order: seq<Action> := [];
    assert findings[0..] == findings && Views(order) == [];
    for n := 0 to |findings|
      invariant Indexed(merged, order) && fresh(order)
      invariant MergeAll(Views(order), Everything(rules, findings[n..])) == MergeAll([], Everything(rules, findings))
    {
      assert findings[n..][1..] == findings[n + 1..];
      var found := ActionsFor(rules, findings[n]);
      MergeAllAppend(Views(order), Views(found), Everything(rules, findings[n + 1..]));
      assert fresh(order) && fresh(found);
      merged, order := MergeActions(merged, order, found);
    }
    assert Distinct(order);
    Tidy(order);
    actions := SortActions(order);
    SameObjects(order, actions);
    assert forall i :: 0 <= i < |actions| ==> actions[i] in order;
  }

  lemma {:induction false} MergeAllAppend(items: seq<Item>, a: seq<Item>, b: seq<Item>)
    ensures MergeAll(items, a + b) == MergeAll(MergeAll(items, a), b)
    decreases a
  {
    if a == [] {
      assert a + b == b;
    } else {
      assert (a + b)[1..] == a[1..] + b;
      MergeAllAppend(Merge(items, a[0]), a[1..], b);
    }
  }
}
