/**
 * Choosing agents for an endpoint (rpc_chioces, _exclud_filter, _sort_by_weigher and
 * iter_value in goperation/manager/rpc/server/__init__.py).
 */
module AgentChoice {
  import opened Wrappers
  import opened Includes

  datatype Verdict = Holds | Fails | Raises(error: Error)

  /** What the operators mean on the values of the language: any function will do. */
  type Operators = (Operator, Value, Value) -> Verdict

  // ---- looking up a value ----

  /** Err: iter_value raised; Ok(None): it returned NOTFOUND. */
  type Lookup = Result<Option<Value>, Error>

  function Find(d: Value, keys: Key): Lookup {
    if keys == [] then Ok(Some(d))
    else match d
      case NoneValue => Err(InvalidArgument)
      case Dict(entries) => if keys[0] in entries then Find(entries[keys[0]], keys[1..]) else Ok(None)
      case _ => Err(AttributeError)
  }

  method IterValue(d: Value, keys: Key) returns (r: Lookup)
    ensures r == Find(d, keys)
  {
    var value := d;
    for i := 0 to |keys|
      invariant Find(d, keys) == Find(value, keys[i..])
    {
      match value
      case NoneValue => return Err(InvalidArgument);
      case Dict(entries) =>
        if keys[i] !in entries {
          return Ok(None);
        }
        value := entries[keys[i]];
      case _ => return Err(AttributeError);
    }
    return Ok(Some(value));
  }

  /** One part of a key leads from a dict to what it holds under that part. */
  ghost predicate Enters(d: Value, part: string, v: Value) {
    d.Dict? && part in d.entries && d.entries[part] == v
  }

  ghost predicate IsPath(d: Value, parts: Key, v: Value, path: seq<Value>) {
    && |path| == |parts| + 1 && path[0] == d && path[|parts|] == v
    && forall i | 0 <= i < |parts| :: Enters(path[i], parts[i], path[i + 1])
  }

  /** Following the parts of a key leads from d to v. */
  ghost predicate Leads(d: Value, parts: Key, v: Value) {
    exists path :: IsPath(d, parts, v, path)
  }

  lemma LeadsNowhere(d: Value, v: Value)
    ensures Leads(d, [], v) <==> d == v
  {
    if d == v {
      assert IsPath(d, [], v, [d]);
    }
  }

  lemma LeadsOn(d: Value, parts: Key, v: Value)
    requires parts != []
    ensures Leads(d, parts, v) <==>
              d.Dict? && parts[0] in d.entries && Leads(d.entries[parts[0]], parts[1..], v)
  {
    if path :| IsPath(d, parts, v, path) {
      assert Enters(path[0], parts[0], path[1]);
      var rest := path[1..];
      forall i | 0 <= i < |parts[1..]| ensures Enters(rest[i], parts[1..][i], rest[i + 1]) {
        assert Enters(path[i + 1], parts[i + 1], path[i + 2]);
      }
      assert IsPath(path[1], parts[1..], v, rest);
    }
    if d.Dict? && parts[0] in d.entries && Leads(d.entries[parts[0]], parts[1..], v) {
      var rest :| IsPath(d.entries[parts[0]], parts[1..], v, rest);
      var path := [d] + rest;
      forall i | 0 <= i < |parts| ensures Enters(path[i], parts[i], path[i + 1]) {
        if i > 0 {
          assert Enters(rest[i - 1], parts[1..][i - 1], rest[i]);
        }
      }
      assert IsPath(d, parts, v, path);
    }
  }

  /** On the way there is a value that is not a dict: None, or another one. */
  ghost predicate Breaks(d: Value, parts: Key, none: bool) {
    exists i: nat, v :: BreaksAt(d, parts, i, v) && v.NoneValue? == none
  }

  ghost predicate BreaksAt(d: Value, parts: Key, i: nat, v: Value) {
    i < |parts| && Leads(d, parts[..i], v) && !v.Dict?
  }

  lemma BreaksOn(d: Value, parts: Key, none: bool)
    requires parts != [] && d.Dict?
    ensures Breaks(d, parts, none) <==> parts[0] in d.entries && Breaks(d.entries[parts[0]], parts[1..], none)
  {
    hide Leads;
    if i: nat, v :| BreaksAt(d, parts, i, v) && v.NoneValue? == none {
      LeadsNowhere(d, v);
      assert parts[..0] == [];
      assert i > 0;
      LeadsOn(d, parts[..i], v);
      assert parts[..i][1..] == parts[1..][..i - 1];
      assert BreaksAt(d.entries[parts[0]], parts[1..], i - 1, v);
    }
    if parts[0] in d.entries && Breaks(d.entries[parts[0]], parts[1..], none) {
      var i: nat, v :| BreaksAt(d.entries[parts[0]], parts[1..], i, v) && v.NoneValue? == none;
      assert parts[..i + 1][1..] == parts[1..][..i];
      LeadsOn(d, parts[..i + 1], v);
      assert BreaksAt(d, parts, i + 1, v);
    }
  }

  lemma BreaksHere(d: Value, parts: Key, none: bool)
    requires parts != [] && !d.Dict?
    ensures Breaks(d, parts, none) <==> d.NoneValue? == none
  {
    if i: nat, v :| BreaksAt(d, parts, i, v) && v.NoneValue? == none {
      if i == 0 {
        assert parts[..0] == [];
        LeadsNowhere(d, v);
      } else {
        LeadsOn(d, parts[..i], v);
      }
    }
    LeadsNowhere(d, d);
    assert parts[..0] == [];
    assert BreaksAt(d, parts, 0, d);
  }

  /** What the lookup of a key finds: the value it leads to; it raises exactly at a value that is no dict. */
  lemma {:induction false} FindMeaning(d: Value, parts: Key, v: Value)
    ensures Find(d, parts) == Ok(Some(v)) <==> Leads(d, parts, v)
    ensures Find(d, parts) == Err(InvalidArgument) <==> Breaks(d, parts, true)
    ensures Find(d, parts) == Err(AttributeError) <==> Breaks(d, parts, false)
    ensures Find(d, parts).Err? ==> Find(d, parts).error in {InvalidArgument, AttributeError}
    decreases |parts|
  {
    if parts == [] {
      LeadsNowhere(d, v);
    } else {
      LeadsOn(d, parts, v);
      if d.Dict? {
        BreaksOn(d, parts, true);
        BreaksOn(d, parts, false);
        if parts[0] in d.entries {
          FindMeaning(d.entries[parts[0]], parts[1..], v);
        }
      } else {
        BreaksHere(d, parts, true);
        BreaksHere(d, parts, false);
      }
      hide Leads, Breaks;
    }
  }

  // ---- the include filter ----

  /** None is compared as the text None. */
  function Comparable(v: Value): Value {
    if v.NoneValue? then Text("None") else v
  }

  /** A clause without a key leaves nothing to split. */
  function Target(loads: Value, c: Clause): Lookup {
    if c.target == [] then Err(AttributeError) else Find(loads, c.target)
  }

  function Judge(ops: Operators, loads: Value, c: Clause): Verdict {
    match Target(loads, c)
    case Err(e) => Raises(e)
    case Ok(None) => Fails
    case Ok(Some(v)) => ops(c.operator, Comparable(v), c.baseline)
  }

  /** The verdict on clauses that are tried in this order until one does not hold. */
  function FirstVerdict(ops: Operators, loads: Value, clauses: seq<Clause>): Verdict {
    if clauses == [] then Holds
    else
      var v := Judge(ops, loads, clauses[0]);
      if v.Holds? then FirstVerdict(ops, loads, clauses[1..]) else v
  }

  ghost predicate AllHold(ops: Operators, loads: Value, clauses: seq<Clause>) {
    forall c :: c in clauses ==> Judge(ops, loads, c).Holds?
  }

  lemma {:induction false} FirstVerdictMeaning(ops: Operators, loads: Value, clauses: seq<Clause>)
    ensures FirstVerdict(ops, loads, clauses).Holds? <==> AllHold(ops, loads, clauses)
  {
    if clauses != [] {
      FirstVerdictMeaning(ops, loads, clauses[1..]);
      assert clauses == [clauses[0]] + clauses[1..];
    }
  }

  lemma {:induction false} FirstVerdictAppends(ops: Operators, loads: Value, a: seq<Clause>, b: seq<Clause>)
    ensures FirstVerdict(ops, loads, a + b)
         == if FirstVerdict(ops, loads, a).Holds? then FirstVerdict(ops, loads, b) else FirstVerdict(ops, loads, a)
  {
    if a == [] {
      assert a + b == b;
    } else {
      assert (a + b)[1..] == a[1..] + b;
      FirstVerdictAppends(ops, loads, a[1..], b);
    }
  }

  lemma {:induction false} MatchingMembers(clauses: seq<Clause>, key: Key)
    ensures forall c :: c in Matching(clauses, key) <==> c in clauses && c.target == key
  {
    if clauses != [] {
      MatchingMembers(clauses[..|clauses| - 1], key);
      assert clauses == clauses[..|clauses| - 1] + [clauses[|clauses| - 1]];
    }
  }

  /** The clauses in the order in which the filter tries them, if the keys come in this order. */
  function Tried(clauses: seq<Clause>, order: seq<Key>): seq<Clause> {
    if order == [] then []
    else Tried(clauses, order[..|order| - 1]) + Matching(clauses, order[|order| - 1])
  }

  /** An order in which the keys of the dict of grouped clauses may come. */
  ghost predicate IsOrder(clauses: seq<Clause>, order: seq<Key>) {
    && (forall k :: k in order <==> Matching(clauses, k) != [])
    && (forall i, j :: 0 <= i < j < |order| ==> order[i] != order[j])
  }

  lemma {:induction false} TriedMembers(clauses: seq<Clause>, order: seq<Key>, c: Clause)
    ensures c in Tried(clauses, order) <==> c in clauses && c.target in order
  {
    if order != [] {
      var front, last := order[..|order| - 1], order[|order| - 1];
      TriedMembers(clauses, front, c);
      MatchingMembers(clauses, last);
      assert order == front + [last];
    }
  }

  /** Whatever order the keys come in, an agent passes exactly if all clauses hold. */
  lemma TriedMeaning(ops: Operators, loads: Value, clauses: seq<Clause>, order: seq<Key>)
    requires IsOrder(clauses, order)
    ensures FirstVerdict(ops, loads, Tried(clauses, order)).Holds? <==> AllHold(ops, loads, clauses)
  {
    FirstVerdictMeaning(ops, loads, Tried(clauses, order));
    forall c ensures c in Tried(clauses, order) <==> c in clauses {
      TriedMembers(clauses, order, c);
      MatchingMembers(clauses, c.target);
      assert c in clauses ==> c in Matching(clauses, c.target);
    }
  }

  lemma {:induction false} TriedSplits(clauses: seq<Clause>, order: seq<Key>, i: nat) returns (rest: seq<Clause>)
    requires i < |order|
    ensures Tried(clauses, order) == Tried(clauses, order[..i + 1]) + rest
    ensures Tried(clauses, order[..i + 1]) == Tried(clauses, order[..i]) + Matching(clauses, order[i])
    decreases |order|
  {
    assert order[..i + 1][..i] == order[..i];
    if i + 1 == |order| {
      assert order[..i + 1] == order;
      rest := [];
    } else {
      var front := order[..|order| - 1];
      rest := TriedSplits(clauses, front, i);
      rest := rest + Matching(clauses, order[|order| - 1]);
      assert front[..i + 1] == order[..i + 1];
    }
  }

  method JudgeOne(ops: Operators, loads: Value, c: Clause) returns (v: Verdict)
    ensures v == Judge(ops, loads, c)
  {
    if c.target == [] {
      return Raises(AttributeError);
    }
    var value := IterValue(loads, c.target);
    match value
    case Err(e) => return Raises(e);
    case Ok(None) => return Fails;
    case Ok(Some(found)) => return ops(c.operator, Comparable(found), c.baseline);
  }

  /** The innermost loop of the filter: the clauses on one key, until one does not hold. */
  method JudgeGroup(ops: Operators, loads: Value, baselines: seq<Clause>) returns (v: Verdict)
    ensures v == FirstVerdict(ops, loads, baselines)
  {
    for j := 0 to |baselines|
      invariant FirstVerdict(ops, loads, baselines) == FirstVerdict(ops, loads, baselines[j..])
    {
      v := JudgeOne(ops, loads, baselines[j]);
      if !v.Holds? {
        return v;
      }
    }
    return Holds;
  }

  /** The loop of the filter over the keys, for one agent. */
  method Included(ops: Operators, loads: Value, groups: Groups, order: seq<Key>, ghost clauses: seq<Clause>)
    returns (r: Result<bool, Error>)
    requires IsGrouping(groups, clauses) && IsOrder(clauses, order)
    ensures match FirstVerdict(ops, loads, Tried(clauses, order))
            case Holds => r == Ok(order != [])
            case Fails => r == Ok(false)
            case Raises(e) => r == Err(e)
  {
    hide FirstVerdict, Tried, Matching;
    var included := false;
    TriedNothing(ops, loads, clauses);
    for i := 0 to |order|
      invariant included <==> i > 0
      invariant FirstVerdict(ops, loads, Tried(clauses, order[..i])).Holds?
    {
      assert order[i] in order;
      var v := JudgeGroup(ops, loads, groups[order[i]]);
      ghost var rest := TriedSplits(clauses, order, i);
      FirstVerdictAppends(ops, loads, Tried(clauses, order[..i]), groups[order[i]]);
      FirstVerdictAppends(ops, loads, Tried(clauses, order[..i + 1]), rest);
      included := true;
      match v
      case Raises(e) => return Err(e);
      case Fails => return Ok(false);
      case Holds =>
    }
    assert order[..|order|] == order;
    return Ok(included);
  }

  lemma TriedNothing(ops: Operators, loads: Value, clauses: seq<Clause>)
    ensures FirstVerdict(ops, loads, Tried(clauses, [])).Holds?
  {
  }

  /**
   * The agent reports a value under the key of the clause that is in relation to the baseline;
   * None counts as the text None.
   */
  ghost predicate Satisfies(ops: Operators, loads: Value, c: Clause) {
    c.target != [] && exists v :: Leads(loads, c.target, v) && Compares(ops, v, c, Holds)
  }

  ghost predicate Compares(ops: Operators, v: Value, c: Clause, verdict: Verdict) {
    ops(c.operator, if v == NoneValue then Text("None") else v, c.baseline) == verdict
  }

  /** The clause raises: its key is missing, or leads through a value that is no dict, or the comparison raises. */
  ghost predicate ClauseRaises(ops: Operators, loads: Value, c: Clause) {
    || c.target == [] || Breaks(loads, c.target, true) || Breaks(loads, c.target, false)
    || exists v, e :: Leads(loads, c.target, v) && Compares(ops, v, c, Raises(e))
  }

  lemma JudgeMeaning(ops: Operators, loads: Value, c: Clause)
    ensures Judge(ops, loads, c).Holds? <==> Satisfies(ops, loads, c)
    ensures Judge(ops, loads, c).Raises? <==> ClauseRaises(ops, loads, c)
  {
    forall v ensures Leads(loads, c.target, v) <==> Find(loads, c.target) == Ok(Some(v)) {
      FindMeaning(loads, c.target, v);
    }
    FindMeaning(loads, c.target, NoneValue);
    hide Find, Leads, Breaks;
    if c.target != [] && Find(loads, c.target).Ok? && Find(loads, c.target).value.Some? {
      var v := Find(loads, c.target).value.value;
      assert Compares(ops, v, c, Judge(ops, loads, c));
    }
  }

  lemma AllHoldMeaning(ops: Operators, loads: Value, clauses: seq<Clause>)
    ensures AllHold(ops, loads, clauses) <==> forall c :: c in clauses ==> Satisfies(ops, loads, c)
  {
    forall c ensures Judge(ops, loads, c).Holds? <==> Satisfies(ops, loads, c) {
      JudgeMeaning(ops, loads, c);
    }
    hide Judge, Satisfies;
  }

  // ---- filtering the list ----

  /** So are the agents of the query: an endpoint and an agent are unique together. */
  ghost predicate AllDistinct(s: seq<nat>) {
    forall i, j :: 0 <= i < j < |s| ==> s[i] != s[j]
  }

  function RemoveFirst(s: seq<nat>, a: nat): seq<nat> {
    if s == [] then [] else if s[0] == a then s[1..] else [s[0]] + RemoveFirst(s[1..], a)
  }

  /** The agents of s that are not removed, in the order of s. */
  function Without(s: seq<nat>, removed: set<nat>): seq<nat> {
    if s == [] then []
    else if s[0] in removed then Without(s[1..], removed)
    else [s[0]] + Without(s[1..], removed)
  }

  lemma {:induction false} WithoutMembers(s: seq<nat>, removed: set<nat>)
    ensures forall a :: a in Without(s, removed) <==> a in s && a !in removed
  {
    if s != [] {
      WithoutMembers(s[1..], removed);
      assert s == [s[0]] + s[1..];
    }
  }

  lemma {:induction false} WithoutDistinct(s: seq<nat>, removed: set<nat>)
    requires AllDistinct(s)
    ensures AllDistinct(Without(s, removed))
  {
    if s != [] {
      WithoutDistinct(s[1..], removed);
      WithoutMembers(s[1..], removed);
    }
  }

  lemma {:induction false} WithoutNone(s: seq<nat>)
    ensures Without(s, {}) == s
  {
    if s != [] {
      WithoutNone(s[1..]);
    }
  }

  lemma {:induction false} WithoutOneMore(s: seq<nat>, removed: set<nat>, a: nat)
    requires AllDistinct(s) && a in s && a !in removed
    ensures RemoveFirst(Without(s, removed), a) == Without(s, removed + {a})
  {
    if s[0] == a {
      WithoutSame(s[1..], removed, a);
    } else {
      assert s == [s[0]] + s[1..];
      WithoutOneMore(s[1..], removed, a);
      var more := Without(s[1..], removed);
      assert ([s[0]] + more)[1..] == more;
    }
  }

  lemma {:induction false} WithoutSame(s: seq<nat>, removed: set<nat>, a: nat)
    requires a !in s
    ensures Without(s, removed) == Without(s, removed + {a})
  {
    if s != [] {
      WithoutSame(s[1..], removed, a);
    }
  }

  /** What the agents report, by agent. */
  type Loads = map<nat, Value>

  /** The filter raises for an agent: of the clauses in this order, the first that does not hold raises. */
  ghost predicate RaisesFor(ops: Operators, loads: Value, clauses: seq<Clause>, order: seq<Key>) {
    FirstVerdict(ops, loads, Tried(clauses, order)).Raises?
  }

  /** The agents for which some clause does not hold; all of them, if there is no clause. */
  ghost function Rejected(ops: Operators, loads: Loads, clauses: seq<Clause>, choices: seq<nat>): set<nat> {
    set a | a in choices && a in loads && (clauses == [] || !AllHold(ops, loads[a], clauses))
  }

  lemma OrderEmpty(clauses: seq<Clause>, order: seq<Key>)
    requires IsOrder(clauses, order)
    ensures order == [] <==> clauses == []
  {
    if clauses != [] {
      MatchingMembers(clauses, clauses[0].target);
      assert clauses[0] in Matching(clauses, clauses[0].target);
    }
    assert clauses == [] ==> forall k :: Matching(clauses, k) == [];
    assert |order| > 0 ==> order[0] in order;
  }

  ghost predicate SomeRaises(ops: Operators, loads: Loads, clauses: seq<Clause>, order: seq<Key>, s: seq<nat>) {
    exists a :: a in s && a in loads && RaisesFor(ops, loads[a], clauses, order)
  }

  lemma RaisesStep(ops: Operators, loads: Loads, clauses: seq<Clause>, order: seq<Key>, s: seq<nat>, a: nat)
    requires a in loads
    ensures SomeRaises(ops, loads, clauses, order, s + [a]) <==>
              SomeRaises(ops, loads, clauses, order, s) || RaisesFor(ops, loads[a], clauses, order)
  {
    hide RaisesFor;
    assert a in s + [a];
  }

  /** Once it raises for one agent, it raises. */
  lemma RaisesOnce(ops: Operators, loads: Loads, clauses: seq<Clause>, order: seq<Key>, s: seq<nat>, a: nat)
    requires a in s && a in loads && RaisesFor(ops, loads[a], clauses, order)
    ensures SomeRaises(ops, loads, clauses, order, s)
  {
  }

  /** What the verdict on one agent means for it. */
  lemma VerdictMeaning(ops: Operators, loads: Value, clauses: seq<Clause>, order: seq<Key>)
    requires IsOrder(clauses, order)
    ensures var v := FirstVerdict(ops, loads, Tried(clauses, order));
            && (v.Raises? <==> RaisesFor(ops, loads, clauses, order))
            && (v.Holds? && order != [] <==> clauses != [] && AllHold(ops, loads, clauses))
  {
    OrderEmpty(clauses, order);
    TriedMeaning(ops, loads, clauses, order);
    hide FirstVerdict, Tried, AllHold, IsOrder;
  }

  /** The outer loop of the filter. */
  method CollectRemoves(ops: Operators, loads: Loads, groups: Groups, ghost clauses: seq<Clause>, order: seq<Key>,
                        choices: seq<nat>)
    returns (r: Result<set<nat>, Error>)
    requires IsGrouping(groups, clauses)
    requires IsOrder(clauses, order) && forall a :: a in choices ==> a in loads
    ensures r.Err? <==> SomeRaises(ops, loads, clauses, order, choices)
    ensures r.Ok? ==> r.value == Rejected(ops, loads, clauses, choices)
  {
    hide FirstVerdict, Tried, AllHold, Matching, IsOrder, IsGrouping, RaisesFor;
    var removes: set<nat> := {};
    RejectedNone(ops, loads, clauses);
    assert !SomeRaises(ops, loads, clauses, order, []);
    hide Rejected, SomeRaises;
    for i := 0 to |choices|
      invariant removes == Rejected(ops, loads, clauses, choices[..i])
      invariant !SomeRaises(ops, loads, clauses, order, choices[..i])
    {
      var agent := choices[i];
      var kept := Included(ops, loads[agent], groups, order, clauses);
      VerdictMeaning(ops, loads[agent], clauses, order);
      if kept.Err? {
        RaisesOnce(ops, loads, clauses, order, choices, agent);
        return Err(kept.error);
      }
      assert choices[..i + 1] == choices[..i] + [agent];
      RaisesStep(ops, loads, clauses, order, choices[..i], agent);
      RejectedStep(ops, loads, clauses, choices[..i], agent);
      if !kept.value {
        removes := removes + {agent};
      }
    }
    assert choices[..|choices|] == choices;
    return Ok(removes);
  }

  /**
   * _exclud_filter, with the keys of the grouped clauses in any order.  If it returns, the list is the agents for
   * which every clause holds, in their old order, whatever the order of the keys; which clause is met first decides
   * only whether it raises.
   */
  method ExcludeFilter(ops: Operators, loads: Loads, matcher: Matcher, includes: seq<string>, order: seq<Key>,
                       choices: seq<nat>)
    returns (r: Result<seq<nat>, Error>)
    requires IsMatcher(matcher) && (Understood(includes) ==> IsOrder(Clauses(includes), order))
    requires AllDistinct(choices) && forall a :: a in choices ==> a in loads
    ensures r.Ok? <==> Understood(includes) && !SomeRaises(ops, loads, Clauses(includes), order, choices)
    ensures r.Ok? ==> r.value == Without(choices, Rejected(ops, loads, Clauses(includes), choices))
  {
    hide Read, IsGrouping, IsOrder, SomeRaises, Rejected, Without, Clauses;
    var groups := Include(matcher, includes);
    if groups.Err? {
      return Err(groups.error);
    }
    ghost var clauses := Clauses(includes);
    var removes := CollectRemoves(ops, loads, groups.value, clauses, order, choices);
    if removes.Err? {
      return Err(removes.error);
    }
    RejectedMembers(ops, loads, clauses, choices);
    var left := RemoveAll(choices, removes.value);
    return Ok(left);
  }

  lemma RejectedMembers(ops: Operators, loads: Loads, clauses: seq<Clause>, s: seq<nat>)
    ensures forall a :: a in Rejected(ops, loads, clauses, s) ==> a in s
  {
  }

  lemma RejectedNone(ops: Operators, loads: Loads, clauses: seq<Clause>)
    ensures Rejected(ops, loads, clauses, []) == {}
  {
  }

  lemma RejectedStep(ops: Operators, loads: Loads, clauses: seq<Clause>, s: seq<nat>, a: nat)
    requires a in loads
    ensures Rejected(ops, loads, clauses, s + [a])
         == Rejected(ops, loads, clauses, s) + if clauses == [] || !AllHold(ops, loads[a], clauses) then {a} else {}
  {
    hide AllHold;
  }

  /** Removing agents from the list one by one, in any order. */
  method RemoveAll(choices: seq<nat>, removes: set<nat>) returns (left: seq<nat>)
    requires AllDistinct(choices) && forall a :: a in removes ==> a in choices
    ensures left == Without(choices, removes)
  {
    hide Without, RemoveFirst, AllDistinct;
    left := choices;
    var rest := removes;
    WithoutNone(choices);
    assert removes - rest == {};
    while rest != {}
      invariant rest <= removes && left == Without(choices, removes - rest)
      decreases rest
    {
      var a :| a in rest;
      WithoutOneMore(choices, removes - rest, a);
      assert removes - (rest - {a}) == removes - rest + {a};
      left := RemoveFirst(left, a);
      rest := rest - {a};
    }
    assert removes - rest == removes;
  }

  /** A filter of one include that is written out: what it reads, whom it keeps, and when it raises. */
  lemma OneInclude(ops: Operators, loads: Loads, key: string, op: Operator, value: string, order: seq<Key>,
                   choices: seq<nat>, a: nat)
    requires key != "" && All(key, InKey) && EndsKey(key[|key| - 1]) && IsValue(value)
    requires a in choices && a in loads
    ensures var includes := [key + Symbol(op) + value];
            && Understood(includes)
            && (a in Without(choices, Rejected(ops, loads, Clauses(includes), choices)) <==>
                  exists v :: Leads(loads[a], Split(key), v) && Keeps(ops, op, v, value))
            && (IsOrder(Clauses(includes), order) ==>
                  (RaisesFor(ops, loads[a], Clauses(includes), order) <==>
                    || Breaks(loads[a], Split(key), true) || Breaks(loads[a], Split(key), false)
                    || exists v :: Leads(loads[a], Split(key), v) && KeepingRaises(ops, op, v, value)))
  {
    var includes := [key + Symbol(op) + value];
    var c := Clause(Split(key), op, Baseline(value));
    ReadsBack(key, op, value);
    assert includes[..0] == [] && Clauses(includes[..0]) == [];
    assert Clauses(includes) == [c];
    hide Read, Split, Baseline, Symbol, Leads, Breaks;
    WithoutMembers(choices, Rejected(ops, loads, [c], choices));
    AllHoldMeaning(ops, loads[a], [c]);
    assert c in [c];
    JudgeMeaning(ops, loads[a], c);
    if IsOrder([c], order) {
      OneRaises(ops, loads[a], c, order);
    }
    OneSatisfies(ops, loads[a], c, value);
    hide Judge, FirstVerdict, Tried, IsOrder, Keeps, KeepingRaises, Satisfies, ClauseRaises;
  }

  /** v is in relation to the value that is written in the include. */
  ghost predicate Keeps(ops: Operators, op: Operator, v: Value, value: string) {
    ops(op, if v == NoneValue then Text("None") else v, Baseline(value)).Holds?
  }

  ghost predicate KeepingRaises(ops: Operators, op: Operator, v: Value, value: string) {
    ops(op, if v == NoneValue then Text("None") else v, Baseline(value)).Raises?
  }

  lemma OneSatisfies(ops: Operators, loads: Value, c: Clause, value: string)
    requires c.target != [] && c.baseline == Baseline(value)
    ensures Satisfies(ops, loads, c) <==> exists v :: Leads(loads, c.target, v) && Keeps(ops, c.operator, v, value)
    ensures ClauseRaises(ops, loads, c) <==>
              || Breaks(loads, c.target, true) || Breaks(loads, c.target, false)
              || exists v :: Leads(loads, c.target, v) && KeepingRaises(ops, c.operator, v, value)
  {
    hide Leads, Breaks, Baseline;
    if v :| Leads(loads, c.target, v) && KeepingRaises(ops, c.operator, v, value) {
      var verdict := ops(c.operator, if v == NoneValue then Text("None") else v, c.baseline);
      assert Compares(ops, v, c, Raises(verdict.error));
    }
    if v :| Leads(loads, c.target, v) && Keeps(ops, c.operator, v, value) {
      assert Compares(ops, v, c, Holds);
    }
  }

  lemma SingleOrder(order: seq<Key>, key: Key)
    requires forall k :: k in order <==> k == key
    requires |order| > 1 ==> order[0] != order[1]
    ensures order == [key]
  {
    assert key in order;
    forall i | 0 <= i < |order| ensures order[i] == key {
      assert order[i] in order;
    }
  }

  lemma OneRaises(ops: Operators, loads: Value, c: Clause, order: seq<Key>)
    requires IsOrder([c], order)
    ensures FirstVerdict(ops, loads, Tried([c], order)).Raises? <==> Judge(ops, loads, c).Raises?
  {
    assert [c][..0] == [];
    forall k ensures Matching([c], k) == if k == c.target then [c] else [] {
      assert [c][|[c]| - 1] == c;
    }
    SingleOrder(order, c.target);
    assert order[..0] == [];
    assert Tried([c], order) == [c];
    assert [c][1..] == [];
  }

  /** With a key of one part, and reports in a dict: the agent has the key, and its value is in relation to the other. */
  lemma OnePartInclude(ops: Operators, loads: Loads, key: string, op: Operator, value: string, choices: seq<nat>, a: nat)
    requires key != "" && All(key, InKey) && EndsKey(key[|key| - 1]) && '.' !in key && IsValue(value)
    requires a in choices && a in loads && loads[a].Dict?
    ensures var includes := [key + Symbol(op) + value];
            && Understood(includes)
            && (a in Without(choices, Rejected(ops, loads, Clauses(includes), choices)) <==>
                  key in loads[a].entries && Keeps(ops, op, loads[a].entries[key], value))
  {
    OneInclude(ops, loads, key, op, value, [], choices, a);
    SplitsOff(key, "");
    forall v ensures Leads(loads[a], [key], v) <==> key in loads[a].entries && v == loads[a].entries[key] {
      LeadsOn(loads[a], [key], v);
      assert [key][1..] == [];
      if key in loads[a].entries {
        LeadsNowhere(loads[a].entries[key], v);
      }
    }
    hide Leads, Breaks, Split, Keeps, Read, Clauses, Rejected, Without;
  }

  // ---- sorting by weight ----

  /** A weighter: a key, and what its value is divided by; 0 for not at all. */
  datatype Weighter = Weighter(target: Key, divisor: int)

  /** Python's division of integers rounds down. */
  function FloorDiv(n: int, d: int): int
    requires d != 0
  {
    if d > 0 then n / d else (-n) / (-d)
  }

  function Bucket(n: int, divisor: int): int {
    if divisor == 0 then n else FloorDiv(n, divisor)
  }

  /** n is at least as good as m: small is good, unless the divisor is negative. */
  predicate AsGood(n: int, m: int, divisor: int) {
    if divisor < 0 then n >= m else n <= m
  }

  lemma DivideMonotone(n: int, m: int, d: int)
    requires d > 0 && n <= m
    ensures n / d <= m / d
  {
    var q, r := n / d, m / d;
    assert r + 1 <= q ==> d * (r + 1) <= d * q;
  }

  /** Bucketing never turns better into worse. */
  lemma BucketMonotone(n: int, m: int, divisor: int)
    requires AsGood(n, m, divisor)
    ensures Bucket(n, divisor) <= Bucket(m, divisor)
  {
    if divisor > 0 {
      DivideMonotone(n, m, divisor);
    } else if divisor < 0 {
      DivideMonotone(-n, -m, -divisor);
    }
  }

  /** The order of Python's lists. */
  predicate ListLe(a: seq<int>, b: seq<int>) {
    a == [] || (b != [] && (a[0] < b[0] || (a[0] == b[0] && ListLe(a[1..], b[1..]))))
  }

  lemma {:induction false} ListLeTotal(a: seq<int>, b: seq<int>)
    ensures ListLe(a, b) || ListLe(b, a)
  {
    if a != [] && b != [] {
      ListLeTotal(a[1..], b[1..]);
    }
  }

  lemma {:induction false} ListLeTransitive(a: seq<int>, b: seq<int>, c: seq<int>)
    requires ListLe(a, b) && ListLe(b, c)
    ensures ListLe(a, c)
  {
    if a != [] && a[0] == b[0] && b[0] == c[0] {
      ListLeTransitive(a[1..], b[1..], c[1..]);
    }
  }

  lemma {:induction false} ListLeAntisymmetric(a: seq<int>, b: seq<int>)
    requires ListLe(a, b) && ListLe(b, a)
    ensures a == b
  {
    if a != [] && b != [] {
      ListLeAntisymmetric(a[1..], b[1..]);
      assert a == [a[0]] + a[1..] && b == [b[0]] + b[1..];
    }
  }

  lemma {:induction false} PointwiseLe(a: seq<int>, b: seq<int>)
    requires |a| == |b| && forall i :: 0 <= i < |a| ==> a[i] <= b[i]
    ensures ListLe(a, b)
  {
    if a != [] {
      PointwiseLe(a[1..], b[1..]);
    }
  }

  type Keys = map<nat, seq<int>>

  predicate Keyed(s: seq<nat>, keys: Keys) {
    forall a :: a in s ==> a in keys
  }

  /** x before the first agent that is not smaller. */
  function Insert(x: nat, s: seq<nat>, keys: Keys): seq<nat>
    requires x in keys && Keyed(s, keys)
  {
    if s == [] then [x]
    else if ListLe(keys[x], keys[s[0]]) then [x] + s
    else
      assert s == [s[0]] + s[1..];
      [s[0]] + Insert(x, s[1..], keys)
  }

  /** list.sort by these keys, which keeps the order of agents with equal keys. */
  function SortBy(s: seq<nat>, keys: Keys): (r: seq<nat>)
    requires Keyed(s, keys)
    ensures multiset(r) == multiset(s) && Keyed(r, keys)
  {
    if s == [] then []
    else
      assert s == [s[0]] + s[1..];
      var r := SortBy(s[1..], keys);
      InsertPermutes(s[0], r, keys);
      Insert(s[0], r, keys)
  }

  lemma {:induction false} InsertPermutes(x: nat, s: seq<nat>, keys: Keys)
    requires x in keys && Keyed(s, keys)
    ensures multiset(Insert(x, s, keys)) == multiset(s) + multiset{x}
    ensures forall a :: a in Insert(x, s, keys) <==> a in s || a == x
  {
    if s != [] {
      assert s == [s[0]] + s[1..];
      if !ListLe(keys[x], keys[s[0]]) {
        InsertPermutes(x, s[1..], keys);
      }
    }
  }

  ghost predicate Sorted(s: seq<nat>, keys: Keys)
    requires Keyed(s, keys)
  {
    forall i, j :: 0 <= i < j < |s| ==> ListLe(keys[s[i]], keys[s[j]])
  }

  lemma SortedCons(x: nat, s: seq<nat>, keys: Keys)
    requires x in keys && Keyed(s, keys) && Sorted(s, keys)
    requires forall a :: a in s ==> ListLe(keys[x], keys[a])
    ensures Keyed([x] + s, keys) && Sorted([x] + s, keys)
  {
    hide ListLe;
  }

  lemma SortedTail(s: seq<nat>, keys: Keys)
    requires s != [] && Keyed(s, keys) && Sorted(s, keys)
    ensures Keyed(s[1..], keys) && Sorted(s[1..], keys)
    ensures forall a :: a in s[1..] ==> ListLe(keys[s[0]], keys[a])
  {
    hide ListLe;
    forall a | a in s[1..] ensures ListLe(keys[s[0]], keys[a]) {
      var k :| 0 <= k < |s[1..]| && s[1..][k] == a;
      assert s[k + 1] == a;
    }
  }

  lemma {:induction false} InsertSorted(x: nat, s: seq<nat>, keys: Keys)
    requires x in keys && Keyed(s, keys) && Sorted(s, keys)
    ensures Keyed(Insert(x, s, keys), keys) && Sorted(Insert(x, s, keys), keys)
  {
    InsertPermutes(x, s, keys);
    if s != [] {
      hide Sorted, ListLe;
      assert s == [s[0]] + s[1..];
      SortedTail(s, keys);
      if ListLe(keys[x], keys[s[0]]) {
        forall a | a in s ensures ListLe(keys[x], keys[a]) {
          if a != s[0] {
            ListLeTransitive(keys[x], keys[s[0]], keys[a]);
          }
        }
        SortedCons(x, s, keys);
      } else {
        ListLeTotal(keys[x], keys[s[0]]);
        InsertSorted(x, s[1..], keys);
        InsertPermutes(x, s[1..], keys);
        SortedCons(s[0], Insert(x, s[1..], keys), keys);
      }
    } else {
      assert Insert(x, s, keys) == [x];
    }
  }

  lemma {:induction false} SortBySorted(s: seq<nat>, keys: Keys)
    requires Keyed(s, keys)
    ensures Sorted(SortBy(s, keys), keys)
  {
    if s != [] {
      assert s == [s[0]] + s[1..];
      SortBySorted(s[1..], keys);
      InsertSorted(s[0], SortBy(s[1..], keys), keys);
    }
  }

  function IfKey(x: nat, keys: Keys, key: seq<int>): seq<nat>
    requires x in keys
  {
    if keys[x] == key then [x] else []
  }

  /** The agents of s with this key, in the order of s. */
  function WithKey(s: seq<nat>, keys: Keys, key: seq<int>): seq<nat>
    requires Keyed(s, keys)
  {
    if s == [] then []
    else
      assert s == [s[0]] + s[1..];
      IfKey(s[0], keys, key) + WithKey(s[1..], keys, key)
  }

  lemma WithKeyCons(x: nat, s: seq<nat>, keys: Keys, key: seq<int>)
    requires x in keys && Keyed(s, keys)
    ensures Keyed([x] + s, keys) && WithKey([x] + s, keys, key) == IfKey(x, keys, key) + WithKey(s, keys, key)
  {
    assert ([x] + s)[1..] == s;
  }

  /** Agents with different keys are not both in the list of one key. */
  lemma DifferentKeys(x: nat, y: nat, keys: Keys, key: seq<int>, w: seq<nat>)
    requires x in keys && y in keys && keys[x] != keys[y]
    ensures IfKey(y, keys, key) + (IfKey(x, keys, key) + w) == IfKey(x, keys, key) + (IfKey(y, keys, key) + w)
  {
    if keys[x] == key {
      assert IfKey(y, keys, key) == [];
    } else {
      assert [] + w == w && [] + (IfKey(y, keys, key) + w) == IfKey(y, keys, key) + w;
    }
  }

  lemma {:induction false} InsertStable(x: nat, s: seq<nat>, keys: Keys, key: seq<int>)
    requires x in keys && Keyed(s, keys)
    ensures Keyed(Insert(x, s, keys), keys)
    ensures WithKey(Insert(x, s, keys), keys, key) == IfKey(x, keys, key) + WithKey(s, keys, key)
  {
    InsertPermutes(x, s, keys);
    hide WithKey, ListLe, IfKey;
    if s == [] || ListLe(keys[x], keys[s[0]]) {
      WithKeyCons(x, s, keys, key);
      assert Insert(x, s, keys) == [x] + s;
    } else {
      ListLeReflexive(keys[x]);
      assert s == [s[0]] + s[1..];
      InsertStable(x, s[1..], keys, key);
      WithKeyCons(s[0], s[1..], keys, key);
      WithKeyCons(s[0], Insert(x, s[1..], keys), keys, key);
      DifferentKeys(x, s[0], keys, key, WithKey(s[1..], keys, key));
    }
  }

  lemma {:induction false} ListLeReflexive(a: seq<int>)
    ensures ListLe(a, a)
  {
    if a != [] {
      ListLeReflexive(a[1..]);
    }
  }

  /** Sorting keeps the agents of any one key in their order. */
  lemma {:induction false} SortByStable(s: seq<nat>, keys: Keys, key: seq<int>)
    requires Keyed(s, keys)
    ensures WithKey(SortBy(s, keys), keys, key) == WithKey(s, keys, key)
  {
    if s != [] {
      assert s == [s[0]] + s[1..];
      SortByStable(s[1..], keys, key);
      InsertStable(s[0], SortBy(s[1..], keys), keys, key);
    }
  }

  /** b comes somewhere before a in s. */
  ghost predicate Precedes(s: seq<nat>, b: nat, a: nat) {
    exists i, j :: 0 <= i < j < |s| && s[i] == b && s[j] == a
  }

  lemma PrecedesCons(x: nat, s: seq<nat>, b: nat, a: nat)
    ensures Precedes([x] + s, b, a) <==> (x == b && a in s) || Precedes(s, b, a)
  {
    var t := [x] + s;
    assert forall i :: 0 <= i < |s| ==> s[i] == t[i + 1];
    if x == b && a in s {
      var j :| 0 <= j < |s| && s[j] == a;
      assert t[0] == b && t[j + 1] == a;
    }
    if Precedes(s, b, a) {
      var i, j :| 0 <= i < j < |s| && s[i] == b && s[j] == a;
      assert t[i + 1] == b && t[j + 1] == a;
    }
    if Precedes(t, b, a) {
      var i, j :| 0 <= i < j < |t| && t[i] == b && t[j] == a;
      assert s[j - 1] == a;
    }
  }

  lemma {:induction false} WithKeyPrecedes(s: seq<nat>, keys: Keys, b: nat, a: nat)
    requires Keyed(s, keys) && a in keys && b in keys && keys[a] == keys[b]
    ensures Precedes(WithKey(s, keys, keys[a]), b, a) <==> Precedes(s, b, a)
    ensures a in WithKey(s, keys, keys[a]) <==> a in s
  {
    if s != [] {
      assert s == [s[0]] + s[1..];
      WithKeyPrecedes(s[1..], keys, b, a);
      PrecedesCons(s[0], s[1..], b, a);
      PrecedesCons(s[0], WithKey(s[1..], keys, keys[a]), b, a);
      hide Precedes;
      if keys[s[0]] != keys[a] {
        assert WithKey(s, keys, keys[a]) == WithKey(s[1..], keys, keys[a]);
      }
    }
  }

  /** The sort key of an agent. */
  function Weight(loads: Value, weighters: seq<Weighter>): Result<seq<int>, Error> {
    if weighters == [] then Ok([])
    else
      var last := weighters[|weighters| - 1];
      match Weight(loads, weighters[..|weighters| - 1])
      case Err(e) => Err(e)
      case Ok(front) =>
        match Find(loads, last.target)
        case Err(e) => Err(e)
        case Ok(None) => Err(InvalidArgument)
        case Ok(Some(v)) => if v.Int? then Ok(front + [Bucket(v.n, last.divisor)]) else Err(NotNumber)
  }

  method WeightOf(loads: Value, weighters: seq<Weighter>) returns (r: Result<seq<int>, Error>)
    ensures r == Weight(loads, weighters)
  {
    var sorts := [];
    for i := 0 to |weighters|
      invariant Weight(loads, weighters[..i]) == Ok(sorts)
    {
      assert weighters[..i + 1][..i] == weighters[..i];
      var value := IterValue(loads, weighters[i].target);
      match value
      case Err(e) =>
        WeightFails(loads, weighters, i + 1);
        return Err(e);
      case Ok(None) =>
        WeightFails(loads, weighters, i + 1);
        return Err(InvalidArgument);
      case Ok(Some(v)) =>
        if !v.Int? {
          WeightFails(loads, weighters, i + 1);
          return Err(NotNumber);
        }
        sorts := sorts + [Bucket(v.n, weighters[i].divisor)];
    }
    assert weighters[..|weighters|] == weighters;
    return Ok(sorts);
  }

  lemma {:induction false} WeightFails(loads: Value, weighters: seq<Weighter>, i: nat)
    requires i <= |weighters| && Weight(loads, weighters[..i]).Err?
    ensures Weight(loads, weighters) == Weight(loads, weighters[..i])
    decreases |weighters|
  {
    if i < |weighters| {
      var front := weighters[..|weighters| - 1];
      assert front[..i] == weighters[..i];
      WeightFails(loads, front, i);
    } else {
      assert weighters[..i] == weighters;
    }
  }

  /** The value an agent reports for a weighter. */
  function Reported(loads: Value, w: Weighter): int
    requires Find(loads, w.target).Ok? && Find(loads, w.target).value.Some? && Find(loads, w.target).value.value.Int?
  {
    Find(loads, w.target).value.value.n
  }

  lemma {:induction false} WeightMeaning(loads: Value, weighters: seq<Weighter>)
    requires Weight(loads, weighters).Ok?
    ensures |Weight(loads, weighters).value| == |weighters|
    ensures forall i :: 0 <= i < |weighters| ==>
              var found := Find(loads, weighters[i].target);
              && found.Ok? && found.value.Some? && found.value.value.Int?
              && Weight(loads, weighters).value[i] == Bucket(Reported(loads, weighters[i]), weighters[i].divisor)
  {
    if weighters != [] {
      var front := weighters[..|weighters| - 1];
      WeightMeaning(loads, front);
      assert forall i :: 0 <= i < |front| ==> front[i] == weighters[i];
    }
  }

  /** b is the bucket of n: n itself without a divisor, and else the quotient rounded down. */
  predicate IsBucket(n: int, divisor: int, b: int) {
    && (divisor == 0 ==> b == n)
    && (divisor > 0 ==> b * divisor <= n < (b + 1) * divisor)
    && (divisor < 0 ==> b * divisor >= n > (b + 1) * divisor)
  }

  lemma BucketIsFloor(n: int, divisor: int)
    ensures IsBucket(n, divisor, Bucket(n, divisor))
  {
    if divisor < 0 {
      var q := (-n) / (-divisor);
      assert -n == q * (-divisor) + (-n) % (-divisor);
    }
  }

  /** Buckets are unique. */
  lemma BucketIsUnique(n: int, divisor: int, a: int, b: int)
    requires IsBucket(n, divisor, a) && IsBucket(n, divisor, b)
    ensures a == b
  {
    if a < b {
      NextBucket(a, b, divisor);
    } else if b < a {
      NextBucket(b, a, divisor);
    }
  }

  lemma NextBucket(a: int, b: int, divisor: int)
    requires a < b
    ensures divisor > 0 ==> (a + 1) * divisor <= b * divisor
    ensures divisor < 0 ==> (a + 1) * divisor >= b * divisor
  {
    var more := b - a - 1;
    assert b * divisor == (a + 1) * divisor + more * divisor;
  }

  /** The agent reports a number for the weighter. */
  ghost predicate Weighs(loads: Value, w: Weighter) {
    exists n :: Leads(loads, w.target, Int(n))
  }

  lemma FoundWeighs(loads: Value, w: Weighter)
    ensures Weighs(loads, w) <==>
              Find(loads, w.target).Ok? && Find(loads, w.target).value.Some? && Find(loads, w.target).value.value.Int?
    ensures forall n :: Leads(loads, w.target, Int(n)) ==> Find(loads, w.target) == Ok(Some(Int(n)))
  {
    forall v ensures Leads(loads, w.target, v) <==> Find(loads, w.target) == Ok(Some(v)) {
      FindMeaning(loads, w.target, v);
    }
    hide Find, Leads;
    if Find(loads, w.target).Ok? && Find(loads, w.target).value.Some? && Find(loads, w.target).value.value.Int? {
      assert Leads(loads, w.target, Int(Find(loads, w.target).value.value.n));
    }
  }

  /** An agent has a sort key exactly if it reports a number for every weighter; the key holds their buckets. */
  lemma {:induction false} WeightsAreBuckets(loads: Value, weighters: seq<Weighter>)
    ensures Weight(loads, weighters).Ok? <==> forall i :: 0 <= i < |weighters| ==> Weighs(loads, weighters[i])
    ensures Weight(loads, weighters).Ok? ==>
              && |Weight(loads, weighters).value| == |weighters|
              && forall i, n :: 0 <= i < |weighters| && Leads(loads, weighters[i].target, Int(n)) ==>
                   IsBucket(n, weighters[i].divisor, Weight(loads, weighters).value[i])
  {
    if weighters != [] {
      var front, last := weighters[..|weighters| - 1], weighters[|weighters| - 1];
      WeightsAreBuckets(loads, front);
      FoundWeighs(loads, last);
      assert forall i :: 0 <= i < |front| ==> front[i] == weighters[i];
      hide Leads, Find, Weighs, IsBucket;
      forall n | Leads(loads, last.target, Int(n)) ensures IsBucket(n, last.divisor, Bucket(n, last.divisor)) {
        BucketIsFloor(n, last.divisor);
      }
    }
  }

  /** The error of a weighter without a number: the way to its value breaks, or ends, or leads to something else. */
  ghost predicate FailsAt(loads: Value, w: Weighter, error: Error) {
    || (error == InvalidArgument && (Breaks(loads, w.target, true) || Ends(loads, w.target)))
    || (error == AttributeError && Breaks(loads, w.target, false))
    || (error == NotNumber && exists v :: Leads(loads, w.target, v) && !v.Int?)
  }

  /** The way neither breaks nor leads to a value: a dict on it does not have the next part. */
  ghost predicate Ends(loads: Value, parts: Key) {
    !Breaks(loads, parts, true) && !Breaks(loads, parts, false) && forall v :: !Leads(loads, parts, v)
  }

  lemma {:induction false} WeightErrors(loads: Value, weighters: seq<Weighter>)
    ensures Weight(loads, weighters).Err? ==>
              exists i :: 0 <= i < |weighters| && (forall k :: 0 <= k < i ==> Weighs(loads, weighters[k]))
                          && FailsAt(loads, weighters[i], Weight(loads, weighters).error)
  {
    if weighters != [] {
      var n := |weighters| - 1;
      var front, last := weighters[..n], weighters[n];
      WeightErrors(loads, front);
      assert forall k :: 0 <= k < n ==> front[k] == weighters[k];
      if Weight(loads, front).Err? {
        var i :| 0 <= i < |front| && (forall k :: 0 <= k < i ==> Weighs(loads, front[k]))
                 && FailsAt(loads, front[i], Weight(loads, front).error);
        assert FailsAt(loads, weighters[i], Weight(loads, weighters).error);
      } else if Weight(loads, weighters).Err? {
        WeightsAreBuckets(loads, front);
        LastFails(loads, last);
        hide FailsAt, Weighs;
        assert forall k :: 0 <= k < n ==> Weighs(loads, front[k]);
        assert FailsAt(loads, weighters[n], Weight(loads, weighters).error);
      }
    }
  }

  lemma LastFails(loads: Value, w: Weighter)
    ensures Weight(loads, [w]).Err? ==> FailsAt(loads, w, Weight(loads, [w]).error)
    ensures var found := Find(loads, w.target);
            && (found.Err? ==> FailsAt(loads, w, found.error))
            && (found == Ok(None) ==> FailsAt(loads, w, InvalidArgument))
            && (found.Ok? && found.value.Some? && !found.value.value.Int? ==> FailsAt(loads, w, NotNumber))
  {
    forall v ensures Leads(loads, w.target, v) <==> Find(loads, w.target) == Ok(Some(v)) {
      FindMeaning(loads, w.target, v);
    }
    FindMeaning(loads, w.target, NoneValue);
    assert [w][..0] == [] && Weight(loads, []) == Ok([]);
    hide Find, Leads, Breaks;
    if Find(loads, w.target).Ok? && Find(loads, w.target).value.Some? {
      assert Leads(loads, w.target, Find(loads, w.target).value.value);
    }
  }

  /** a is as good as b for every weighter. */
  ghost predicate Beats(a: Value, b: Value, weighters: seq<Weighter>)
    requires Weight(a, weighters).Ok? && Weight(b, weighters).Ok?
  {
    WeightMeaning(a, weighters);
    WeightMeaning(b, weighters);
    forall i :: 0 <= i < |weighters| ==>
      AsGood(Reported(a, weighters[i]), Reported(b, weighters[i]), weighters[i].divisor)
  }

  lemma BeatsWeighsLess(a: Value, b: Value, weighters: seq<Weighter>)
    requires Weight(a, weighters).Ok? && Weight(b, weighters).Ok? && Beats(a, b, weighters)
    ensures ListLe(Weight(a, weighters).value, Weight(b, weighters).value)
  {
    WeightMeaning(a, weighters);
    WeightMeaning(b, weighters);
    forall i | 0 <= i < |weighters|
      ensures Weight(a, weighters).value[i] <= Weight(b, weighters).value[i]
    {
      BucketMonotone(Reported(a, weighters[i]), Reported(b, weighters[i]), weighters[i].divisor);
    }
    PointwiseLe(Weight(a, weighters).value, Weight(b, weighters).value);
  }

  ghost predicate AllWeigh(loads: Loads, weighters: seq<Weighter>, choices: seq<nat>) {
    forall a :: a in choices ==> a in loads && Weight(loads[a], weighters).Ok?
  }

  /** The sort keys of all choices. */
  ghost function Weights(loads: Loads, weighters: seq<Weighter>, choices: seq<nat>): Keys
    requires AllWeigh(loads, weighters, choices)
  {
    map a | a in choices :: Weight(loads[a], weighters).value
  }

  method SortByWeigher(loads: Loads, weighters: seq<Weighter>, choices: seq<nat>) returns (r: Result<seq<nat>, Error>)
    requires forall a :: a in choices ==> a in loads
    ensures r.Ok? <==> AllWeigh(loads, weighters, choices)
    ensures r.Ok? ==> r.value == SortBy(choices, Weights(loads, weighters, choices))
  {
    var keys: Keys := map[];
    for i := 0 to |choices|
      invariant forall a :: a in keys <==> a in choices[..i]
      invariant forall a :: a in keys ==> Weight(loads[a], weighters) == Ok(keys[a])
    {
      var weight := WeightOf(loads[choices[i]], weighters);
      assert choices[..i + 1] == choices[..i] + [choices[i]];
      if weight.Err? {
        assert choices[i] in choices;
        return Err(weight.error);
      }
      keys := keys[choices[i] := weight.value];
    }
    assert choices[..|choices|] == choices;
    assert keys == Weights(loads, weighters, choices);
    return Ok(SortBy(choices, keys));
  }

  /**
   * An agent that is as good as another one for every weighter comes after it only
   * if their buckets are all the same, and it came after it before.
   */
  lemma NeverAfterBeaten(loads: Loads, weighters: seq<Weighter>, choices: seq<nat>, a: nat, b: nat)
    requires AllWeigh(loads, weighters, choices) && AllDistinct(choices)
    requires a in choices && b in choices && Beats(loads[a], loads[b], weighters)
    ensures Precedes(SortBy(choices, Weights(loads, weighters, choices)), b, a) ==>
              Weight(loads[a], weighters) == Weight(loads[b], weighters) && Precedes(choices, b, a)
  {
    var keys := Weights(loads, weighters, choices);
    var sorted := SortBy(choices, keys);
    BeatsWeighsLess(loads[a], loads[b], weighters);
    SortBySorted(choices, keys);
    if Precedes(sorted, b, a) {
      ListLeAntisymmetric(keys[a], keys[b]);
      SortByStable(choices, keys, keys[a]);
      WithKeyPrecedes(sorted, keys, b, a);
      WithKeyPrecedes(choices, keys, b, a);
    }
  }

  // ---- the whole choice ----

  /** The agent has reported within the last thirty and a half minutes. */
  predicate Recent(loads: Loads, agent: nat, now: int) {
    && agent in loads && loads[agent].Dict? && "time" in loads[agent].entries
    && var time := loads[agent].entries["time"];
       time.Int? && time.n != 0 && time.n > now - (30 * 60 + 30)
  }

  ghost function Stale(loads: Loads, candidates: seq<nat>, now: int): set<nat> {
    set a | a in candidates && !Recent(loads, a, now)
  }

  method RecentOnes(loads: Loads, candidates: seq<nat>, now: int) returns (choices: seq<nat>)
    ensures choices == Without(candidates, Stale(loads, candidates, now))
  {
    choices := [];
    ghost var stale := Stale(loads, candidates, now);
    for i := 0 to |candidates|
      invariant Without(candidates, stale) == choices + Without(candidates[i..], stale)
    {
      assert candidates[i..][1..] == candidates[i + 1..];
      if Recent(loads, candidates[i], now) {
        choices := choices + [candidates[i]];
      }
    }
  }

  /** The number of entities of an agent, as far as the rows of the query tell; a later row overwrites an earlier one. */
  function Counted(rows: seq<(nat, nat)>, agent: nat): nat {
    if rows == [] then 0
    else if rows[|rows| - 1].0 == agent then rows[|rows| - 1].1
    else Counted(rows[..|rows| - 1], agent)
  }

  function Counts(rows: seq<(nat, nat)>, choices: seq<nat>): Keys {
    map a | a in choices :: [Counted(rows, a)]
  }

  /** The agent has n entities, according to the last row about it; none, if there is no row. */
  ghost predicate HasEntities(rows: seq<(nat, nat)>, agent: nat, n: nat) {
    || (n == 0 && forall k :: 0 <= k < |rows| ==> rows[k].0 != agent)
    || exists k :: LastRow(rows, agent, k) && rows[k].1 == n
  }

  ghost predicate LastRow(rows: seq<(nat, nat)>, agent: nat, k: int) {
    0 <= k < |rows| && rows[k].0 == agent && forall j :: k < j < |rows| ==> rows[j].0 != agent
  }

  lemma {:induction false} CountedMeaning(rows: seq<(nat, nat)>, agent: nat, n: nat)
    ensures Counted(rows, agent) == n <==> HasEntities(rows, agent, n)
  {
    if rows != [] {
      var last := |rows| - 1;
      var front := rows[..last];
      if rows[last].0 == agent {
        assert LastRow(rows, agent, last);
      } else {
        CountedMeaning(front, agent, n);
        assert forall k :: 0 <= k < last ==> front[k] == rows[k];
        assert forall k :: LastRow(front, agent, k) <==> LastRow(rows, agent, k);
      }
    }
  }

  /** Without weighters, agents with fewer entities come first, and of equal ones those that came first in the query. */
  lemma FewestFirst(rows: seq<(nat, nat)>, kept: seq<nat>, i: nat, j: nat, n: nat, m: nat)
    requires i < j < |kept| && AllDistinct(kept)
    ensures |SortBy(kept, Counts(rows, kept))| == |kept|
    ensures var s := SortBy(kept, Counts(rows, kept));
            HasEntities(rows, s[i], n) && HasEntities(rows, s[j], m) ==>
              n < m || (n == m && Precedes(kept, s[i], s[j]))
  {
    var keys := Counts(rows, kept);
    var s := SortBy(kept, keys);
    assert |s| == |kept| by {
      assert |multiset(s)| == |multiset(kept)|;
    }
    SortBySorted(kept, keys);
    var a, b := s[i], s[j];
    assert ListLe(keys[a], keys[b]);
    CountedMeaning(rows, a, n);
    CountedMeaning(rows, b, m);
    if Counted(rows, a) == Counted(rows, b) {
      SortByStable(kept, keys, keys[a]);
      assert Precedes(s, a, b);
      WithKeyPrecedes(s, keys, a, b);
      WithKeyPrecedes(kept, keys, a, b);
    }
    hide HasEntities, Counted;
  }

  /** The agents that remain after the filters, in the order of the query. */
  ghost function Remaining(ops: Operators, loads: Loads, candidates: seq<nat>, now: int,
                           clauses: seq<Clause>): seq<nat> {
    var recent := Without(candidates, Stale(loads, candidates, now));
    if clauses == [] then recent else Without(recent, Rejected(ops, loads, clauses, recent))
  }

  /** What remains, with the filter as it was written. */
  ghost function Chosen(ops: Operators, loads: Loads, candidates: seq<nat>, now: int, includes: seq<string>): seq<nat>
    requires Filtered(loads, candidates, now, includes) ==> Understood(includes)
  {
    Remaining(ops, loads, candidates, now,
              if Filtered(loads, candidates, now, includes) then Clauses(includes) else [])
  }

  /** The filter is called. */
  ghost predicate Filtered(loads: Loads, candidates: seq<nat>, now: int, includes: seq<string>) {
    includes != [] && Without(candidates, Stale(loads, candidates, now)) != []
  }

  /** rpc_chioces, after its query for the agents of the endpoint; rows is what the query for entity counts returns. */
  method RpcChioces(ops: Operators, loads: Loads, candidates: seq<nat>, now: int, matcher: Matcher, includes: seq<string>,
                    order: seq<Key>, weighters: seq<Weighter>, rows: seq<(nat, nat)>)
    returns (r: Result<seq<nat>, Error>)
    requires AllDistinct(candidates) && IsMatcher(matcher)
    requires Understood(includes) ==> IsOrder(Clauses(includes), order)
    ensures r.Ok? <==>
              && (Filtered(loads, candidates, now, includes) ==>
                    && Understood(includes)
                    && !SomeRaises(ops, loads, Clauses(includes), order,
                                   Without(candidates, Stale(loads, candidates, now))))
              && (weighters == [] || AllWeigh(loads, weighters, Chosen(ops, loads, candidates, now, includes)))
    ensures r.Ok? ==>
              var kept := Chosen(ops, loads, candidates, now, includes);
              if weighters == [] then r.value == SortBy(kept, Counts(rows, kept))
              else AllWeigh(loads, weighters, kept) && r.value == SortBy(kept, Weights(loads, weighters, kept))
  {
    hide Read, Clauses, IsOrder, SomeRaises;
    var choices := RecentOnes(loads, candidates, now);
    WithoutMembers(candidates, Stale(loads, candidates, now));
    WithoutDistinct(candidates, Stale(loads, candidates, now));
    if choices == [] {
      return Ok([]);
    }
    if includes != [] {
      var filtered := ExcludeFilter(ops, loads, matcher, includes, order, choices);
      if filtered.Err? {
        return filtered;
      }
      WithoutMembers(choices, Rejected(ops, loads, Clauses(includes), choices));
      choices := filtered.value;
    }
    if choices == [] {
      return Ok([]);
    }
    if weighters == [] {
      return Ok(SortBy(choices, Counts(rows, choices)));
    }
    r := SortByWeigher(loads, weighters, choices);
  }

  /**
   * Exactly those agents of the query remain that reported a time within the last 1830 seconds and
   * satisfy every clause, each once.
   */
  lemma RemainingMeaning(ops: Operators, loads: Loads, candidates: seq<nat>, now: int, clauses: seq<Clause>, a: nat)
    requires AllDistinct(candidates)
    ensures var kept := Remaining(ops, loads, candidates, now, clauses);
            && (a in kept <==>
                  && a in candidates && a in loads
                  && (exists time :: Enters(loads[a], "time", Int(time)) && time != 0 && now - time < 1830)
                  && forall c :: c in clauses ==> Satisfies(ops, loads[a], c))
            && AllDistinct(kept)
  {
    var recent := Without(candidates, Stale(loads, candidates, now));
    WithoutMembers(candidates, Stale(loads, candidates, now));
    WithoutDistinct(candidates, Stale(loads, candidates, now));
    WithoutMembers(recent, Rejected(ops, loads, clauses, recent));
    WithoutDistinct(recent, Rejected(ops, loads, clauses, recent));
    RecentMeaning(loads, a, now);
    if a in loads {
      AllHoldMeaning(ops, loads[a], clauses);
    }
    hide Recent, AllHold, Satisfies, AllDistinct, Enters;
  }

  lemma RecentMeaning(loads: Loads, agent: nat, now: int)
    ensures Recent(loads, agent, now) <==>
              && agent in loads
              && exists time :: Enters(loads[agent], "time", Int(time)) && time != 0 && now - time < 1830
  {
    if agent in loads && loads[agent].Dict? && "time" in loads[agent].entries && loads[agent].entries["time"].Int? {
      assert Enters(loads[agent], "time", Int(loads[agent].entries["time"].n));
    }
  }
}
