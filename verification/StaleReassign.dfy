/**
 Spreading stale leads over the agents, one to the least loaded at a time: the auto branch of
 stale_reassign (app/routers/admin_stale.py).
 */
module StaleReassign {
  import opened Common
  import opened StatusPolicy

  type Id = nat

  datatype User = User(name: string, active: bool, isAgent: bool)
  datatype Student = Student(assignedTo: Option<Id>, status: string)

  /** What the endpoint decides: an agent for every student, the load it ends with, and the report. */
  datatype Plan = Plan(target: map<Id, Id>, load: map<Id, nat>, distribution: map<string, nat>)

  function Agents(users: map<Id, User>): set<Id> {
    set u | u in users && users[u].active && users[u].isAgent
  }

  /** The students of an agent that count as load. */
  function Held(students: map<Id, Student>, agent: Id): set<Id> {
    set s | s in students && students[s].assignedTo == Some(agent) && !TerminalStatus(students[s].status)
  }

  function LoadOf(students: map<Id, Student>, agents: set<Id>): map<Id, nat> {
    map a | a in agents :: |Held(students, a)|
  }

  function Requested(students: map<Id, Student>, ids: seq<Id>): set<Id> {
    set s | s in ids && s in students
  }

  // ---------------------------------------------------------------- the greedy choice

  ghost predicate Covers(order: seq<Id>, load: map<Id, nat>) {
    && order != [] && (forall a :: a in order <==> a in load)
    && (forall i, j :: 0 <= i < j < |order| ==> order[i] != order[j])
  }

  /** min over a dict with its values as key: the first of the least loaded in insertion order. */
  function FirstLeast(order: seq<Id>, load: map<Id, nat>): (agent: Id)
    requires order != [] && forall a :: a in order ==> a in load
    ensures agent in order && forall a :: a in order ==> load[agent] <= load[a]
  {
    if |order| == 1 then order[0]
    else
      var later := FirstLeast(order[1..], load);
      assert forall a :: a in order ==> a == order[0] || a in order[1..];
      if load[order[0]] <= load[later] then order[0] else later
  }

  /** Everyone before it in the dict has more. */
  lemma {:induction false} FirstLeastIsFirst(order: seq<Id>, load: map<Id, nat>, i: nat)
    requires order != [] && (forall a :: a in order ==> a in load)
    requires i < |order| && forall j :: 0 <= j < i ==> order[j] != FirstLeast(order, load)
    ensures forall j :: 0 <= j < i ==> load[order[j]] > load[FirstLeast(order, load)]
  {
    if i > 0 {
      var later := order[1..];
      assert forall j :: 0 <= j < i - 1 ==> later[j] == order[j + 1];
      FirstLeastIsFirst(later, load, i - 1);
      forall j | 0 <= j < i ensures load[order[j]] > load[FirstLeast(order, load)] {
        if j > 0 {
          assert order[j] == later[j - 1];
        }
      }
    }
  }

  /** The next agent to get a student. */
  function Least(order: seq<Id>, load: map<Id, nat>): (agent: Id)
    requires Covers(order, load)
    ensures agent in load && forall a :: a in load ==> load[agent] <= load[a]
  {
    FirstLeast(order, load)
  }

  /** How often an agent was picked. */
  function Times(given: seq<Id>, agent: Id): nat {
    if given == [] then 0
    else Times(given[..|given| - 1], agent) + if given[|given| - 1] == agent then 1 else 0
  }

  /** The load after some students were given out. */
  function After(load: map<Id, nat>, given: seq<Id>): (after: map<Id, nat>)
    ensures after.Keys == load.Keys
  {
    map a | a in load :: load[a] + Times(given, a)
  }

  lemma CoversAfter(order: seq<Id>, load: map<Id, nat>, given: seq<Id>)
    requires Covers(order, load)
    ensures Covers(order, After(load, given))
  {
    hide After;
  }

  /** The agents the greedy loop gives its students to, in turn. */
  function Picks(order: seq<Id>, load: map<Id, nat>, n: nat): seq<Id>
    requires Covers(order, load)
  {
    if n == 0 then [] else
      var given := Picks(order, load, n - 1);
      CoversAfter(order, load, given);
      given + [Least(order, After(load, given))]
  }

  lemma {:induction false} PicksShape(order: seq<Id>, load: map<Id, nat>, n: nat)
    requires Covers(order, load)
    ensures |Picks(order, load, n)| == n && forall a :: a in Picks(order, load, n) ==> a in load
    decreases n
  {
    hide Least, Covers, After;
    if n > 0 {
      PicksShape(order, load, n - 1);
      CoversAfter(order, load, Picks(order, load, n - 1));
    }
  }

  lemma PicksOneMore(order: seq<Id>, load: map<Id, nat>, n: nat)
    requires Covers(order, load)
    ensures var given := Picks(order, load, n);
      && Covers(order, After(load, given)) && Least(order, After(load, given)) in load
      && Picks(order, load, n + 1) == given + [Least(order, After(load, given))]
  {
    hide Least, Covers, After;
    CoversAfter(order, load, Picks(order, load, n));
  }

  lemma NothingPicked(order: seq<Id>, load: map<Id, nat>)
    requires Covers(order, load)
    ensures Picks(order, load, 0) == [] && After(load, []) == load
  {
  }

  lemma GivenOneMore(load: map<Id, nat>, given: seq<Id>, a: Id)
    requires a in load
    ensures After(load, given + [a]) == After(load, given)[a := After(load, given)[a] + 1]
  {
    var longer := given + [a];
    assert longer[..|longer| - 1] == given;
  }

  // ---------------------------------------------------------------- no other choice does better

  function Sum(order: seq<Id>, load: map<Id, nat>): nat
    requires forall a :: a in order ==> a in load
  {
    if order == [] then 0 else load[order[0]] + Sum(order[1..], load)
  }

  lemma {:induction false} SumIgnoresOthers(order: seq<Id>, load: map<Id, nat>, more: map<Id, nat>)
    requires forall a :: a in order ==> a in load && a in more && more[a] == load[a]
    ensures Sum(order, more) == Sum(order, load)
  {
    if order != [] {
      SumIgnoresOthers(order[1..], load, more);
    }
  }

  lemma {:induction false} SumOneMore(order: seq<Id>, load: map<Id, nat>, a: Id)
    requires (forall b :: b in order ==> b in load) && a in order
    requires forall i, j :: 0 <= i < j < |order| ==> order[i] != order[j]
    ensures Sum(order, load[a := load[a] + 1]) == Sum(order, load) + 1
  {
    if order[0] == a {
      SumIgnoresOthers(order[1..], load, load[a := load[a] + 1]);
    } else {
      SumOneMore(order[1..], load, a);
    }
  }

  /** Whoever gets them, giving out students adds one to the sum of the loads each. */
  lemma {:induction false} SumAfter(order: seq<Id>, load: map<Id, nat>, given: seq<Id>)
    requires Covers(order, load) && forall a :: a in given ==> a in order
    ensures Sum(order, After(load, given)) == Sum(order, load) + |given|
  {
    if given == [] {
      assert After(load, given) == load;
    } else {
      var front, a := given[..|given| - 1], given[|given| - 1];
      assert given == front + [a];
      SumAfter(order, load, front);
      GivenOneMore(load, front, a);
      SumOneMore(order, After(load, front), a);
    }
  }

  ghost predicate AtMost(load: map<Id, nat>, bound: nat) {
    forall a :: a in load ==> load[a] <= bound
  }

  lemma {:induction false} SumAtMost(order: seq<Id>, load: map<Id, nat>, bound: nat)
    requires forall a :: a in order ==> a in load && load[a] <= bound
    ensures Sum(order, load) <= bound * |order|
  {
    if order != [] {
      SumAtMost(order[1..], load, bound);
    }
  }

  lemma {:induction false} SumAtLeast(order: seq<Id>, load: map<Id, nat>, bound: nat)
    requires forall a :: a in order ==> a in load && load[a] >= bound
    ensures Sum(order, load) >= bound * |order|
  {
    if order != [] {
      SumAtLeast(order[1..], load, bound);
    }
  }

  ghost predicate WithinOrFull(order: seq<Id>, load: map<Id, nat>, bound: nat)
    requires Covers(order, load)
  {
    AtMost(load, bound) || Sum(order, load) > bound * |order|
  }

  lemma PassesWhenFull(order: seq<Id>, load: map<Id, nat>, a: Id, bound: nat)
    requires Covers(order, load) && a in load && forall b :: b in load ==> load[a] <= load[b]
    requires WithinOrFull(order, load, bound)
    ensures Covers(order, load[a := load[a] + 1]) && WithinOrFull(order, load[a := load[a] + 1], bound)
  {
    hide Sum;
    SumOneMore(order, load, a);
    if load[a] >= bound {
      SumAtLeast(order, load, bound);
    }
  }

  /** A bound that held at first is passed only once the loads together are past it. */
  lemma {:induction false} PassesOnlyWhenFull(order: seq<Id>, load: map<Id, nat>, n: nat, bound: nat)
    requires Covers(order, load) && WithinOrFull(order, load, bound)
    ensures Covers(order, After(load, Picks(order, load, n)))
    ensures WithinOrFull(order, After(load, Picks(order, load, n)), bound)
    decreases n
  {
    hide *;
    CoversAfter(order, load, Picks(order, load, n));
    if n == 0 {
      NothingPicked(order, load);
    } else {
      PassesOnlyWhenFull(order, load, n - 1, bound);
      var given := Picks(order, load, n - 1);
      PicksOneMore(order, load, n - 1);
      var a := Least(order, After(load, given));
      GivenOneMore(load, given, a);
      PassesWhenFull(order, After(load, given), a, bound);
    }
  }

  /** The greedy loop minimises the largest counted load: whatever other way of giving the same number of
      students to the same agents keeps every load within a bound, so does the loop. */
  lemma GreedyIsOptimal(order: seq<Id>, load: map<Id, nat>, other: seq<Id>, bound: nat)
    requires Covers(order, load) && forall a :: a in other ==> a in load
    requires AtMost(After(load, other), bound)
    ensures AtMost(After(load, Picks(order, load, |other|)), bound)
  {
    var n := |other|;
    assert AtMost(load, bound) by {
      forall a | a in load ensures load[a] <= bound {
        assert After(load, other)[a] >= load[a];
      }
    }
    PassesOnlyWhenFull(order, load, n, bound);
    PicksShape(order, load, n);
    SumAfter(order, load, Picks(order, load, n));
    SumAfter(order, load, other);
    SumAtMost(order, After(load, other), bound);
  }

  /** An agent who got a student ends at most one above any other agent. */
  lemma {:induction false} ReceiversEndLevel(order: seq<Id>, load: map<Id, nat>, n: nat, a: Id, b: Id)
    requires Covers(order, load) && a in Picks(order, load, n) && b in load
    ensures a in load && var after := After(load, Picks(order, load, n)); after[a] <= after[b] + 1
    decreases n
  {
    hide *;
    PicksShape(order, load, n);
    if n == 0 {
      NothingPicked(order, load);
    } else {
      PicksOneMore(order, load, n - 1);
      var given := Picks(order, load, n - 1);
      GivenOneMore(load, given, Least(order, After(load, given)));
      if a in given {
        ReceiversEndLevel(order, load, n - 1, a, b);
      }
    }
  }

  // ---------------------------------------------------------------- the loop

  /** Students given to agents of one name. */
  function NamedCount(users: map<Id, User>, given: seq<Id>, name: string): nat
    requires forall a :: a in given ==> a in users
  {
    if given == [] then 0
    else NamedCount(users, given[..|given| - 1], name) + if users[given[|given| - 1]].name == name then 1 else 0
  }

  function TargetsOf(ids: seq<Id>, given: seq<Id>): map<Id, Id>
    requires |given| <= |ids|
  {
    if given == [] then map[]
    else TargetsOf(ids, given[..|given| - 1])[ids[|given| - 1] := given[|given| - 1]]
  }

  ghost predicate Lists(todo: seq<Id>, s: set<Id>) {
    (forall x :: x in todo <==> x in s) && forall i, j :: 0 <= i < j < |todo| ==> todo[i] < todo[j]
  }

  /** The plan is the greedy one for the requested students in order of id. */
  ghost predicate Decided(users: map<Id, User>, students: map<Id, Student>, order: seq<Id>, todo: seq<Id>, plan: Plan) {
    var load := LoadOf(students, Agents(users));
    && Covers(order, load)
    && |Picks(order, load, |todo|)| == |todo| && Spreading(users, load, todo, Picks(order, load, |todo|), plan)
  }

  /** The load dict, rows of the query first and then the agents who hold nobody, and the zeroed report. */
  method Initial(users: map<Id, User>, students: map<Id, Student>, agents: seq<Id>, grouped: seq<Id>)
    returns (load: map<Id, nat>, distribution: map<string, nat>, order: seq<Id>)
    requires (forall a :: a in agents <==> a in Agents(users)) && agents != []
    requires forall a :: a in grouped <==> a in Agents(users) && Held(students, a) != {}
    requires forall i, j :: 0 <= i < j < |grouped| ==> grouped[i] != grouped[j]
    ensures load == LoadOf(students, Agents(users)) && Covers(order, load)
    ensures forall a :: a in load ==> a in users && users[a].name in distribution
    ensures forall name :: name in distribution ==> distribution[name] == 0
  {
    hide Agents, Held;
    load := map a | a in grouped :: |Held(students, a)|;
    order, distribution := grouped, map[];
    for i := 0 to |agents|
      invariant forall a :: a in load <==> a in grouped || a in agents[..i]
      invariant forall a :: a in load ==> load[a] == |Held(students, a)|
      invariant forall a :: a in order <==> a in load
      invariant forall j, k :: 0 <= j < k < |order| ==> order[j] != order[k]
      invariant forall a :: a in agents[..i] ==> a in users && users[a].name in distribution
      invariant forall name :: name in distribution ==> distribution[name] == 0
    {
      assert agents[..i + 1] == agents[..i] + [agents[i]];
      assert agents[i] in users by { AgentIsUser(users, agents[i]); }
      if agents[i] !in load {
        assert Held(students, agents[i]) == {};
        load, order := load[agents[i] := 0], order + [agents[i]];
      }
      distribution := distribution[users[agents[i]].name := 0];
    }
    assert agents[..|agents|] == agents;
    assert agents[0] in order;
  }

  lemma AgentIsUser(users: map<Id, User>, a: Id)
    requires a in Agents(users)
    ensures a in users
  {
  }

  /** The auto branch. `grouped` is the order in which the load query lists the agents who hold somebody;
      it decides ties and nothing else. */
  method Reassign(users: map<Id, User>, students: map<Id, Student>, ids: seq<Id>, grouped: seq<Id>)
    returns (result: Result<Plan, string>, order: seq<Id>, todo: seq<Id>)
    requires forall a :: a in grouped <==> a in Agents(users) && Held(students, a) != {}
    requires forall i, j :: 0 <= i < j < |grouped| ==> grouped[i] != grouped[j]
    ensures result.Err? <==> ids == [] || Requested(students, ids) == {} || Agents(users) == {}
    ensures result.Err? ==>
      result.error ==
        if ids == [] then "student_ids不能为空"
        else if Requested(students, ids) == {} then "没有可回收的线索"
        else "没有可用的话务员"
    ensures result.Ok? ==> Decided(users, students, order, todo, result.value) && Lists(todo, Requested(students, ids))
  {
    hide FirstLeast, Held, Agents, Requested;
    order, todo := [], [];
    if ids == [] {
      return Err("student_ids不能为空"), order, todo;
    }
    var chosen := Requested(students, ids);
    if chosen == {} {
      return Err("没有可回收的线索"), order, todo;
    }
    var agents := Ascending(Agents(users));
    if agents == [] {
      assert forall a :: a !in Agents(users);
      return Err("没有可用的话务员"), order, todo;
    }
    assert agents[0] in Agents(users);
    var load, distribution;
    load, distribution, order := Initial(users, students, agents, grouped);
    todo := Ascending(chosen);
    var plan := Spread(users, order, load, distribution, todo);
    result := Ok(plan);
  }

  /** Where the endpoint sends students: to the pool, to one named agent, or wherever the load is least. */
  datatype Mode = Recycle | Manual(agent: Option<Id>) | Auto

  /** An agent, or the pool, for every student, and the report. */
  datatype Answer = Answer(target: map<Id, Option<Id>>, distribution: map<string, nat>)

  ghost predicate Decides(users: map<Id, User>, students: map<Id, Student>, order: seq<Id>, todo: seq<Id>,
                          answer: Answer)
  {
    exists plan :: Decided(users, students, order, todo, plan) && answer.distribution == plan.distribution
      && answer.target == map s | s in plan.target :: Some(plan.target[s])
  }

  /** The manual branch, once the agent is found. */
  method AllToOne(chosen: set<Id>, agent: Id, name: string) returns (answer: Answer)
    requires chosen != {}
    ensures answer.target.Keys == chosen && answer.target.Values <= {Some(agent)}
    ensures answer.distribution == map[name := |chosen|]
  {
    var distribution: map<string, nat> := map[];
    var rest, given := chosen, 0;
    while rest != {}
      invariant rest <= chosen && given == |chosen| - |rest|
      invariant distribution == if given == 0 then map[] else map[name := given]
    {
      var s :| s in rest;
      distribution := distribution[name := (if name in distribution then distribution[name] else 0) + 1];
      rest, given := rest - {s}, given + 1;
    }
    answer := Answer(map s | s in chosen :: Some(agent), distribution);
  }

  predicate IsActiveAgent(users: map<Id, User>, agent: Id) {
    agent in users && users[agent].active && users[agent].isAgent
  }

  /** The endpoint up to the assignment service. */
  method Decide(users: map<Id, User>, students: map<Id, Student>, ids: seq<Id>, mode: Mode, grouped: seq<Id>)
    returns (result: Result<Answer, string>, order: seq<Id>, todo: seq<Id>)
    requires forall a :: a in grouped <==> a in Agents(users) && Held(students, a) != {}
    requires forall i, j :: 0 <= i < j < |grouped| ==> grouped[i] != grouped[j]
    ensures result.Err? <==> (
        ids == [] || Requested(students, ids) == {}
        || (mode.Manual? && (mode.agent.None? || !IsActiveAgent(users, mode.agent.value)))
        || (mode.Auto? && forall u :: u in users ==> !users[u].active || !users[u].isAgent))
    ensures result.Err? ==>
      result.error ==
        if ids == [] then "student_ids不能为空"
        else if Requested(students, ids) == {} then "没有可回收的线索"
        else if mode.Auto? then "没有可用的话务员"
        else if mode == Manual(None) then "manual mode requires agent_id"
        else "话务员不存在或已禁用"
    ensures result.Ok? && !mode.Auto? ==> result.value.target.Keys == Requested(students, ids)
    ensures result.Ok? && mode.Recycle? ==>
      result.value.target.Values <= {None}
      && result.value.distribution == map["总名单" := |Requested(students, ids)|]
    ensures result.Ok? && mode.Manual? ==>
      IsActiveAgent(users, mode.agent.value) && result.value.target.Values <= {mode.agent}
      && result.value.distribution == map[users[mode.agent.value].name := |Requested(students, ids)|]
    ensures result.Ok? && mode.Auto? ==>
      Decides(users, students, order, todo, result.value) && Lists(todo, Requested(students, ids))
  {
    hide Decided, Lists, Requested, Agents, Held;
    order, todo := [], [];
    if ids == [] {
      return Err("student_ids不能为空"), order, todo;
    }
    var chosen := Requested(students, ids);
    if chosen == {} {
      return Err("没有可回收的线索"), order, todo;
    }
    match mode
    case Recycle =>
      result := Ok(Answer(map s | s in chosen :: None, map["总名单" := |chosen|]));
    case Manual(agent) =>
      if agent.None? {
        return Err("manual mode requires agent_id"), order, todo;
      }
      AgentsAreActive(users, agent.value);
      if agent.value !in Agents(users) {
        return Err("话务员不存在或已禁用"), order, todo;
      }
      AgentsAreUsers(users);
      var answer := AllToOne(chosen, agent.value, users[agent.value].name);
      result := Ok(answer);
    case Auto =>
      var decision;
      NoAgents(users);
      decision, order, todo := Reassign(users, students, ids, grouped);
      if decision.Err? {
        return Err(decision.error), order, todo;
      }
      var plan := decision.value;
      result := Ok(Answer(map s | s in plan.target :: Some(plan.target[s]), plan.distribution));
  }

  lemma AgentsAreActive(users: map<Id, User>, agent: Id)
    ensures agent in Agents(users) <==> IsActiveAgent(users, agent)
  {
  }

  lemma NoAgents(users: map<Id, User>)
    ensures Agents(users) == {} <==> forall u :: u in users ==> !users[u].active || !users[u].isAgent
  {
    if Agents(users) == {} {
      forall u | u in users ensures !users[u].active || !users[u].isAgent {
        assert u !in Agents(users);
      }
    }
  }

  lemma AgentsAreUsers(users: map<Id, User>)
    ensures Agents(users) <= users.Keys
  {
  }

  lemma TargetsOneMore(todo: seq<Id>, given: seq<Id>, agent: Id)
    requires |given| < |todo|
    ensures TargetsOf(todo, given + [agent]) == TargetsOf(todo, given)[todo[|given|] := agent]
  {
    assert (given + [agent])[..|given|] == given;
  }

  lemma NamedOneMore(users: map<Id, User>, given: seq<Id>, agent: Id, name: string)
    requires agent in users && forall a :: a in given ==> a in users
    ensures NamedCount(users, given + [agent], name) ==
      NamedCount(users, given, name) + if users[agent].name == name then 1 else 0
  {
    assert (given + [agent])[..|given|] == given;
  }

  /** The dicts after some students were given out. */
  ghost predicate Spreading(users: map<Id, User>, start: map<Id, nat>, todo: seq<Id>, given: seq<Id>, plan: Plan) {
    && |given| <= |todo| && (forall a :: a in given ==> a in start && a in users)
    && plan.load == After(start, given) && plan.target == TargetsOf(todo, given) && Total(plan.distribution) == |given|
    && (forall a :: a in start ==> a in users && users[a].name in plan.distribution)
    && (forall name :: name in plan.distribution ==> plan.distribution[name] == NamedCount(users, given, name))
  }

  function GiveTo(users: map<Id, User>, plan: Plan, student: Id, agent: Id): Plan
    requires agent in users && agent in plan.load && users[agent].name in plan.distribution
  {
    var name := users[agent].name;
    Plan(plan.target[student := agent], plan.load[agent := plan.load[agent] + 1],
         plan.distribution[name := plan.distribution[name] + 1])
  }

  lemma SpreadingOneMore(users: map<Id, User>, start: map<Id, nat>, todo: seq<Id>, given: seq<Id>, plan: Plan,
                         agent: Id)
    requires Spreading(users, start, todo, given, plan) && |given| < |todo| && agent in start
    ensures agent in users && agent in plan.load && users[agent].name in plan.distribution
    ensures Spreading(users, start, todo, given + [agent], GiveTo(users, plan, todo[|given|], agent))
  {
    hide After, TargetsOf, NamedCount, Total;
    GivenOneMore(start, given, agent);
    TargetsOneMore(todo, given, agent);
    var name := users[agent].name;
    TotalSet(plan.distribution, name, plan.distribution[name] + 1);
    TotalWithout(plan.distribution, name);
    forall n ensures NamedCount(users, given + [agent], n) == NamedCount(users, given, n) + if name == n then 1 else 0 {
      NamedOneMore(users, given, agent, n);
    }
  }

  lemma NothingSpread(users: map<Id, User>, start: map<Id, nat>, todo: seq<Id>, zeros: map<string, nat>)
    requires forall a :: a in start ==> a in users && users[a].name in zeros
    requires forall name :: name in zeros ==> zeros[name] == 0
    ensures Spreading(users, start, todo, [], Plan(map[], start, zeros))
  {
    assert After(start, []) == start;
    TotalZero(zeros);
  }

  /** The loop over the students. */
  method Spread(users: map<Id, User>, order: seq<Id>, start: map<Id, nat>, zeros: map<string, nat>, todo: seq<Id>)
    returns (plan: Plan)
    requires Covers(order, start) && (forall a :: a in start ==> a in users && users[a].name in zeros)
    requires forall name :: name in zeros ==> zeros[name] == 0
    ensures |Picks(order, start, |todo|)| == |todo|
    ensures Spreading(users, start, todo, Picks(order, start, |todo|), plan)
  {
    NothingSpread(users, start, todo, zeros);
    NothingPicked(order, start);
    hide Covers, FirstLeast, Least, After, Picks, TargetsOf, Total, NamedCount;
    plan := Plan(map[], start, zeros);
    ghost var given: seq<Id> := [];
    for i := 0 to |todo|
      invariant given == Picks(order, start, i) && |given| == i
      invariant Spreading(users, start, todo, given, plan)
    {
      PicksOneMore(order, start, i);
      var agent := Least(order, plan.load);
      SpreadingOneMore(users, start, todo, given, plan, agent);
      plan := GiveTo(users, plan, todo[i], agent);
      given := given + [agent];
    }
  }

  // ---------------------------------------------------------------- what the plan is worth

  function Receives(target: map<Id, Id>, agent: Id): set<Id> {
    set s | s in target && target[s] == agent
  }

  lemma {:induction false} TargetsShape(todo: seq<Id>, given: seq<Id>)
    requires |given| <= |todo| && forall i, j :: 0 <= i < j < |todo| ==> todo[i] < todo[j]
    ensures forall x :: x in TargetsOf(todo, given) <==> x in todo[..|given|]
    ensures forall i :: 0 <= i < |given| ==>
      todo[i] in TargetsOf(todo, given) && TargetsOf(todo, given)[todo[i]] == given[i]
  {
    if given != [] {
      var n := |given| - 1;
      TargetsShape(todo, given[..n]);
      assert todo[..n + 1] == todo[..n] + [todo[n]];
    }
  }

  lemma {:induction false} ReceivesAre(todo: seq<Id>, given: seq<Id>, agent: Id)
    requires |given| <= |todo| && forall i, j :: 0 <= i < j < |todo| ==> todo[i] < todo[j]
    ensures |Receives(TargetsOf(todo, given), agent)| == Times(given, agent)
  {
    if given == [] {
      assert Receives(TargetsOf(todo, given), agent) == {};
    } else {
      var n := |given| - 1;
      ReceivesAre(todo, given[..n], agent);
      TargetsShape(todo, given[..n]);
      var before := TargetsOf(todo, given[..n]);
      assert todo[n] !in before;
      ReceivesOneMore(before, todo[n], given[n], agent);
    }
  }

  lemma ReceivesOneMore(target: map<Id, Id>, student: Id, given: Id, agent: Id)
    requires student !in target
    ensures |Receives(target[student := given], agent)| == |Receives(target, agent)| + if given == agent then 1 else 0
  {
    var more := Receives(target[student := given], agent);
    if given == agent {
      SizeOneMore(more, Receives(target, agent), student);
    } else {
      assert more == Receives(target, agent);
    }
  }

  /** Every requested student gets exactly one active agent, nobody else is touched, and the load the plan
      reports is the counted load and what each agent receives. */
  lemma EveryStudentPlaced(users: map<Id, User>, students: map<Id, Student>, order: seq<Id>, todo: seq<Id>, plan: Plan,
                           s: set<Id>)
    requires Decided(users, students, order, todo, plan) && Lists(todo, s)
    ensures plan.target.Keys == s && (forall x :: x in s ==> plan.target[x] in Agents(users))
    ensures plan.load.Keys == Agents(users)
    ensures forall a :: a in Agents(users) ==> plan.load[a] == |Held(students, a)| + |Receives(plan.target, a)|
  {
    hide Agents, Held, Receives, Times, Sum, TargetsOf, TerminalStatus, NamedCount, Total, Picks, FirstLeast;
    var load := LoadOf(students, Agents(users));
    var given := Picks(order, load, |todo|);
    PicksShape(order, load, |todo|);
    TargetsShape(todo, given);
    assert todo[..|todo|] == todo;
    forall a | a in Agents(users) ensures plan.load[a] == |Held(students, a)| + |Receives(plan.target, a)| {
      ReceivesAre(todo, given, a);
    }
    forall x | x in s ensures x in plan.target && plan.target[x] in Agents(users) {
      var i :| 0 <= i < |todo| && todo[i] == x;
      assert given[i] in given;
    }
  }

  /** The agents who take part are the active users with the role of an agent: they all have a load, and nobody else
      receives anybody. */
  lemma ReceiversAreActiveAgents(users: map<Id, User>, students: map<Id, Student>, order: seq<Id>, todo: seq<Id>,
                                 plan: Plan, s: set<Id>)
    requires Decided(users, students, order, todo, plan) && Lists(todo, s)
    ensures forall a :: a in plan.load <==> a in users && users[a].active && users[a].isAgent
    ensures forall x :: x in plan.target ==>
      plan.target[x] in users && users[plan.target[x]].active && users[plan.target[x]].isAgent
  {
    EveryStudentPlaced(users, students, order, todo, plan, s);
    hide Decided, Lists;
  }

  function NamedReceives(users: map<Id, User>, target: map<Id, Id>, name: string): set<Id> {
    set s | s in target && target[s] in users && users[target[s]].name == name
  }

  lemma {:induction false} NamedReceivesAre(users: map<Id, User>, todo: seq<Id>, given: seq<Id>, name: string)
    requires |given| <= |todo| && (forall a :: a in given ==> a in users)
    requires forall i, j :: 0 <= i < j < |todo| ==> todo[i] < todo[j]
    ensures |NamedReceives(users, TargetsOf(todo, given), name)| == NamedCount(users, given, name)
  {
    if given == [] {
      assert NamedReceives(users, TargetsOf(todo, given), name) == {};
    } else {
      var n := |given| - 1;
      NamedReceivesAre(users, todo, given[..n], name);
      TargetsShape(todo, given[..n]);
      var before := TargetsOf(todo, given[..n]);
      assert todo[n] !in before;
      NamedReceivesOneMore(users, before, todo[n], given[n], name);
    }
  }

  lemma NamedReceivesOneMore(users: map<Id, User>, target: map<Id, Id>, student: Id, given: Id, name: string)
    requires student !in target && given in users
    ensures |NamedReceives(users, target[student := given], name)|
         == |NamedReceives(users, target, name)| + if users[given].name == name then 1 else 0
  {
    var more := NamedReceives(users, target[student := given], name);
    if users[given].name == name {
      SizeOneMore(more, NamedReceives(users, target, name), student);
    } else {
      assert more == NamedReceives(users, target, name);
    }
  }

  /** The report names every agent, counts what agents of each name receive, and adds up to the students. */
  lemma ReportAddsUp(users: map<Id, User>, students: map<Id, Student>, order: seq<Id>, todo: seq<Id>, plan: Plan,
                     s: set<Id>)
    requires Decided(users, students, order, todo, plan) && Lists(todo, s)
    ensures Total(plan.distribution) == |s|
    ensures forall a :: a in Agents(users) ==> users[a].name in plan.distribution
    ensures forall name :: name in plan.distribution ==>
      plan.distribution[name] == |NamedReceives(users, plan.target, name)|
  {
    hide Agents, Held, Receives, Times, TargetsOf, NamedCount, Total, Picks, Least, NamedReceives;
    DistinctLength(todo, s);
    forall name | name in plan.distribution
      ensures plan.distribution[name] == |NamedReceives(users, plan.target, name)|
    {
      NamedReceivesAre(users, todo, Picks(order, LoadOf(students, Agents(users)), |todo|), name);
    }
  }

  /** The plan's largest load is the least possible: any other way of placing the same students with the
      active agents that stays within a bound shows that the plan stays within it. */
  lemma PlanIsOptimal(users: map<Id, User>, students: map<Id, Student>, order: seq<Id>, todo: seq<Id>, plan: Plan,
                      s: set<Id>, other: map<Id, Id>, bound: nat)
    requires Decided(users, students, order, todo, plan) && Lists(todo, s)
    requires other.Keys == s && forall x :: x in other ==> other[x] in Agents(users)
    requires forall a :: a in Agents(users) ==> |Held(students, a)| + |Receives(other, a)| <= bound
    ensures forall a :: a in plan.load ==> plan.load[a] <= bound
  {
    hide Agents, Held, Picks, Receives, Times, Sum, TargetsOf, TerminalStatus;
    var load := LoadOf(students, Agents(users));
    var given := AsGiven(todo, other);
    forall a | a in load ensures After(load, given)[a] <= bound {
      ReceivesAre(todo, given, a);
    }
    GreedyIsOptimal(order, load, given, bound);
  }

  /** Any way of placing the students is a list of agents picked in turn. */
  lemma AsGiven(todo: seq<Id>, other: map<Id, Id>) returns (given: seq<Id>)
    requires Lists(todo, other.Keys)
    ensures |given| == |todo| && TargetsOf(todo, given) == other
    ensures forall a :: a in given ==> a in other.Values
  {
    hide TargetsOf;
    forall i | 0 <= i < |todo| ensures todo[i] in other {
      assert todo[i] in todo;
    }
    given := seq(|todo|, i requires 0 <= i < |todo| && todo[i] in other => other[todo[i]]);
    TargetsShape(todo, given);
    assert todo[..|todo|] == todo;
    forall x | x in other ensures x in TargetsOf(todo, given) && TargetsOf(todo, given)[x] == other[x] {
      var i :| 0 <= i < |todo| && todo[i] == x;
    }
    assert TargetsOf(todo, given).Keys == other.Keys;
  }

  lemma {:induction false} PickedOnce(given: seq<Id>, agent: Id)
    requires Times(given, agent) > 0
    ensures agent in given
  {
    if given[|given| - 1] != agent {
      PickedOnce(given[..|given| - 1], agent);
    }
  }

  /** The agents who receive somebody end at most one above the least loaded. */
  lemma PlanIsLevel(users: map<Id, User>, students: map<Id, Student>, order: seq<Id>, todo: seq<Id>, plan: Plan,
                    s: set<Id>, a: Id, b: Id)
    requires Decided(users, students, order, todo, plan) && Lists(todo, s)
    requires a in Agents(users) && b in Agents(users) && Receives(plan.target, a) != {}
    ensures a in plan.load && b in plan.load && plan.load[a] <= plan.load[b] + 1
  {
    hide Agents, Held;
    var load := LoadOf(students, Agents(users));
    ReceivesAre(todo, Picks(order, load, |todo|), a);
    assert |Receives(plan.target, a)| > 0;
    PickedOnce(Picks(order, load, |todo|), a);
    hide FirstLeast;
    ReceiversEndLevel(order, load, |todo|, a, b);
  }

  // ---------------------------------------------------------------- counted and real load

  /** The students an agent really holds once the plan is applied. */
  function ReallyHeld(students: map<Id, Student>, target: map<Id, Id>, agent: Id): set<Id> {
    set s | s in students && !TerminalStatus(students[s].status)
      && (if s in target then target[s] == agent else students[s].assignedTo == Some(agent))
  }

  /** Requested students an agent held already, and terminal ones he is given. */
  function CountedTwice(students: map<Id, Student>, target: map<Id, Id>, agent: Id): set<Id> {
    set s | s in target && s in students && !TerminalStatus(students[s].status) && students[s].assignedTo == Some(agent)
  }

  function CountedForNothing(students: map<Id, Student>, target: map<Id, Id>, agent: Id): set<Id> {
    set s | s in target && s in students && TerminalStatus(students[s].status) && target[s] == agent
  }

  /** The load the loop levels is the real one and two kinds of students that are no load: those it takes
      from the agent, and terminal ones it gives him. */
  lemma CountedLoadIsRealLoadPlus(students: map<Id, Student>, target: map<Id, Id>, agent: Id)
    requires target.Keys <= students.Keys
    ensures |Held(students, agent)| + |Receives(target, agent)|
         == |ReallyHeld(students, target, agent)| + |CountedTwice(students, target, agent)|
           + |CountedForNothing(students, target, agent)|
  {
    hide TerminalStatus;
    var kept := set s | s in Held(students, agent) && s !in target;
    var got := set s | s in Receives(target, agent) && !TerminalStatus(students[s].status);
    SizeOfParts(Held(students, agent), kept, CountedTwice(students, target, agent));
    SizeOfParts(Receives(target, agent), got, CountedForNothing(students, target, agent));
    SizeOfParts(ReallyHeld(students, target, agent), kept, got);
  }

  /** Nobody being moved is terminal, or already counts as some active agent's load. */
  ghost predicate FreshLeads(users: map<Id, User>, students: map<Id, Student>, s: set<Id>) {
    forall x :: x in s && x in students ==>
      !TerminalStatus(students[x].status) && forall a :: a in Agents(users) ==> students[x].assignedTo != Some(a)
  }

  /** The levelled load is every agent's real load exactly when no requested student is terminal or held by
      an active agent. */
  lemma CountedLoadIsReal(users: map<Id, User>, students: map<Id, Student>, order: seq<Id>, todo: seq<Id>, plan: Plan,
                          s: set<Id>)
    requires Decided(users, students, order, todo, plan) && Lists(todo, s) && s <= students.Keys
    ensures (forall a :: a in Agents(users) ==>
        a in plan.load && plan.load[a] == |ReallyHeld(students, plan.target, a)|)
      <==> FreshLeads(users, students, s)
  {
    EveryStudentPlaced(users, students, order, todo, plan, s);
    hide Agents, Held, ReallyHeld, Decided, Lists, Receives, TerminalStatus, CountedTwice, CountedForNothing;
    forall a | a in Agents(users)
      ensures plan.load[a] == |ReallyHeld(students, plan.target, a)| <==>
        CountedTwice(students, plan.target, a) == {} && CountedForNothing(students, plan.target, a) == {}
    {
      CountedLoadIsRealLoadPlus(students, plan.target, a);
    }
    NothingMiscounted(users, students, plan.target);
  }

  lemma NothingMiscounted(users: map<Id, User>, students: map<Id, Student>, target: map<Id, Id>)
    requires target.Keys <= students.Keys && forall x :: x in target ==> target[x] in Agents(users)
    ensures FreshLeads(users, students, target.Keys) <==> forall a :: a in Agents(users) ==>
      CountedTwice(students, target, a) == {} && CountedForNothing(students, target, a) == {}
  {
    hide Agents, TerminalStatus;
    if !FreshLeads(users, students, target.Keys) {
      var x :| x in target.Keys
        && (TerminalStatus(students[x].status) || exists a :: a in Agents(users) && students[x].assignedTo == Some(a));
      if TerminalStatus(students[x].status) {
        assert x in CountedForNothing(students, target, target[x]);
      } else {
        var a :| a in Agents(users) && students[x].assignedTo == Some(a);
        assert x in CountedTwice(students, target, a);
      }
    }
  }

  /** One agent holds four students, the other none, and the four are spread again. */
  function LopsidedStudents(): map<Id, Student> {
    var s := Student(Some(1), "contacted");
    map[1 := s, 2 := s, 3 := s, 4 := s]
  }

  function LopsidedUsers(): map<Id, User> {
    map[1 := User("a", true, true), 2 := User("b", true, true)]
  }

  lemma LopsidedLoad()
    ensures |Held(LopsidedStudents(), 1)| == 4 && |Held(LopsidedStudents(), 2)| == 0
      && Agents(LopsidedUsers()) == {1, 2}
  {
    assert Held(LopsidedStudents(), 1) == {1, 2, 3, 4};
    assert Held(LopsidedStudents(), 2) == {};
  }

  /** Moving all four leaves each agent with what he receives. */
  lemma LopsidedMoved(target: map<Id, Id>, a: Id)
    requires target.Keys == {1, 2, 3, 4}
    ensures ReallyHeld(LopsidedStudents(), target, a) == Receives(target, a)
  {
    assert forall s :: s in LopsidedStudents() <==> s in {1, 2, 3, 4};
    assert forall s :: s in LopsidedStudents() ==> LopsidedStudents()[s] == Student(Some(1), "contacted");
    assert !TerminalStatus("contacted");
    assert forall s :: s in ReallyHeld(LopsidedStudents(), target, a) <==> s in Receives(target, a);
  }

  function AllToTwo(): map<Id, Id> {
    map[1 := 2, 2 := 2, 3 := 2, 4 := 2]
  }

  lemma AllToTwoReceives()
    ensures AllToTwo().Keys == {1, 2, 3, 4} && forall x :: x in AllToTwo() ==> AllToTwo()[x] == 2
    ensures |Receives(AllToTwo(), 1)| == 0 && |Receives(AllToTwo(), 2)| == 4
  {
    assert Receives(AllToTwo(), 1) == {};
    assert Receives(AllToTwo(), 2) == {1, 2, 3, 4};
  }

  lemma TwoEach()
    ensures var level := map[1 := 1, 2 := 1, 3 := 2, 4 := 2];
      level.Keys == {1, 2, 3, 4} && Receives(level, 1) == {1, 2} && Receives(level, 2) == {3, 4}
  {
  }

  /** Because the students being moved still count for the agent who has them, the plan gives all four to the
      other agent, where two each would have been level. */
  lemma LevellingCanUnlevel(order: seq<Id>, todo: seq<Id>, plan: Plan)
    requires Decided(LopsidedUsers(), LopsidedStudents(), order, todo, plan) && Lists(todo, {1, 2, 3, 4})
    ensures ReallyHeld(LopsidedStudents(), plan.target, 1) == {}
      && ReallyHeld(LopsidedStudents(), plan.target, 2) == {1, 2, 3, 4}
    ensures var level := map[1 := 1, 2 := 1, 3 := 2, 4 := 2];
      ReallyHeld(LopsidedStudents(), level, 1) == {1, 2} && ReallyHeld(LopsidedStudents(), level, 2) == {3, 4}
  {
    hide *;
    TwoEach();
    LopsidedMoved(map[1 := 1, 2 := 1, 3 := 2, 4 := 2], 1);
    LopsidedMoved(map[1 := 1, 2 := 1, 3 := 2, 4 := 2], 2);
    NobodyToOne(order, todo, plan);
    EveryStudentPlaced(LopsidedUsers(), LopsidedStudents(), order, todo, plan, {1, 2, 3, 4});
    LopsidedLoad();
    OneOrTwo(plan.target);
    LopsidedMoved(plan.target, 1);
    LopsidedMoved(plan.target, 2);
  }

  /** An agent who has as many as any placement would give anybody receives nobody. */
  lemma NobodyMore(users: map<Id, User>, students: map<Id, Student>, order: seq<Id>, todo: seq<Id>, plan: Plan,
                   s: set<Id>, other: map<Id, Id>, agent: Id)
    requires Decided(users, students, order, todo, plan) && Lists(todo, s) && agent in Agents(users)
    requires other.Keys == s && forall x :: x in other ==> other[x] in Agents(users)
    requires forall a :: a in Agents(users) ==> |Held(students, a)| + |Receives(other, a)| <= |Held(students, agent)|
    ensures |Receives(plan.target, agent)| == 0
  {
    hide *;
    EveryStudentPlaced(users, students, order, todo, plan, s);
    PlanIsOptimal(users, students, order, todo, plan, s, other, |Held(students, agent)|);
    assert plan.load[agent] <= |Held(students, agent)|;
  }

  lemma NobodyToOne(order: seq<Id>, todo: seq<Id>, plan: Plan)
    requires Decided(LopsidedUsers(), LopsidedStudents(), order, todo, plan) && Lists(todo, {1, 2, 3, 4})
    ensures |Receives(plan.target, 1)| == 0
  {
    hide *;
    LopsidedLoad();
    AllToTwoReceives();
    NobodyMore(LopsidedUsers(), LopsidedStudents(), order, todo, plan, {1, 2, 3, 4}, AllToTwo(), 1);
  }

  lemma OneOrTwo(target: map<Id, Id>)
    requires |Receives(target, 1)| == 0 && forall x :: x in target ==> target[x] in {1, 2}
    ensures Receives(target, 1) == {} && Receives(target, 2) == target.Keys
  {
    forall x | x in target ensures target[x] == 2 {
      assert x !in Receives(target, 1);
    }
  }
}
