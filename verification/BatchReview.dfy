/**
 The review of one assignment batch (app/assignment_batch_review.py): which agent each student of the batch
 went to, and the funnel of the batch per agent. Rates, names and alerts are not modelled.
 */
module BatchReview {
  import opened Common
  import opened StatusPolicy

  type Id = nat
  type Time = int

  /** A log entry of the batch that names a student; `recorded` is the agent in its rollback note, if the note
      has one (who may be nobody). */
  datatype DetailLog = DetailLog(student: Id, createdAt: Time, recorded: Option<Option<Id>>)
  datatype Student = Student(assignedTo: Option<Id>, status: string, updatedAt: Option<Time>)
  datatype Dial = Dial(student: Id, dialedAt: Time)
  datatype StatusChange = StatusChange(student: Option<Id>, newStatus: string, createdAt: Time)
  datatype Enrollment = Enrollment(student: Id, enrolledAt: Time)

  /** The rows the review reads; the detail logs are in order of time and id. */
  datatype Records = Records(
    detail: seq<DetailLog>, students: map<Id, Student>, dials: seq<Dial>, changes: seq<StatusChange>,
    enrollments: seq<Enrollment>, windowLength: Time)

  datatype Metrics = Metrics(total: nat, dialed: nat, handled: nat, enrolled: nat, undialed: nat, unhandled: nat)

  datatype Sets = Sets(members: set<Id>, dialed: set<Id>, handled: set<Id>, enrolled: set<Id>)

  datatype Review = Review(funnel: Metrics, agents: map<Option<Id>, Metrics>, unhandled: seq<Id>, incompleteTrace: bool)

  // ---------------------------------------------------------------- who got whom

  function StudentIds(detail: seq<DetailLog>): set<Id> {
    set i | 0 <= i < |detail| :: detail[i].student
  }

  /** _assignment_agent_id */
  function AgentIn(log: DetailLog, students: map<Id, Student>): Option<Id> {
    if log.recorded.Some? then log.recorded.value
    else if log.student in students then students[log.student].assignedTo
    else None
  }

  /** The assignments dict after the logs, each overwriting those before it. */
  function Assignments(detail: seq<DetailLog>, students: map<Id, Student>): map<Id, Option<Id>> {
    if detail == [] then map[] else
      var last := detail[|detail| - 1];
      Assignments(detail[..|detail| - 1], students)[last.student := AgentIn(last, students)]
  }

  /** Every student of the batch has an agent, or nobody, and his last log decides which. */
  lemma {:induction false} LastLogDecides(detail: seq<DetailLog>, students: map<Id, Student>, i: nat)
    requires i < |detail| && forall j :: i < j < |detail| ==> detail[j].student != detail[i].student
    ensures detail[i].student in Assignments(detail, students)
    ensures Assignments(detail, students)[detail[i].student] ==
      if detail[i].recorded.Some? then detail[i].recorded.value
      else if detail[i].student in students then students[detail[i].student].assignedTo else None
  {
    if i < |detail| - 1 {
      LastLogDecides(detail[..|detail| - 1], students, i);
    }
  }

  lemma {:induction false} AssignmentsCover(detail: seq<DetailLog>, students: map<Id, Student>)
    ensures Assignments(detail, students).Keys == StudentIds(detail)
  {
    if detail != [] {
      var n := |detail| - 1;
      AssignmentsCover(detail[..n], students);
      assert forall i :: 0 <= i < n ==> detail[..n][i] == detail[i];
      assert StudentIds(detail) == StudentIds(detail[..n]) + {detail[n].student} by {
        forall x | x in StudentIds(detail[..n]) ensures x in StudentIds(detail) {
          var i :| 0 <= i < n && detail[..n][i].student == x;
          assert detail[i].student == x;
        }
        assert detail[n].student in StudentIds(detail);
      }
    }
  }

  // ---------------------------------------------------------------- the funnel

  predicate IsEffective(status: string) {
    CanonicalOfText(status) !in {Unmapped, NotContacted}
  }

  predicate InWindow(r: Records, at: Time)
    requires r.detail != []
  {
    r.detail[0].createdAt <= at < r.detail[0].createdAt + r.windowLength
  }

  predicate WasDialed(r: Records, id: Id)
    requires r.detail != []
  {
    exists i :: 0 <= i < |r.dials| && r.dials[i].student == id && InWindow(r, r.dials[i].dialedAt)
  }

  predicate WasHandled(r: Records, id: Id)
    requires r.detail != []
  {
    || (exists i :: 0 <= i < |r.changes| && r.changes[i].student == Some(id) && InWindow(r, r.changes[i].createdAt)
          && IsEffective(r.changes[i].newStatus))
    || (id in r.students && IsEffective(r.students[id].status) && r.students[id].updatedAt.Some?
        && InWindow(r, r.students[id].updatedAt.value))
  }

  predicate IsEnrolled(r: Records, id: Id)
    requires r.detail != []
  {
    || (exists i ::
          0 <= i < |r.enrollments| && r.enrollments[i].student == id && InWindow(r, r.enrollments[i].enrolledAt))
    || (id in r.students && CanonicalOfText(r.students[id].status) == Enrolled)
  }

  function DialedIn(r: Records, ids: set<Id>): set<Id>
    requires r.detail != []
  {
    set id | id in ids && WasDialed(r, id)
  }

  function HandledIn(r: Records, ids: set<Id>): set<Id>
    requires r.detail != []
  {
    set id | id in ids && WasHandled(r, id)
  }

  function EnrolledIn(r: Records, ids: set<Id>): set<Id>
    requires r.detail != []
  {
    set id | id in ids && IsEnrolled(r, id)
  }

  /** The four sets of a group of students. */
  function SetsOf(r: Records, ids: set<Id>): Sets
    requires r.detail != []
  {
    Sets(ids, DialedIn(r, ids), HandledIn(r, ids), EnrolledIn(r, ids))
  }

  function Max0(n: int): nat {
    if n > 0 then n else 0
  }

  /** _row_metrics */
  function RowMetrics(s: Sets): Metrics {
    Metrics(|s.members|, |s.dialed|, |s.handled|, |s.enrolled|, Max0(|s.members| - |s.dialed|),
            Max0(|s.members| - |s.handled|))
  }

  /** The students an assignment gives one agent. */
  function Of(assignments: map<Id, Option<Id>>, ids: set<Id>, agent: Option<Id>): set<Id> {
    set id | id in ids && id in assignments && assignments[id] == agent
  }

  /** From the first log of the batch, that instant included, for the length of the window, its end excluded. */
  predicate InTime(r: Records, at: Time)
    requires r.detail != []
  {
    at >= r.detail[0].createdAt && at - r.detail[0].createdAt < r.windowLength
  }

  /** A status somebody worked for: contacted, not reached, to be visited, enrolled or invalid. */
  predicate Worked(status: string) {
    CanonicalOfText(status) in {Contacted, NotReached, PendingVisit, Enrolled, Invalid}
  }

  /** Who counts as dialed, handled and enrolled, told of the rows. */
  lemma CountedExactly(r: Records, id: Id)
    requires r.detail != []
    ensures WasDialed(r, id) <==> exists d :: d in r.dials && d.student == id && InTime(r, d.dialedAt)
    ensures WasHandled(r, id) <==>
      (exists c :: c in r.changes && c.student == Some(id) && InTime(r, c.createdAt) && Worked(c.newStatus))
      || (id in r.students && Worked(r.students[id].status) && r.students[id].updatedAt.Some?
          && InTime(r, r.students[id].updatedAt.value))
    ensures IsEnrolled(r, id) <==>
      (exists e :: e in r.enrollments && e.student == id && InTime(r, e.enrolledAt))
      || (id in r.students && CanonicalOfText(r.students[id].status) == Enrolled)
  {
    hide CanonicalOfText;
    assert WasDialed(r, id) ==> exists d :: d in r.dials && d.student == id && InTime(r, d.dialedAt);
    ChangeCounts(r, id);
    assert IsEnrolled(r, id) ==>
      (exists e :: e in r.enrollments && e.student == id && InTime(r, e.enrolledAt))
      || (id in r.students && CanonicalOfText(r.students[id].status) == Enrolled);
  }

  lemma EffectiveMeansWorked(status: string)
    ensures IsEffective(status) <==> Worked(status)
  {
    hide CanonicalOfText;
    match CanonicalOfText(status) {
      case NotContacted =>
      case Contacted =>
      case NotReached =>
      case PendingVisit =>
      case Enrolled =>
      case Invalid =>
      case Unmapped =>
    }
  }

  lemma ChangeCounts(r: Records, id: Id)
    requires r.detail != []
    ensures (exists i :: 0 <= i < |r.changes| && r.changes[i].student == Some(id) && InWindow(r, r.changes[i].createdAt)
               && IsEffective(r.changes[i].newStatus))
      <==> exists c :: c in r.changes && c.student == Some(id) && InTime(r, c.createdAt) && Worked(c.newStatus)
    ensures forall status :: IsEffective(status) <==> Worked(status)
  {
    forall status ensures IsEffective(status) <==> Worked(status) {
      EffectiveMeansWorked(status);
    }
    hide IsEffective, Worked;
    if c :| c in r.changes && c.student == Some(id) && InTime(r, c.createdAt) && Worked(c.newStatus) {
      var i :| 0 <= i < |r.changes| && r.changes[i] == c;
      assert InWindow(r, r.changes[i].createdAt) && IsEffective(r.changes[i].newStatus);
    }
  }

  // ---------------------------------------------------------------- a partition adds up

  function Sizes(assignments: map<Id, Option<Id>>, ids: set<Id>, agents: set<Option<Id>>): map<Option<Id>, nat> {
    map a | a in agents :: |Of(assignments, ids, a)|
  }

  lemma SizesOneMore(assignments: map<Id, Option<Id>>, ids: set<Id>, agents: set<Option<Id>>, id: Id)
    requires id !in ids && id in assignments && assignments[id] in agents
    ensures var sizes := Sizes(assignments, ids, agents);
      Sizes(assignments, ids + {id}, agents) == sizes[assignments[id] := sizes[assignments[id]] + 1]
  {
    forall a | a in agents
      ensures |Of(assignments, ids + {id}, a)| == |Of(assignments, ids, a)| + if a == assignments[id] then 1 else 0
    {
      if a == assignments[id] {
        SizeOneMore(Of(assignments, ids + {id}, a), Of(assignments, ids, a), id);
      } else {
        assert Of(assignments, ids + {id}, a) == Of(assignments, ids, a);
      }
    }
  }

  /** Whatever students are counted, the agents' shares of them add up to all of them. */
  lemma {:induction false} SharesAddUp(assignments: map<Id, Option<Id>>, ids: set<Id>, agents: set<Option<Id>>)
    requires forall id :: id in ids ==> id in assignments && assignments[id] in agents
    ensures Total(Sizes(assignments, ids, agents)) == |ids|
  {
    hide Of, Total;
    if ids == {} {
      NoSizes(assignments, agents);
    } else {
      var id :| id in ids;
      var fewer := ids - {id};
      SharesAddUp(assignments, fewer, agents);
      assert fewer + {id} == ids;
      var sizes := Sizes(assignments, fewer, agents);
      SizesOneMore(assignments, fewer, agents, id);
      TotalSet(sizes, assignments[id], sizes[assignments[id]] + 1);
      TotalWithout(sizes, assignments[id]);
      SizeOneMore(ids, fewer, id);
    }
  }

  lemma NoSizes(assignments: map<Id, Option<Id>>, agents: set<Option<Id>>)
    ensures Total(Sizes(assignments, {}, agents)) == 0
  {
    forall a: Option<Id> ensures Of(assignments, {}, a) == {} {
    }
    TotalZero(Sizes(assignments, {}, agents));
  }

  // ---------------------------------------------------------------- the review

  function AgentIds(assignments: map<Id, Option<Id>>): set<Option<Id>> {
    set id | id in assignments :: assignments[id]
  }

  /** The grouped dict after some students. */
  ghost predicate Grouped(r: Records, assignments: map<Id, Option<Id>>, ids: set<Id>, grouped: map<Option<Id>, Sets>)
    requires r.detail != []
  {
    && (forall a :: a in grouped <==> Of(assignments, ids, a) != {})
    && (forall a :: a in grouped ==> grouped[a] == SetsOf(r, Of(assignments, ids, a)))
  }

  function AddStudent(r: Records, s: Sets, id: Id): Sets
    requires r.detail != []
  {
    Sets(s.members + {id}, s.dialed + (if WasDialed(r, id) then {id} else {}),
         s.handled + (if WasHandled(r, id) then {id} else {}), s.enrolled + (if IsEnrolled(r, id) then {id} else {}))
  }

  lemma AddStudentSets(r: Records, ids: set<Id>, id: Id)
    requires r.detail != []
    ensures AddStudent(r, SetsOf(r, ids), id) == SetsOf(r, ids + {id})
  {
    hide WasDialed, WasHandled, IsEnrolled;
    assert DialedIn(r, ids + {id}) == DialedIn(r, ids) + if WasDialed(r, id) then {id} else {};
    assert HandledIn(r, ids + {id}) == HandledIn(r, ids) + if WasHandled(r, id) then {id} else {};
    assert EnrolledIn(r, ids + {id}) == EnrolledIn(r, ids) + if IsEnrolled(r, id) then {id} else {};
  }

  lemma OfOneMore(assignments: map<Id, Option<Id>>, ids: set<Id>, id: Id, a: Option<Id>)
    requires id in assignments
    ensures Of(assignments, ids + {id}, a) ==
      if assignments[id] == a then Of(assignments, ids, a) + {id} else Of(assignments, ids, a)
  {
  }

  const NO_SETS := Sets({}, {}, {}, {})

  lemma GroupedOneMore(r: Records, assignments: map<Id, Option<Id>>, ids: set<Id>, grouped: map<Option<Id>, Sets>,
                       id: Id)
    requires r.detail != [] && Grouped(r, assignments, ids, grouped) && id in assignments
    ensures var agent := assignments[id];
      Grouped(r, assignments, ids + {id},
              grouped[agent := AddStudent(r, if agent in grouped then grouped[agent] else NO_SETS, id)])
  {
    hide Of, SetsOf, AddStudent;
    var agent := assignments[id];
    forall a {
      OfOneMore(assignments, ids, id, a);
    }
    AddStudentSets(r, Of(assignments, ids, agent), id);
    NoSets(r);
    assert id in Of(assignments, ids + {id}, agent);
    var before := if agent in grouped then grouped[agent] else NO_SETS;
    assert before == SetsOf(r, Of(assignments, ids, agent));
  }

  lemma NoSets(r: Records)
    requires r.detail != []
    ensures SetsOf(r, {}) == NO_SETS
  {
  }

  lemma NothingGrouped(r: Records, assignments: map<Id, Option<Id>>)
    requires r.detail != []
    ensures Grouped(r, assignments, {}, map[])
  {
  }

  /** What the review reports. */
  ghost predicate Reports(r: Records, review: Review)
    requires r.detail != []
  {
    var ids := StudentIds(r.detail);
    var assignments := Assignments(r.detail, r.students);
    && review.funnel == RowMetrics(SetsOf(r, ids))
    && review.agents.Keys == AgentIds(assignments)
    && (forall a :: a in review.agents ==> review.agents[a] == RowMetrics(SetsOf(r, Of(assignments, ids, a))))
    && (forall id :: id in review.unhandled <==>
        id in ids && id in r.students && !(WasDialed(r, id) && WasHandled(r, id)))
    && (review.incompleteTrace <==> exists i :: 0 <= i < |r.detail| && r.detail[i].recorded.None?)
  }

  /** student_ids and the assignments dict, from the logs in order. */
  method ReadLogs(r: Records) returns (ids: seq<Id>, assignments: map<Id, Option<Id>>, incomplete: bool)
    ensures forall x :: x in ids <==> x in StudentIds(r.detail)
    ensures forall i, j :: 0 <= i < j < |ids| ==> ids[i] != ids[j]
    ensures assignments == Assignments(r.detail, r.students)
    ensures incomplete <==> exists i :: 0 <= i < |r.detail| && r.detail[i].recorded.None?
  {
    ids, assignments, incomplete := [], map[], false;
    for n := 0 to |r.detail|
      invariant forall x :: x in ids <==> x in StudentIds(r.detail[..n])
      invariant forall i, j :: 0 <= i < j < |ids| ==> ids[i] != ids[j]
      invariant assignments == Assignments(r.detail[..n], r.students)
      invariant incomplete <==> exists i :: 0 <= i < n && r.detail[i].recorded.None?
    {
      var log := r.detail[n];
      IdsOneMore(r.detail, n);
      assert r.detail[..n + 1][..n] == r.detail[..n];
      if log.student !in ids {
        ids := ids + [log.student];
      }
      incomplete := incomplete || log.recorded.None?;
      assignments := assignments[log.student := AgentIn(log, r.students)];
    }
    assert r.detail[..|r.detail|] == r.detail;
  }

  lemma IdsOneMore(detail: seq<DetailLog>, n: nat)
    requires n < |detail|
    ensures StudentIds(detail[..n + 1]) == StudentIds(detail[..n]) + {detail[n].student}
  {
    var more := detail[..n + 1];
    forall x | x in StudentIds(detail[..n]) + {detail[n].student} ensures x in StudentIds(more) {
      if x == detail[n].student {
        assert more[n].student == x;
      } else {
        var i :| 0 <= i < n && detail[..n][i].student == x;
        assert more[i].student == x;
      }
    }
  }

  /** The grouping loop. */
  method Group(r: Records, assignments: map<Id, Option<Id>>) returns (grouped: map<Option<Id>, Sets>)
    requires r.detail != []
    ensures Grouped(r, assignments, assignments.Keys, grouped)
  {
    hide Grouped, AddStudent;
    NothingGrouped(r, assignments);
    grouped := map[];
    var rest := assignments.Keys;
    ghost var done: set<Id> := {};
    while rest != {}
      invariant rest <= assignments.Keys && done == assignments.Keys - rest
      invariant Grouped(r, assignments, done, grouped)
    {
      var id :| id in rest;
      var agent := assignments[id];
      GroupedOneMore(r, assignments, done, grouped, id);
      grouped := grouped[agent := AddStudent(r, if agent in grouped then grouped[agent] else NO_SETS, id)];
      rest, done := rest - {id}, done + {id};
    }
    assert done == assignments.Keys;
  }

  lemma AgentsAreGrouped(assignments: map<Id, Option<Id>>, a: Option<Id>)
    ensures a in AgentIds(assignments) <==> Of(assignments, assignments.Keys, a) != {}
  {
    if id :| id in Of(assignments, assignments.Keys, a) {
      assert id in assignments && assignments[id] == a;
    }
    if id :| id in assignments && assignments[id] == a {
      assert id in Of(assignments, assignments.Keys, a);
    }
  }

  /** build_assignment_batch_review: nothing for a batch without detail logs. */
  method Build(r: Records) returns (result: Option<Review>)
    ensures result.None? <==> r.detail == []
    ensures result.Some? ==> Reports(r, result.value)
  {
    if r.detail == [] {
      return None;
    }
    hide *;
    var ids, assignments, incomplete := ReadLogs(r);
    AssignmentsCover(r.detail, r.students);
    var grouped := Group(r, assignments);
    var members := set x | x in ids;
    var funnel := RowMetrics(SetsOf(r, members));
    var agents := map a | a in grouped :: RowMetrics(grouped[a]);
    var unhandled := Unhandled(r, ids);
    Assembled(r, ids, members, assignments, grouped, Review(funnel, agents, unhandled, incomplete));
    return Some(Review(funnel, agents, unhandled, incomplete));
  }

  /** The loop that lists the students still to be dialed or handled. */
  method Unhandled(r: Records, ids: seq<Id>) returns (unhandled: seq<Id>)
    requires r.detail != []
    ensures forall id :: id in unhandled <==> id in ids && id in r.students && !(WasDialed(r, id) && WasHandled(r, id))
  {
    hide WasDialed, WasHandled;
    unhandled := [];
    for n := 0 to |ids|
      invariant forall id :: id in unhandled <==>
        id in ids[..n] && id in r.students && !(WasDialed(r, id) && WasHandled(r, id))
    {
      assert ids[..n + 1] == ids[..n] + [ids[n]];
      if !(WasDialed(r, ids[n]) && WasHandled(r, ids[n])) && ids[n] in r.students {
        unhandled := unhandled + [ids[n]];
      }
    }
    assert ids[..|ids|] == ids;
  }

  lemma Assembled(r: Records, ids: seq<Id>, members: set<Id>, assignments: map<Id, Option<Id>>,
                  grouped: map<Option<Id>, Sets>, review: Review)
    requires r.detail != [] && (forall x :: x in ids <==> x in StudentIds(r.detail))
    requires assignments == Assignments(r.detail, r.students) && assignments.Keys == StudentIds(r.detail)
    requires Grouped(r, assignments, assignments.Keys, grouped)
    requires (forall x :: x in members <==> x in ids) && review.funnel == RowMetrics(SetsOf(r, members))
    requires review.agents == map a | a in grouped :: RowMetrics(grouped[a])
    requires forall id :: id in review.unhandled <==>
      id in ids && id in r.students && !(WasDialed(r, id) && WasHandled(r, id))
    requires review.incompleteTrace <==> exists i :: 0 <= i < |r.detail| && r.detail[i].recorded.None?
    ensures Reports(r, review)
  {
    hide WasDialed, WasHandled, IsEnrolled, SetsOf, Of, RowMetrics, Assignments, StudentIds, AgentIds;
    assert members == StudentIds(r.detail);
    forall a {
      AgentsAreGrouped(assignments, a);
    }
    assert review.agents.Keys == AgentIds(assignments);
  }

  // ---------------------------------------------------------------- the agents add up to the funnel

  lemma PartsOf(assignments: map<Id, Option<Id>>, r: Records, ids: set<Id>, a: Option<Id>)
    requires r.detail != []
    ensures DialedIn(r, Of(assignments, ids, a)) == Of(assignments, DialedIn(r, ids), a)
    ensures HandledIn(r, Of(assignments, ids, a)) == Of(assignments, HandledIn(r, ids), a)
    ensures EnrolledIn(r, Of(assignments, ids, a)) == Of(assignments, EnrolledIn(r, ids), a)
  {
    hide WasDialed, WasHandled, IsEnrolled;
  }

  /** What is left of a group is the group of what is left. */
  lemma RestOf(assignments: map<Id, Option<Id>>, ids: set<Id>, part: set<Id>, a: Option<Id>)
    requires part <= ids
    ensures Max0(|Of(assignments, ids, a)| - |Of(assignments, part, a)|) == |Of(assignments, ids - part, a)|
    ensures Max0(|ids| - |part|) == |ids - part|
  {
    SizeOfParts(Of(assignments, ids, a), Of(assignments, part, a), Of(assignments, ids - part, a));
    SizeOfParts(ids, part, ids - part);
  }

  function Column(agents: map<Option<Id>, Metrics>, pick: Metrics -> nat): map<Option<Id>, nat> {
    map a | a in agents :: pick(agents[a])
  }

  lemma ColumnIsSizes(agents: map<Option<Id>, Metrics>, pick: Metrics -> nat, assignments: map<Id, Option<Id>>,
                      ids: set<Id>)
    requires forall a :: a in agents ==> pick(agents[a]) == |Of(assignments, ids, a)|
    requires forall id :: id in ids ==> id in assignments && assignments[id] in agents
    ensures Total(Column(agents, pick)) == |ids|
  {
    hide Of, Total;
    SharesAddUp(assignments, ids, agents.Keys);
    assert Column(agents, pick) == Sizes(assignments, ids, agents.Keys);
  }

  lemma AgentMetrics(r: Records, review: Review, a: Option<Id>)
    requires r.detail != [] && Reports(r, review) && a in review.agents
    ensures var ids := StudentIds(r.detail); var assignments := Assignments(r.detail, r.students);
      var m := review.agents[a];
      && m.total == |Of(assignments, ids, a)| && m.dialed == |Of(assignments, DialedIn(r, ids), a)|
      && m.handled == |Of(assignments, HandledIn(r, ids), a)| && m.enrolled == |Of(assignments, EnrolledIn(r, ids), a)|
      && m.undialed == |Of(assignments, ids - DialedIn(r, ids), a)|
      && m.unhandled == |Of(assignments, ids - HandledIn(r, ids), a)|
  {
    hide WasDialed, WasHandled, IsEnrolled, Of, StudentIds, Assignments;
    var ids := StudentIds(r.detail);
    var assignments := Assignments(r.detail, r.students);
    PartsOf(assignments, r, ids, a);
    RestOf(assignments, ids, DialedIn(r, ids), a);
    RestOf(assignments, ids, HandledIn(r, ids), a);
  }

  /** For any records, the agents' assigned, dialed, handled, enrolled, undialed and unhandled counts each add
      up to the funnel of the batch. */
  lemma AgentsAddUpToFunnel(r: Records, review: Review)
    requires r.detail != [] && Reports(r, review)
    ensures Total(Column(review.agents, (m: Metrics) => m.total)) == review.funnel.total
    ensures Total(Column(review.agents, (m: Metrics) => m.dialed)) == review.funnel.dialed
    ensures Total(Column(review.agents, (m: Metrics) => m.handled)) == review.funnel.handled
    ensures Total(Column(review.agents, (m: Metrics) => m.enrolled)) == review.funnel.enrolled
    ensures Total(Column(review.agents, (m: Metrics) => m.undialed)) == review.funnel.undialed
    ensures Total(Column(review.agents, (m: Metrics) => m.unhandled)) == review.funnel.unhandled
  {
    hide WasDialed, WasHandled, IsEnrolled, Of, StudentIds, Assignments, Total, Column;
    var ids := StudentIds(r.detail);
    var assignments := Assignments(r.detail, r.students);
    AssignmentsCover(r.detail, r.students);
    forall a | a in review.agents {
      AgentMetrics(r, review, a);
    }
    assert forall id :: id in ids ==> assignments[id] in review.agents;
    RestOf(assignments, ids, DialedIn(r, ids), None);
    RestOf(assignments, ids, HandledIn(r, ids), None);
    ColumnIsSizes(review.agents, (m: Metrics) => m.total, assignments, ids);
    ColumnIsSizes(review.agents, (m: Metrics) => m.dialed, assignments, DialedIn(r, ids));
    ColumnIsSizes(review.agents, (m: Metrics) => m.handled, assignments, HandledIn(r, ids));
    ColumnIsSizes(review.agents, (m: Metrics) => m.enrolled, assignments, EnrolledIn(r, ids));
    ColumnIsSizes(review.agents, (m: Metrics) => m.undialed, assignments, ids - DialedIn(r, ids));
    ColumnIsSizes(review.agents, (m: Metrics) => m.unhandled, assignments, ids - HandledIn(r, ids));
  }

  /** The numbers of a group of students: how many were dialed, worked on and enrolled, and how many were not. */
  ghost predicate Says(r: Records, ids: set<Id>, m: Metrics)
    requires r.detail != []
  {
    && m.total == |ids|
    && m.dialed == |set id | id in ids && WasDialed(r, id)|
    && m.handled == |set id | id in ids && WasHandled(r, id)|
    && m.enrolled == |set id | id in ids && IsEnrolled(r, id)|
    && m.undialed == |set id | id in ids && !WasDialed(r, id)|
    && m.unhandled == |set id | id in ids && !WasHandled(r, id)|
  }

  lemma MetricsSay(r: Records, ids: set<Id>)
    requires r.detail != []
    ensures Says(r, ids, RowMetrics(SetsOf(r, ids)))
  {
    hide WasDialed, WasHandled, IsEnrolled;
    var undialed := set id | id in ids && !WasDialed(r, id);
    var unhandled := set id | id in ids && !WasHandled(r, id);
    SizeOfParts(ids, DialedIn(r, ids), undialed);
    SizeOfParts(ids, HandledIn(r, ids), unhandled);
  }

  /** What a review reports is so: the funnel of all students its logs name, and a row for each agent of those whose
      last log gave them to him. */
  lemma ReviewIsTrue(r: Records, review: Review)
    requires r.detail != [] && Reports(r, review)
    ensures Says(r, (set i | 0 <= i < |r.detail| :: r.detail[i].student), review.funnel)
    ensures forall a :: a in review.agents ==>
      Says(r, (set id | id in Assignments(r.detail, r.students) && Assignments(r.detail, r.students)[id] == a),
           review.agents[a])
  {
    hide Says, RowMetrics, SetsOf;
    MetricsSay(r, StudentIds(r.detail));
    AssignmentsCover(r.detail, r.students);
    var assignments := Assignments(r.detail, r.students);
    forall a | a in review.agents
      ensures Says(r, (set id | id in assignments && assignments[id] == a), review.agents[a])
    {
      MetricsSay(r, Of(assignments, StudentIds(r.detail), a));
      assert Of(assignments, StudentIds(r.detail), a) == set id | id in assignments && assignments[id] == a;
    }
  }
}
