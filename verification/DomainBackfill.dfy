/**
 Building the domain tables from the legacy rows, and the independent audit of the result
 (app/migration_data/domain_backfill_20260711.py). Tables are maps from id to row; a null text is "".
 Columns the backfill fills with a constant and nobody reads are not modelled.
 */
module DomainBackfill {
  import opened Common

  type Id = nat
  type Time = int

  datatype User = User(role: string, username: string, name: string, active: bool)
  datatype Student = Student(
    assignedTo: Option<Id>, status: string, statusDetail: string, needHelp: bool, outcomeCode: string,
    assignedAt: Option<Time>, createdAt: Option<Time>, updatedAt: Option<Time>)
  datatype Log = Log(action: string, content: string)
  datatype FollowUp = FollowUp(studentId: Id, agentId: Id, followUpDate: Option<Time>, completed: bool,
                               createdAt: Option<Time>)
  datatype HomeTask = HomeTask(
    studentId: Id, creatorId: Id, status: string, result: string, nextAction: string, priority: string,
    nextFollowUpAt: Option<Time>, scheduledAt: Option<Time>, requestedVisitTime: Option<Time>, createdAt: Option<Time>)
  datatype CampusTask = CampusTask(
    studentId: Id, creatorId: Id, status: string, result: string, nextAction: string,
    nextFollowUpAt: Option<Time>, appointmentAt: Option<Time>, createdAt: Option<Time>)
  datatype Enrollment = Enrollment(
    studentId: Id, attributedAgentId: Id, settlementStatus: string, enrolledAt: Option<Time>, createdAt: Option<Time>)

  datatype Employment = Employment(status: string, statusChangedAt: Time, offboardedAt: Option<Time>)
  datatype Event = Event(userId: Id, fromStatus: string, toStatus: string, reason: string, createdAt: Time)
  datatype Assignment = Assignment(studentId: Id, agentId: Id, startedAt: Time, endedAt: Option<Time>)
  datatype Key = Key(kind: string, sourceType: string, sourceId: Id)
  datatype Item = Item(
    studentId: Id, key: Key, status: string, owner: Option<Id>, creator: Option<Id>, priority: string,
    dueAt: Option<Time>, createdAt: Time, updatedAt: Time)
  datatype Outcome = Outcome(reason: string, terminal: bool, reclaimable: bool, sortOrder: int)

  datatype Tables = Tables(
    users: map<Id, User>, students: map<Id, Student>, logs: map<Id, Log>, followUps: map<Id, FollowUp>,
    home: map<Id, HomeTask>, campus: map<Id, CampusTask>, enrollments: map<Id, Enrollment>,
    employment: map<Id, Employment>, events: map<Id, Event>, assignments: map<Id, Assignment>,
    items: map<Id, Item>, outcomes: map<string, Outcome>)

  // ---------------------------------------------------------------- text

  predicate IsSpace(c: char) {
    var n := c as int;
    n in {0x20, 0x85, 0xA0, 0x1680, 0x2028, 0x2029, 0x202F, 0x205F, 0x3000}
    || 0x09 <= n <= 0x0D || 0x1C <= n <= 0x1F || 0x2000 <= n <= 0x200A
  }

  function StripLeft(s: string): string {
    if s != "" && IsSpace(s[0]) then StripLeft(s[1..]) else s
  }

  function StripRight(s: string): string {
    if s != "" && IsSpace(s[|s| - 1]) then StripRight(s[..|s| - 1]) else s
  }

  function Strip(s: string): string {
    StripRight(StripLeft(s))
  }

  predicate Blank(s: string) {
    Strip(s) == ""
  }

  function LowerChar(c: char): char {
    if 'A' <= c <= 'Z' then c + 32 as char else c
  }

  function Lower(s: string): string {
    seq(|s|, i requires 0 <= i < |s| => LowerChar(s[i]))
  }

  // ---------------------------------------------------------------- statuses and outcomes

  const INVALID_STATUS_VALUES := {
    "invalid", "completed", "expired", "high_score", "not_interested", "no_intent", "child_not_want_study",
    "child_not_interested", "无效", "已完成", "已过期", "高分段", "无意向", "孩子不想读"}
  const TERMINAL_STATUS_VALUES := INVALID_STATUS_VALUES + {"enrolled", "已报名"}

  const OUTCOME_ROWS: seq<(string, Outcome)> := [
    ("phone_invalid", Outcome("空号", true, true, 10)),
    ("high_score", Outcome("高分段", true, true, 20)),
    ("no_intent", Outcome("无意向", true, true, 30)),
    ("child_declined", Outcome("孩子不想读", true, true, 40)),
    ("enrolled_elsewhere", Outcome("已报名其他学校", true, false, 50)),
    ("legacy_unspecified", Outcome("历史未注明", true, true, 90)),
    ("other", Outcome("其他", true, true, 100))]

  predicate IsTerminal(status: string) {
    Strip(status) in TERMINAL_STATUS_VALUES
  }

  predicate IsInvalid(status: string) {
    Strip(status) in INVALID_STATUS_VALUES
  }

  /** REASON_CODE_BY_TEXT */
  function ReasonCode(text: string, default: string): string {
    if text in {"空号", "phone_invalid"} then "phone_invalid"
    else if text in {"高分段", "high_score"} then "high_score"
    else if text in {"无意向", "not_interested", "no_intent"} then "no_intent"
    else if text in {"孩子不想读", "child_not_want_study", "child_not_interested"} then "child_declined"
    else if text in {"报好了", "已报名其他学校", "enrolled_elsewhere"} then "enrolled_elsewhere"
    else if text in {"其他", "other"} then "other"
    else default
  }

  function OutcomeCode(s: Student): string {
    if !Blank(s.statusDetail) then ReasonCode(Strip(s.statusDetail), "other")
    else ReasonCode(Strip(s.status), "legacy_unspecified")
  }

  function CatalogueCodes(): set<string> {
    CodesUpTo(OUTCOME_ROWS, |OUTCOME_ROWS|)
  }

  // ---------------------------------------------------------------- employment

  function OffboardMarker(u: User): string {
    "离职 " + u.role + " " + u.username + "(" + u.name + ")："
  }

  predicate HasOffboardLog(t: Tables, u: User) {
    exists l :: l in t.logs && t.logs[l].action == "离职用户" && OffboardMarker(u) <= t.logs[l].content
  }

  predicate OwnsNonterminal(t: Tables, user: Id) {
    exists s :: s in t.students && t.students[s].assignedTo == Some(user) && !IsTerminal(t.students[s].status)
  }

  /** The status _employment_statuses gives one user. */
  function DerivedStatus(t: Tables, user: Id): string
    requires user in t.users
  {
    if t.users[user].active then "active"
    else if HasOffboardLog(t, t.users[user]) && !OwnsNonterminal(t, user) then "offboarded"
    else "suspended"
  }

  /** The employment status of every user once the backfill is through. */
  function Statuses(t: Tables): map<Id, string> {
    map u | u in t.users :: if u in t.employment then t.employment[u].status else DerivedStatus(t, u)
  }

  function EmploymentOf(status: string, now: Time): Employment {
    Employment(status, now, if status == "offboarded" then Some(now) else None)
  }

  function EmploymentAfter(t: Tables, now: Time): map<Id, Employment> {
    map u | u in t.employment.Keys + t.users.Keys ::
      if u in t.employment then t.employment[u] else EmploymentOf(DerivedStatus(t, u), now)
  }

  // ---------------------------------------------------------------- assignments

  function ActiveRows(assignments: map<Id, Assignment>, student: Id): set<Id> {
    set a | a in assignments && assignments[a].endedAt.None? && assignments[a].studentId == student
  }

  ghost function Latest(ids: set<Id>): (id: Id)
    requires ids != {}
    ensures id in ids && forall x :: x in ids ==> x <= id
  {
    var x :| x in ids;
    if ids == {x} then x else
      var y := Latest(ids - {x});
      assert ids == ids - {x} + {x};
      if x < y then y else x
  }

  /** A dict built from the rows in order of id keeps the last active row of each student. */
  ghost function ActiveAgent(assignments: map<Id, Assignment>, student: Id): Option<Id> {
    var rows := ActiveRows(assignments, student);
    if rows == {} then None else Some(assignments[Latest(rows)].agentId)
  }

  function FirstOf(a: Option<Time>, b: Option<Time>): Option<Time> {
    if a.Some? then a else b
  }

  function TimeOr(a: Option<Time>, default: Time): Time {
    if a.Some? then a.value else default
  }

  predicate Unrecorded(t: Tables, student: Id) {
    student in t.students && t.students[student].assignedTo.Some? && ActiveRows(t.assignments, student) == {}
  }

  function AssignmentOf(s: Student, student: Id, now: Time): Assignment
    requires s.assignedTo.Some?
  {
    Assignment(student, s.assignedTo.value, TimeOr(FirstOf(s.assignedAt, s.createdAt), now), None)
  }

  function DueAssignments(t: Tables, students: set<Id>, now: Time): map<Id, Assignment> {
    map s | s in students && Unrecorded(t, s) :: AssignmentOf(t.students[s], s, now)
  }

  /** A recorded assignment and the student row name different agents. */
  ghost predicate Disagrees(t: Tables, student: Id) {
    && student in t.students && t.students[student].assignedTo.Some?
    && ActiveAgent(t.assignments, student).Some?
    && ActiveAgent(t.assignments, student) != t.students[student].assignedTo
  }

  // ---------------------------------------------------------------- work items

  const HOME_OPEN := {"pending", "confirmed", "scheduled", "postponed"}
  const HOME_FOLLOW_ON_RESULTS := {"considering", "waiting_score", "campus_visit"}
  const CAMPUS_OPEN := {"pending", "scheduled", "rescheduled"}
  const CAMPUS_FOLLOW_ON_RESULTS := {"arrived", "no_show", "rescheduled", "considering"}
  const OPEN_SETTLEMENTS := {"unsettled", "postponed", "disputed"}

  predicate HomeVisitIsOpen(h: HomeTask) {
    h.status in HOME_OPEN
    || (h.status == "completed" && h.result in HOME_FOLLOW_ON_RESULTS
        && (h.nextFollowUpAt.Some? || h.nextAction != "" || h.result == "campus_visit"))
  }

  predicate CampusVisitIsOpen(c: CampusTask) {
    c.status in CAMPUS_OPEN
    || (c.status in {"arrived", "no_show"}
        && (c.nextFollowUpAt.Some? || c.nextAction != "" || c.result in CAMPUS_FOLLOW_ON_RESULTS))
  }

  function WorkStatus(owner: Id, statuses: map<Id, string>): string {
    if owner in statuses && statuses[owner] == "active" then "open" else "blocked_suspension"
  }

  predicate Overdue(due: Option<Time>, now: Time) {
    due.Some? && due.value < now
  }

  function Priority(value: string, urgent: bool): string {
    if urgent then "high"
    else if Lower(Strip(value)) in {"高", "high"} then "high"
    else if Lower(Strip(value)) in {"低", "low"} then "low"
    else "medium"
  }

  /** What a work item can come from. */
  datatype Source = Lead(id: Id) | FollowUpRow(id: Id) | HomeRow(id: Id) | CampusRow(id: Id) | Settlement(id: Id)
    | Help(id: Id)

  function KeyOf(src: Source): Key {
    match src
    case Lead(id) => Key("lead_contact", "student", id)
    case FollowUpRow(id) => Key("scheduled_follow_up", "follow_up", id)
    case HomeRow(id) => Key("home_visit", "home_visit", id)
    case CampusRow(id) => Key("campus_visit", "campus_visit", id)
    case Settlement(id) => Key("enrollment_settlement", "enrollment", id)
    case Help(id) => Key("help_request", "help", id)
  }

  lemma KeysApart(a: Source, b: Source)
    requires KeyOf(a) == KeyOf(b)
    ensures a == b
  {
    assert |"lead_contact"| == 12 && |"scheduled_follow_up"| == 19 && |"home_visit"| == 10;
    assert |"enrollment_settlement"| == 21 && "campus_visit"[0] == 'c' && "help_request"[0] == 'h'
      && "lead_contact"[0] == 'l';
  }

  /** A source needs no item, names a student that is not there, has nobody to own it, or gets a row. */
  datatype Verdict = NotDue | NoStudent | NoOwner | Row(item: Item)

  /** _source_item */
  function SourceItem(t: Tables, statuses: map<Id, string>, key: Key, student: Id, creator: Option<Id>,
                      due: Option<Time>, priority: string, createdAt: Option<Time>, now: Time): Verdict
  {
    if student !in t.students then NoStudent
    else
      var owner := if t.students[student].assignedTo.Some? then t.students[student].assignedTo else creator;
      if owner.None? then NoOwner
      else Row(Item(student, key, WorkStatus(owner.value, statuses), owner, creator, priority, due,
                    TimeOr(createdAt, now), now))
  }

  function LeadItem(t: Tables, statuses: map<Id, string>, id: Id, now: Time): Verdict
    requires id in t.students
  {
    var s := t.students[id];
    if s.assignedTo.None? || IsTerminal(s.status) then NotDue
    else Row(Item(id, KeyOf(Lead(id)), WorkStatus(s.assignedTo.value, statuses), s.assignedTo, s.assignedTo, "medium",
                  None, TimeOr(s.createdAt, now), now))
  }

  function FollowUpItem(t: Tables, statuses: map<Id, string>, id: Id, now: Time): Verdict
    requires id in t.followUps
  {
    var f := t.followUps[id];
    if f.completed then NotDue
    else SourceItem(t, statuses, KeyOf(FollowUpRow(id)), f.studentId, Some(f.agentId), f.followUpDate,
                    Priority("", Overdue(f.followUpDate, now)), f.createdAt, now)
  }

  function HomeItem(t: Tables, statuses: map<Id, string>, id: Id, now: Time): Verdict
    requires id in t.home
  {
    var h := t.home[id];
    var due := FirstOf(FirstOf(h.nextFollowUpAt, h.scheduledAt), h.requestedVisitTime);
    if !HomeVisitIsOpen(h) then NotDue
    else SourceItem(t, statuses, KeyOf(HomeRow(id)), h.studentId, Some(h.creatorId), due,
                    Priority(h.priority, Overdue(due, now)), h.createdAt, now)
  }

  function CampusItem(t: Tables, statuses: map<Id, string>, id: Id, now: Time): Verdict
    requires id in t.campus
  {
    var c := t.campus[id];
    var due := FirstOf(c.nextFollowUpAt, c.appointmentAt);
    if !CampusVisitIsOpen(c) then NotDue
    else SourceItem(t, statuses, KeyOf(CampusRow(id)), c.studentId, Some(c.creatorId), due,
                    Priority("", Overdue(due, now)), c.createdAt, now)
  }

  function SettlementItem(t: Tables, statuses: map<Id, string>, id: Id, now: Time): Verdict
    requires id in t.enrollments
  {
    var e := t.enrollments[id];
    if e.settlementStatus !in OPEN_SETTLEMENTS then NotDue
    else SourceItem(t, statuses, KeyOf(Settlement(id)), e.studentId, Some(e.attributedAgentId), e.enrolledAt,
                    Priority("", e.settlementStatus == "disputed"), e.createdAt, now)
  }

  function HelpItem(t: Tables, statuses: map<Id, string>, id: Id, now: Time): Verdict
    requires id in t.students
  {
    var s := t.students[id];
    if !s.needHelp then NotDue
    else SourceItem(t, statuses, KeyOf(Help(id)), id, s.assignedTo, s.updatedAt, "high", s.createdAt, now)
  }

  /** One of the six tables scanned for sources, in the order of the scan. */
  function Scanned(t: Tables, i: nat): set<Source> {
    if i == 0 then set id | id in t.students :: Lead(id)
    else if i == 1 then set id | id in t.followUps :: FollowUpRow(id)
    else if i == 2 then set id | id in t.home :: HomeRow(id)
    else if i == 3 then set id | id in t.campus :: CampusRow(id)
    else if i == 4 then set id | id in t.enrollments :: Settlement(id)
    else set id | id in t.students :: Help(id)
  }

  function ScannedUpTo(t: Tables, n: nat): set<Source> {
    if n == 0 then {} else ScannedUpTo(t, n - 1) + Scanned(t, n - 1)
  }

  function Sources(t: Tables): set<Source> {
    ScannedUpTo(t, 6)
  }

  function RankOf(src: Source): nat {
    match src
    case Lead(_) => 0
    case FollowUpRow(_) => 1
    case HomeRow(_) => 2
    case CampusRow(_) => 3
    case Settlement(_) => 4
    case Help(_) => 5
  }

  lemma {:induction false} ScannedApart(t: Tables, n: nat)
    requires n <= 6
    ensures forall src :: src in ScannedUpTo(t, n) ==> RankOf(src) < n
    ensures n < 6 ==> forall src :: src in Scanned(t, n) ==> RankOf(src) == n
  {
    if n > 0 {
      ScannedApart(t, n - 1);
    }
  }

  function Judge(t: Tables, statuses: map<Id, string>, src: Source, now: Time): Verdict {
    match src
    case Lead(id) => if id in t.students then LeadItem(t, statuses, id, now) else NotDue
    case FollowUpRow(id) => if id in t.followUps then FollowUpItem(t, statuses, id, now) else NotDue
    case HomeRow(id) => if id in t.home then HomeItem(t, statuses, id, now) else NotDue
    case CampusRow(id) => if id in t.campus then CampusItem(t, statuses, id, now) else NotDue
    case Settlement(id) => if id in t.enrollments then SettlementItem(t, statuses, id, now) else NotDue
    case Help(id) => if id in t.students then HelpItem(t, statuses, id, now) else NotDue
  }

  function ItemKeys(items: map<Id, Item>): set<Key> {
    set i | i in items :: items[i].key
  }

  /** The rows the backfill owes the sources of a set. */
  function DueItems(t: Tables, statuses: map<Id, string>, sources: set<Source>, now: Time): map<Source, Item> {
    map src | src in sources && Judge(t, statuses, src, now).Row? && KeyOf(src) !in ItemKeys(t.items)
      :: Judge(t, statuses, src, now).item
  }

  function Ownerless(t: Tables, statuses: map<Id, string>, sources: set<Source>, now: Time): set<Source> {
    set src | src in sources && Judge(t, statuses, src, now) == NoOwner
  }

  // ---------------------------------------------------------------- inserting rows

  /** Rows in insertion order, each under the key it is due to. */
  ghost predicate Queued<K(!new), T>(keys: seq<K>, rows: seq<T>, due: map<K, T>) {
    && |keys| == |rows|
    && (forall k :: k in due <==> k in keys)
    && (forall i :: 0 <= i < |keys| ==> keys[i] in due && rows[i] == due[keys[i]])
    && (forall i, j :: 0 <= i < j < |keys| ==> keys[i] != keys[j])
  }

  /** The table gained one row for each key that was due, and nothing else changed. */
  ghost predicate Adds<K(!new), T>(before: map<Id, T>, due: map<K, T>, at: map<K, Id>, after: map<Id, T>) {
    && at.Keys == due.Keys
    && (forall k :: k in at ==> at[k] !in before && at[k] in after && after[at[k]] == due[k])
    && (forall j, k :: j in at && k in at && j != k ==> at[j] != at[k])
    && (forall id :: id in before ==> id in after && after[id] == before[id])
    && (forall id :: id in after && id !in before ==> exists k :: k in at && at[k] == id)
  }

  lemma QueuedOneMore<K(!new), T>(keys: seq<K>, rows: seq<T>, due: map<K, T>, k: K, row: T)
    requires Queued(keys, rows, due) && k !in due
    ensures Queued(keys + [k], rows + [row], due[k := row])
  {
  }

  lemma AddsOneMore<K(!new), T>(before: map<Id, T>, due: map<K, T>, at: map<K, Id>, after: map<Id, T>, k: K, row: T,
                                id: Id)
    requires Adds(before, due, at, after) && k !in due && id !in after
    ensures Adds(before, due[k := row], at[k := id], after[id := row])
  {
    var more, wider := after[id := row], at[k := id];
    forall x | x in more && x !in before ensures exists j :: j in wider && wider[j] == x {
      if x == id {
        assert wider[k] == x;
      } else {
        var j :| j in at && at[j] == x;
        assert wider[j] == x;
      }
    }
  }

  function Firsts<K, T>(keys: seq<K>, rows: seq<T>, n: nat): map<K, T>
    requires n <= |keys| == |rows|
  {
    if n == 0 then map[] else Firsts(keys, rows, n - 1)[keys[n - 1] := rows[n - 1]]
  }

  lemma {:induction false} FirstsOf<K(!new), T>(keys: seq<K>, rows: seq<T>, due: map<K, T>, n: nat)
    requires Queued(keys, rows, due) && n <= |keys|
    ensures forall k :: k in Firsts(keys, rows, n) <==> k in keys[..n]
    ensures forall k :: k in Firsts(keys, rows, n) ==> k in due && Firsts(keys, rows, n)[k] == due[k]
  {
    if n > 0 {
      FirstsOf(keys, rows, due, n - 1);
      assert keys[..n] == keys[..n - 1] + [keys[n - 1]];
    }
  }

  lemma FirstsAll<K(!new), T>(keys: seq<K>, rows: seq<T>, due: map<K, T>)
    requires Queued(keys, rows, due)
    ensures Firsts(keys, rows, |keys|) == due
  {
    FirstsOf(keys, rows, due, |keys|);
    assert keys[..|keys|] == keys;
    assert Firsts(keys, rows, |keys|).Keys == due.Keys;
  }

  lemma AddsNone<K(!new), T>(before: map<Id, T>, due: map<K, T>)
    requires due == map[]
    ensures Adds(before, due, map[], before)
  {
  }

  /** An insert of many rows gives each the next free id. */
  method InsertRows<K(!new), T>(before: map<Id, T>, ghost keys: seq<K>, rows: seq<T>, ghost due: map<K, T>)
    returns (after: map<Id, T>, ghost at: map<K, Id>)
    requires Queued(keys, rows, due)
    ensures Adds(before, due, at, after)
  {
    hide Adds;
    after, at := before, map[];
    AddsNone(before, Firsts(keys, rows, 0));
    for i := 0 to |rows|
      invariant Adds(before, Firsts(keys, rows, i), at, after)
    {
      var id := FreshId(after.Keys);
      FirstsOf(keys, rows, due, i);
      assert keys[i] !in keys[..i];
      AddsOneMore(before, Firsts(keys, rows, i), at, after, keys[i], rows[i], id);
      at := at[keys[i] := id];
      after := after[id := rows[i]];
    }
    FirstsAll(keys, rows, due);
  }

  // ---------------------------------------------------------------- the whole backfill

  const EVENT_REASON := "legacy_backfill"

  function EventUsers(events: map<Id, Event>): set<Id> {
    set e | e in events && events[e].reason == EVENT_REASON :: events[e].userId
  }

  function EventOf(user: Id, status: string, now: Time): Event {
    Event(user, status, status, EVENT_REASON, now)
  }

  function DueEvents(t: Tables, now: Time): map<Id, Event> {
    map u | u in t.users && u !in EventUsers(t.events) :: EventOf(u, Statuses(t)[u], now)
  }

  /** The missing catalogue rows are in, the others stay. */
  ghost predicate CatalogueAdded(before: map<string, Outcome>, after: map<string, Outcome>) {
    OutcomesAdded(before, OUTCOME_ROWS, |OUTCOME_ROWS|, after)
  }

  predicate Unmapped(s: Student) {
    IsInvalid(s.status) && Blank(s.outcomeCode)
  }

  function Mapped(s: Student): Student {
    if Unmapped(s) then s.(outcomeCode := OutcomeCode(s)) else s
  }

  function MappedAll(students: map<Id, Student>): map<Id, Student> {
    map s | s in students :: Mapped(students[s])
  }

  function UnmappedIn(students: map<Id, Student>): set<Id> {
    set s | s in students && Unmapped(students[s])
  }

  /** Where the inserted rows went. */
  datatype Trace = Trace(event: map<Id, Id>, assignment: map<Id, Id>, item: map<Source, Id>)

  /** What a successful run leaves behind. */
  ghost predicate Backfilled(t: Tables, u: Tables, tr: Trace, now: Time) {
    && u.users == t.users && u.logs == t.logs && u.followUps == t.followUps && u.home == t.home
    && u.campus == t.campus && u.enrollments == t.enrollments
    && u.employment == EmploymentAfter(t, now)
    && Adds(t.events, DueEvents(t, now), tr.event, u.events)
    && Adds(t.assignments, DueAssignments(t, t.students.Keys, now), tr.assignment, u.assignments)
    && Adds(t.items, DueItems(t, Statuses(t), Sources(t), now), tr.item, u.items)
    && CatalogueAdded(t.outcomes, u.outcomes)
    && u.students == MappedAll(t.students)
  }

  /** The run raises when a recorded assignment disagrees with its student, or an open row has none. */
  ghost predicate CanRun(t: Tables, now: Time) {
    && (forall s :: s in t.students ==> !Disagrees(t, s))
    && (forall src :: src in Sources(t) ==> !Judge(t, Statuses(t), src, now).NoStudent?)
  }

  datatype Report = Report(
    employmentCreated: nat, eventsCreated: nat, assignmentsCreated: nat, leadItemsCreated: nat,
    sourceItemsCreated: nat, skippedNoOwner: nat, outcomesCreated: nat, outcomesMapped: nat)

  ghost function Leads(sources: set<Source>): set<Source> {
    set src | src in sources && src.Lead?
  }

  ghost function Others(sources: set<Source>): set<Source> {
    set src | src in sources && !src.Lead?
  }

  ghost function ReportOf(t: Tables, now: Time): Report {
    var due := DueItems(t, Statuses(t), Sources(t), now);
    Report(|Unemployed(t, t.users.Keys)|, |DueEvents(t, now)|, |DueAssignments(t, t.students.Keys, now)|,
           |Leads(due.Keys)|, |Others(due.Keys)|, |Ownerless(t, Statuses(t), Sources(t), now)|,
           |NewCodes(t.outcomes, CatalogueCodes())|, |UnmappedIn(t.students)|)
  }

  // ---------------------------------------------------------------- the loops

  /** existing_work_keys, work_rows and the three counters of the report. */
  datatype Collector = Collector(rows: seq<Item>, keys: set<Key>, leads: nat, created: nat, skipped: nat)

  ghost predicate Holds(due: map<Source, Item>, taken: set<Key>, order: seq<Source>, c: Collector) {
    && Queued(order, c.rows, due)
    && c.keys == taken + DueKeys(due)
    && c.leads == |Leads(due.Keys)| && c.created == |Others(due.Keys)|
  }

  /** The rows due to the sources seen so far are queued, and counted. */
  ghost predicate Collected(t: Tables, statuses: map<Id, string>, done: set<Source>, order: seq<Source>, c: Collector,
                            now: Time)
  {
    && Holds(DueItems(t, statuses, done, now), ItemKeys(t.items), order, c)
    && c.skipped == |Ownerless(t, statuses, done, now)|
  }

  /** Adds a candidate row unless its key is taken. */
  function Collect(c: Collector, src: Source, verdict: Verdict): Collector {
    match verdict
    case NotDue => c
    case NoStudent => c
    case NoOwner => c.(skipped := c.skipped + 1)
    case Row(item) =>
      if item.key in c.keys then c
      else c.(rows := c.rows + [item], keys := c.keys + {item.key}, leads := c.leads + (if src.Lead? then 1 else 0),
              created := c.created + (if src.Lead? then 0 else 1))
  }

  lemma RowKey(t: Tables, statuses: map<Id, string>, src: Source, now: Time)
    ensures Judge(t, statuses, src, now).Row? ==> Judge(t, statuses, src, now).item.key == KeyOf(src)
  {
  }

  lemma KeyTaken(t: Tables, statuses: map<Id, string>, done: set<Source>, src: Source, keys: set<Key>, now: Time)
    requires src !in done
    requires keys == ItemKeys(t.items) + DueKeys(DueItems(t, statuses, done, now))
    ensures KeyOf(src) in keys <==> KeyOf(src) in ItemKeys(t.items)
  {
    hide KeyOf, Judge, ItemKeys;
    if KeyOf(src) in keys && KeyOf(src) !in ItemKeys(t.items) {
      var s :| s in DueItems(t, statuses, done, now) && KeyOf(s) == KeyOf(src);
      KeysApart(s, src);
    }
  }

  lemma DueOneMore(t: Tables, statuses: map<Id, string>, done: set<Source>, src: Source, now: Time)
    requires src !in done
    ensures var verdict := Judge(t, statuses, src, now);
      DueItems(t, statuses, done + {src}, now) ==
        if verdict.Row? && KeyOf(src) !in ItemKeys(t.items) then DueItems(t, statuses, done, now)[src := verdict.item]
        else DueItems(t, statuses, done, now)
  {
    hide Judge, KeyOf, ItemKeys;
  }

  lemma CountsOneMore(due: set<Source>, src: Source)
    requires src !in due
    ensures |Leads(due + {src})| == |Leads(due)| + if src.Lead? then 1 else 0
    ensures |Others(due + {src})| == |Others(due)| + if src.Lead? then 0 else 1
  {
    assert Leads(due + {src}) == Leads(due) + if src.Lead? then {src} else {};
    assert Others(due + {src}) == Others(due) + if src.Lead? then {} else {src};
  }

  function DueKeys(due: map<Source, Item>): set<Key> {
    set src | src in due :: KeyOf(src)
  }

  lemma KeysOneMore(due: map<Source, Item>, src: Source, item: Item)
    ensures DueKeys(due[src := item]) == DueKeys(due) + {KeyOf(src)}
  {
    hide KeyOf;
    var more := due[src := item];
    assert src in more;
    forall k | k in DueKeys(due) ensures k in DueKeys(more) {
      var s :| s in due && KeyOf(s) == k;
      assert s in more;
    }
  }

  lemma CollectedOneMore(t: Tables, statuses: map<Id, string>, done: set<Source>, order: seq<Source>, c: Collector,
                         src: Source, now: Time)
    requires Collected(t, statuses, done, order, c, now) && src !in done
    ensures var verdict := Judge(t, statuses, src, now);
      Collected(t, statuses, done + {src},
                if verdict.Row? && KeyOf(src) !in ItemKeys(t.items) then order + [src] else order,
                Collect(c, src, verdict), now)
  {
    var due := DueItems(t, statuses, done, now);
    var verdict := Judge(t, statuses, src, now);
    RowKey(t, statuses, src, now);
    KeyTaken(t, statuses, done, src, c.keys, now);
    DueOneMore(t, statuses, done, src, now);
    OwnerlessOneMore(t, statuses, done, src, now);
    assert src !in due;
    hide Judge, KeyOf, ItemKeys, Ownerless, DueItems, Holds;
    if verdict.Row? && KeyOf(src) !in ItemKeys(t.items) {
      HoldsOneMore(due, ItemKeys(t.items), order, c, src, verdict.item);
    } else if verdict.NoOwner? {
      HoldsAnyway(due, ItemKeys(t.items), order, c, c.skipped + 1);
    }
  }

  lemma HoldsOneMore(due: map<Source, Item>, taken: set<Key>, order: seq<Source>, c: Collector, src: Source, item: Item)
    requires Holds(due, taken, order, c) && src !in due && item.key == KeyOf(src) && item.key !in c.keys
    ensures Holds(due[src := item], taken, order + [src], Collect(c, src, Row(item)))
  {
    hide KeyOf, Queued, Leads, Others, DueKeys;
    QueuedOneMore(order, c.rows, due, src, item);
    CountsOneMore(due.Keys, src);
    assert due[src := item].Keys == due.Keys + {src};
    KeysOneMore(due, src, item);
  }

  lemma HoldsAnyway(due: map<Source, Item>, taken: set<Key>, order: seq<Source>, c: Collector, skipped: nat)
    requires Holds(due, taken, order, c)
    ensures Holds(due, taken, order, c.(skipped := skipped))
  {
  }

  lemma OwnerlessOneMore(t: Tables, statuses: map<Id, string>, done: set<Source>, src: Source, now: Time)
    requires src !in done
    ensures |Ownerless(t, statuses, done + {src}, now)|
         == |Ownerless(t, statuses, done, now)| + if Judge(t, statuses, src, now) == NoOwner then 1 else 0
  {
    hide Judge;
    assert Ownerless(t, statuses, done + {src}, now)
        == Ownerless(t, statuses, done, now) + if Judge(t, statuses, src, now) == NoOwner then {src} else {};
  }

  /** The loop over one table's rows: leads, follow-ups, visits, enrollments or help requests. */
  method CollectTable(t: Tables, statuses: map<Id, string>, now: Time, sources: set<Source>, c: Collector,
                      ghost done: set<Source>, ghost order: seq<Source>)
    returns (ok: bool, d: Collector, ghost longer: seq<Source>)
    requires Collected(t, statuses, done, order, c, now) && sources !! done
    ensures ok <==> forall src :: src in sources ==> !Judge(t, statuses, src, now).NoStudent?
    ensures ok ==> Collected(t, statuses, done + sources, longer, d, now)
  {
    hide Collected, Judge;
    ok, d, longer := true, c, order;
    var rest := sources;
    ghost var seen := done;
    while rest != {}
      invariant rest <= sources && seen == done + (sources - rest)
      invariant Collected(t, statuses, seen, longer, d, now)
      invariant forall src :: src in sources - rest ==> !Judge(t, statuses, src, now).NoStudent?
    {
      var src :| src in rest;
      var verdict := Judge(t, statuses, src, now);
      if verdict.NoStudent? {
        return false, d, longer;
      }
      CollectedOneMore(t, statuses, seen, longer, d, src, now);
      longer := if verdict.Row? && KeyOf(src) !in ItemKeys(t.items) then longer + [src] else longer;
      d := Collect(d, src, verdict);
      seen := seen + {src};
      rest := rest - {src};
    }
    assert seen == done + sources;
  }

  lemma NothingCollected(t: Tables, statuses: map<Id, string>, now: Time)
    ensures Collected(t, statuses, {}, [], Collector([], ItemKeys(t.items), 0, 0, 0), now)
  {
    hide Judge, KeyOf, ItemKeys;
    var due := DueItems(t, statuses, {}, now);
    assert due == map[];
    assert due.Keys == {} && Leads(due.Keys) == {} && Others(due.Keys) == {} && Ownerless(t, statuses, {}, now) == {};
  }

  /** The six loops that fill the list of work items. */
  method CollectAll(t: Tables, statuses: map<Id, string>, now: Time)
    returns (ok: bool, d: Collector, ghost order: seq<Source>)
    ensures ok <==> forall src :: src in Sources(t) ==> !Judge(t, statuses, src, now).NoStudent?
    ensures ok ==> Collected(t, statuses, Sources(t), order, d, now)
  {
    hide Collected, Judge;
    NothingCollected(t, statuses, now);
    d, order := Collector([], ItemKeys(t.items), 0, 0, 0), [];
    ok := true;
    for i := 0 to 6
      invariant ok && Collected(t, statuses, ScannedUpTo(t, i), order, d, now)
      invariant forall src :: src in ScannedUpTo(t, i) ==> !Judge(t, statuses, src, now).NoStudent?
    {
      ScannedApart(t, i);
      hide Scanned, RankOf;
      ok, d, order := CollectTable(t, statuses, now, Scanned(t, i), d, ScannedUpTo(t, i), order);
      if !ok {
        ScannedGrows(t, i + 1, 6);
        return;
      }
    }
  }

  lemma {:induction false} ScannedGrows(t: Tables, m: nat, n: nat)
    requires m <= n
    ensures ScannedUpTo(t, m) <= ScannedUpTo(t, n)
  {
    if m < n {
      ScannedGrows(t, m, n - 1);
    }
  }

  function Restrict(assignments: map<Id, Assignment>, ids: set<Id>): map<Id, Assignment> {
    map a | a in assignments && a in ids :: assignments[a]
  }

  lemma ActiveOneMore(assignments: map<Id, Assignment>, done: set<Id>, a: Id, student: Id)
    requires a in assignments && forall x :: x in done ==> x < a
    ensures var row := assignments[a];
      ActiveAgent(Restrict(assignments, done + {a}), student) ==
        if row.endedAt.None? && row.studentId == student then Some(row.agentId)
        else ActiveAgent(Restrict(assignments, done), student)
  {
    var before, after := Restrict(assignments, done), Restrict(assignments, done + {a});
    if assignments[a].endedAt.None? && assignments[a].studentId == student {
      assert a in ActiveRows(after, student);
      assert Latest(ActiveRows(after, student)) == a;
    } else {
      assert ActiveRows(after, student) == ActiveRows(before, student);
    }
  }

  /** active_assignments: later rows overwrite earlier ones of the same student. */
  method ActiveByStudent(assignments: map<Id, Assignment>) returns (active: map<Id, Id>)
    ensures forall s :: ActiveAgent(assignments, s) == if s in active then Some(active[s]) else None
  {
    active := map[];
    var rest := assignments.Keys;
    ghost var done: set<Id> := {};
    hide ActiveAgent;
    forall s ensures ActiveAgent(Restrict(assignments, {}), s) == None {
      NoneActive(assignments, s);
    }
    while rest != {}
      invariant rest <= assignments.Keys && done == assignments.Keys - rest
      invariant forall x, y :: x in done && y in rest ==> x < y
      invariant forall s :: ActiveAgent(Restrict(assignments, done), s) == if s in active then Some(active[s]) else None
    {
      ghost var least := Smallest(rest);
      var a :| a in rest && forall x :: x in rest ==> a <= x;
      forall s {
        ActiveOneMore(assignments, done, a, s);
      }
      if assignments[a].endedAt.None? {
        active := active[assignments[a].studentId := assignments[a].agentId];
      }
      done := done + {a};
      rest := rest - {a};
    }
    assert Restrict(assignments, done) == assignments;
  }

  lemma NoneActive(assignments: map<Id, Assignment>, student: Id)
    ensures ActiveAgent(Restrict(assignments, {}), student) == None
  {
    assert ActiveRows(Restrict(assignments, {}), student) == {};
  }

  lemma UnrecordedMeansNoAgent(t: Tables, student: Id)
    ensures ActiveRows(t.assignments, student) == {} <==> ActiveAgent(t.assignments, student).None?
  {
  }

  /** The loop over students that queues the assignments nobody recorded. */
  method CollectAssignments(t: Tables, now: Time)
    returns (ok: bool, rows: seq<Assignment>, ghost keys: seq<Id>)
    ensures ok <==> forall s :: s in t.students ==> !Disagrees(t, s)
    ensures ok ==> Queued(keys, rows, DueAssignments(t, t.students.Keys, now))
  {
    hide ActiveAgent, ActiveRows;
    var active := ActiveByStudent(t.assignments);
    ok, rows, keys := true, [], [];
    var rest := t.students.Keys;
    while rest != {}
      invariant rest <= t.students.Keys
      invariant Queued(keys, rows, DueAssignments(t, t.students.Keys - rest, now))
      invariant forall s :: s in t.students.Keys - rest ==> !Disagrees(t, s)
    {
      var student :| student in rest;
      var s := t.students[student];
      UnrecordedMeansNoAgent(t, student);
      ghost var due := DueAssignments(t, t.students.Keys - rest, now);
      ghost var more := DueAssignments(t, t.students.Keys - (rest - {student}), now);
      rest := rest - {student};
      if s.assignedTo.None? || student in active {
        if s.assignedTo.Some? && active[student] != s.assignedTo.value {
          return false, [], [];
        }
        assert more == due;
      } else {
        var row := AssignmentOf(s, student, now);
        assert more == due[student := row];
        QueuedOneMore(keys, rows, due, student, row);
        rows, keys := rows + [row], keys + [student];
      }
    }
    assert t.students.Keys - rest == t.students.Keys;
  }

  function Unemployed(t: Tables, users: set<Id>): set<Id> {
    set u | u in users && u !in t.employment
  }

  /** _employment_statuses */
  function EmploymentStatuses(t: Tables): map<Id, string> {
    map u | u in t.users :: DerivedStatus(t, u)
  }

  function StatusesUpTo(t: Tables, done: set<Id>): map<Id, string> {
    map u | u in t.users :: if u in done && u in t.employment then t.employment[u].status else DerivedStatus(t, u)
  }

  function EmploymentUpTo(t: Tables, done: set<Id>, now: Time): map<Id, Employment> {
    map u | u in t.employment.Keys + (t.users.Keys * done) ::
      if u in t.employment then t.employment[u] else EmploymentOf(DerivedStatus(t, u), now)
  }

  lemma EmploymentOneMore(t: Tables, done: set<Id>, user: Id, now: Time)
    requires user in t.users && user !in done
    ensures StatusesUpTo(t, done)[user] == DerivedStatus(t, user)
    ensures user in t.employment ==>
      && StatusesUpTo(t, done + {user}) == StatusesUpTo(t, done)[user := t.employment[user].status]
      && EmploymentUpTo(t, done + {user}, now) == EmploymentUpTo(t, done, now)
      && Unemployed(t, done + {user}) == Unemployed(t, done)
    ensures user !in t.employment ==>
      && StatusesUpTo(t, done + {user}) == StatusesUpTo(t, done)
      && EmploymentUpTo(t, done + {user}, now)
        == EmploymentUpTo(t, done, now)[user := EmploymentOf(DerivedStatus(t, user), now)]
      && |Unemployed(t, done + {user})| == |Unemployed(t, done)| + 1
  {
    hide DerivedStatus, EmploymentOf;
    assert Unemployed(t, done + {user}) == Unemployed(t, done) + if user in t.employment then {} else {user};
  }

  lemma EmploymentEnds(t: Tables, now: Time)
    ensures StatusesUpTo(t, {}) == EmploymentStatuses(t) && EmploymentUpTo(t, {}, now) == t.employment
    ensures Unemployed(t, {}) == {} && StatusesUpTo(t, t.users.Keys) == Statuses(t)
    ensures EmploymentUpTo(t, t.users.Keys, now) == EmploymentAfter(t, now)
  {
    hide DerivedStatus, EmploymentOf;
  }

  /** The loop over users: existing statuses win over derived ones. */
  method AddEmployment(t: Tables, now: Time)
    returns (employment: map<Id, Employment>, statuses: map<Id, string>, created: nat)
    ensures employment == EmploymentAfter(t, now) && statuses == Statuses(t)
    ensures created == |Unemployed(t, t.users.Keys)|
  {
    hide DerivedStatus, EmploymentOf, StatusesUpTo, EmploymentUpTo, Statuses, EmploymentAfter, EmploymentStatuses,
      Unemployed;
    statuses := EmploymentStatuses(t);
    employment, created := t.employment, 0;
    var rest := t.users.Keys;
    ghost var done: set<Id> := {};
    EmploymentEnds(t, now);
    while rest != {}
      invariant rest <= t.users.Keys && done == t.users.Keys - rest
      invariant statuses == StatusesUpTo(t, done) && employment == EmploymentUpTo(t, done, now)
      invariant created == |Unemployed(t, done)|
    {
      var user :| user in rest;
      EmploymentOneMore(t, done, user, now);
      rest, done := rest - {user}, done + {user};
      if user in t.employment {
        statuses := statuses[user := t.employment[user].status];
      } else {
        employment := employment[user := EmploymentOf(DerivedStatus(t, user), now)];
        created := created + 1;
      }
    }
    assert done == t.users.Keys;
  }

  lemma CatalogueCodesDiffer()
    ensures forall i, j :: 0 <= i < j < |OUTCOME_ROWS| ==> OUTCOME_ROWS[i].0 != OUTCOME_ROWS[j].0
  {
    assert |OUTCOME_ROWS[0].0| == 13 && |OUTCOME_ROWS[1].0| == 10 && |OUTCOME_ROWS[2].0| == 9
      && |OUTCOME_ROWS[3].0| == 14;
    assert |OUTCOME_ROWS[4].0| == 18 && |OUTCOME_ROWS[5].0| == 18 && |OUTCOME_ROWS[6].0| == 5;
    assert OUTCOME_ROWS[4].0[0] == 'e' && OUTCOME_ROWS[5].0[0] == 'l';
  }

  function CodesUpTo(rows: seq<(string, Outcome)>, n: nat): set<string>
    requires n <= |rows|
  {
    set i | 0 <= i < n :: rows[i].0
  }

  ghost predicate OutcomesAdded(before: map<string, Outcome>, rows: seq<(string, Outcome)>, n: nat,
                                after: map<string, Outcome>)
  {
    && n <= |rows| && after.Keys == before.Keys + CodesUpTo(rows, n)
    && (forall c :: c in before ==> after[c] == before[c])
    && (forall j :: 0 <= j < n && rows[j].0 !in before ==> rows[j].0 in after && after[rows[j].0] == rows[j].1)
  }

  function NewCodes(before: map<string, Outcome>, codes: set<string>): set<string> {
    set c | c in codes && c !in before
  }

  lemma CodesOneMore(rows: seq<(string, Outcome)>, n: nat)
    requires n < |rows| && forall j, k :: 0 <= j < k < |rows| ==> rows[j].0 != rows[k].0
    ensures CodesUpTo(rows, n + 1) == CodesUpTo(rows, n) + {rows[n].0} && rows[n].0 !in CodesUpTo(rows, n)
  {
  }

  lemma NewCodesOneMore(before: map<string, Outcome>, codes: set<string>, c: string)
    requires c !in codes
    ensures |NewCodes(before, codes + {c})| == |NewCodes(before, codes)| + if c in before then 0 else 1
  {
    assert NewCodes(before, codes + {c}) == NewCodes(before, codes) + if c in before then {} else {c};
  }

  lemma NoCodesYet(before: map<string, Outcome>, rows: seq<(string, Outcome)>)
    ensures OutcomesAdded(before, rows, 0, before) && NewCodes(before, CodesUpTo(rows, 0)) == {}
  {
  }

  lemma OutcomesOneMore(before: map<string, Outcome>, rows: seq<(string, Outcome)>, n: nat, after: map<string, Outcome>)
    requires OutcomesAdded(before, rows, n, after) && n < |rows|
    requires forall j, k :: 0 <= j < k < |rows| ==> rows[j].0 != rows[k].0
    ensures OutcomesAdded(before, rows, n + 1, if rows[n].0 in before then after else after[rows[n].0 := rows[n].1])
  {
    CodesOneMore(rows, n);
    hide CodesUpTo;
  }

  /** The rows of the catalogue whose code is not there yet. */
  method AddOutcomes(before: map<string, Outcome>, rows: seq<(string, Outcome)>)
    returns (after: map<string, Outcome>, created: nat)
    requires forall i, j :: 0 <= i < j < |rows| ==> rows[i].0 != rows[j].0
    ensures OutcomesAdded(before, rows, |rows|, after)
    ensures created == |NewCodes(before, CodesUpTo(rows, |rows|))|
  {
    after, created := before, 0;
    NoCodesYet(before, rows);
    hide OutcomesAdded, NewCodes, CodesUpTo;
    for i := 0 to |rows|
      invariant OutcomesAdded(before, rows, i, after)
      invariant created == |NewCodes(before, CodesUpTo(rows, i))|
    {
      CodesOneMore(rows, i);
      NewCodesOneMore(before, CodesUpTo(rows, i), rows[i].0);
      OutcomesOneMore(before, rows, i, after);
      if rows[i].0 !in before {
        after := after[rows[i].0 := rows[i].1];
        created := created + 1;
      }
    }
  }

  method CollectEvents(t: Tables, statuses: map<Id, string>, now: Time) returns (rows: seq<Event>, ghost keys: seq<Id>)
    requires statuses == Statuses(t)
    ensures Queued(keys, rows, DueEvents(t, now))
  {
    hide EventUsers, DerivedStatus;
    assert statuses.Keys == t.users.Keys;
    hide Statuses;
    var users := Listing(set u | u in t.users && u !in EventUsers(t.events));
    forall i | 0 <= i < |users| ensures users[i] in statuses {
      assert users[i] in users;
    }
    rows := seq(|users|, i requires 0 <= i < |users| => EventOf(users[i], statuses[users[i]], now));
    keys := users;
  }

  /** The statements of the backfill, on values. */
  method Run(t: Tables, now: Time) returns (result: Result<Report, string>, u: Tables, ghost tr: Trace)
    ensures result.Ok? <==> CanRun(t, now)
    ensures result.Ok? ==> Backfilled(t, u, tr, now) && result.value == ReportOf(t, now)
  {
    hide Leads, Others, Unemployed, NewCodes, Adds, Queued, Statuses, DueEvents, DueAssignments, DueItems, Collected,
         Judge, Sources, Ownerless, EmploymentAfter,
         Disagrees, CatalogueAdded, CatalogueCodes, UnmappedIn, MappedAll,
         Backfilled, ReportOf, CanRun;
    u, tr := t, Trace(map[], map[], map[]);
    var employment, statuses, employmentCreated := AddEmployment(t, now);
    var eventRows, eventKeys := CollectEvents(t, statuses, now);
    var agreed, assignmentRows, assignmentKeys := CollectAssignments(t, now);
    var found, c, order := CollectAll(t, statuses, now);
    RunsWhen(t, now);
    if !agreed {
      return Err("active student assignment disagrees with legacy projection"), u, tr;
    }
    if !found {
      return Err("KeyError: student of an open row"), u, tr;
    }
    CollectedRows(t, statuses, order, c, now);
    var outcomes, outcomesCreated := AddCatalogue(t.outcomes);
    var events, atEvent := InsertRows(t.events, eventKeys, eventRows, DueEvents(t, now));
    var assignments, atAssignment :=
      InsertRows(t.assignments, assignmentKeys, assignmentRows, DueAssignments(t, t.students.Keys, now));
    var items, atItem := InsertRows(t.items, order, c.rows, DueItems(t, statuses, Sources(t), now));
    QueuedLength(eventKeys, eventRows, DueEvents(t, now));
    QueuedLength(assignmentKeys, assignmentRows, DueAssignments(t, t.students.Keys, now));
    u := t.(students := MappedAll(t.students), employment := employment, events := events, assignments := assignments,
            items := items, outcomes := outcomes);
    tr := Trace(atEvent, atAssignment, atItem);
    result := Ok(Report(employmentCreated, |eventRows|, |assignmentRows|, c.leads, c.created, c.skipped,
                        outcomesCreated, |UnmappedIn(t.students)|));
    Assembled(t, u, tr, now);
    ReportIs(t, now, result.value);
  }

  lemma RunsWhen(t: Tables, now: Time)
    ensures CanRun(t, now) <==>
      (forall s :: s in t.students ==> !Disagrees(t, s))
      && (forall src :: src in Sources(t) ==> !Judge(t, Statuses(t), src, now).NoStudent?)
  {
    hide Disagrees, Sources, Judge, Statuses;
  }

  lemma Assembled(t: Tables, u: Tables, tr: Trace, now: Time)
    requires u == t.(students := MappedAll(t.students), employment := EmploymentAfter(t, now), events := u.events,
                     assignments := u.assignments, items := u.items, outcomes := u.outcomes)
    requires Adds(t.events, DueEvents(t, now), tr.event, u.events)
    requires Adds(t.assignments, DueAssignments(t, t.students.Keys, now), tr.assignment, u.assignments)
    requires Adds(t.items, DueItems(t, Statuses(t), Sources(t), now), tr.item, u.items)
    requires CatalogueAdded(t.outcomes, u.outcomes)
    ensures Backfilled(t, u, tr, now)
  {
    hide Adds, DueEvents, DueAssignments, DueItems, CatalogueAdded, MappedAll, EmploymentAfter, Statuses, Sources;
  }

  lemma ReportIs(t: Tables, now: Time, r: Report)
    requires var due := DueItems(t, Statuses(t), Sources(t), now);
      r == Report(|Unemployed(t, t.users.Keys)|, |DueEvents(t, now)|, |DueAssignments(t, t.students.Keys, now)|,
                  |Leads(due.Keys)|, |Others(due.Keys)|, |Ownerless(t, Statuses(t), Sources(t), now)|,
                  |NewCodes(t.outcomes, CatalogueCodes())|, |UnmappedIn(t.students)|)
    ensures r == ReportOf(t, now)
  {
    hide Unemployed, DueEvents, DueAssignments, DueItems, Leads, Others, Ownerless, NewCodes, UnmappedIn, Statuses,
      Sources;
  }

  method AddCatalogue(before: map<string, Outcome>) returns (after: map<string, Outcome>, created: nat)
    ensures CatalogueAdded(before, after) && created == |NewCodes(before, CatalogueCodes())|
  {
    CatalogueCodesDiffer();
    after, created := AddOutcomes(before, OUTCOME_ROWS);
  }

  class DomainStore {
    var users: map<Id, User>
    var students: map<Id, Student>
    var logs: map<Id, Log>
    var followUps: map<Id, FollowUp>
    var home: map<Id, HomeTask>
    var campus: map<Id, CampusTask>
    var enrollments: map<Id, Enrollment>
    var employment: map<Id, Employment>
    var events: map<Id, Event>
    var assignments: map<Id, Assignment>
    var items: map<Id, Item>
    var outcomes: map<string, Outcome>

    function Now(): Tables
      reads this
    {
      Tables(users, students, logs, followUps, home, campus, enrollments, employment, events, assignments, items,
             outcomes)
    }

    /** backfill_domain_core: one transaction, rolled back when it raises. */
    method Backfill(now: Time) returns (result: Result<Report, string>, ghost tr: Trace)
      modifies `students, `employment, `events, `assignments, `items, `outcomes
      ensures result.Ok? <==> CanRun(old(Now()), now)
      ensures result.Ok? ==> Backfilled(old(Now()), Now(), tr, now) && result.value == ReportOf(old(Now()), now)
      ensures result.Err? ==> Now() == old(Now())
    {
      hide CanRun, Backfilled, ReportOf;
      var u;
      result, u, tr := Run(Now(), now);
      if result.Ok? {
        BackfillLeaves(old(Now()), u, tr, now);
        students, employment, events, assignments, items, outcomes :=
          u.students, u.employment, u.events, u.assignments, u.items, u.outcomes;
      }
    }
  }

  lemma BackfillLeaves(t: Tables, u: Tables, tr: Trace, now: Time)
    requires Backfilled(t, u, tr, now)
    ensures u == t.(students := u.students, employment := u.employment, events := u.events,
                    assignments := u.assignments, items := u.items, outcomes := u.outcomes)
  {
  }

  lemma CollectedRows(t: Tables, statuses: map<Id, string>, order: seq<Source>, c: Collector, now: Time)
    requires Collected(t, statuses, Sources(t), order, c, now)
    ensures var due := DueItems(t, statuses, Sources(t), now);
      Queued(order, c.rows, due) && c.leads == |Leads(due.Keys)| && c.created == |Others(due.Keys)|
    ensures c.skipped == |Ownerless(t, statuses, Sources(t), now)|
  {
    hide Queued, DueItems, Sources, Ownerless;
  }

  lemma QueuedLength<K(!new), T>(keys: seq<K>, rows: seq<T>, due: map<K, T>)
    requires Queued(keys, rows, due)
    ensures |due| == |rows|
  {
    DistinctLength(keys, due.Keys);
  }

  // ---------------------------------------------------------------- the audit

  function ActiveStudents(t: Tables): set<Id> {
    set a | a in t.assignments && t.assignments[a].endedAt.None? :: t.assignments[a].studentId
  }

  function Projection(t: Tables, student: Id): Option<Id> {
    if student in t.students then t.students[student].assignedTo else None
  }

  function DuplicateActive(t: Tables): set<Id> {
    set s | s in ActiveStudents(t) && |ActiveRows(t.assignments, s)| > 1
  }

  ghost function Mismatches(t: Tables): set<Id> {
    set s | s in t.students.Keys + ActiveStudents(t) && Projection(t, s) != ActiveAgent(t.assignments, s)
  }

  predicate OwnerActive(t: Tables, owner: Id) {
    owner in t.employment && t.employment[owner].status == "active"
  }

  function RowsOfKey(t: Tables, key: Key): set<Id> {
    set i | i in t.items && t.items[i].key == key
  }

  function OpenWithoutOwner(t: Tables): set<Id> {
    set i | i in t.items && t.items[i].status == "open" && t.items[i].owner.None?
  }

  function OpenOwnedByInactive(t: Tables): set<Id> {
    set i | i in t.items && t.items[i].status == "open" && t.items[i].owner.Some?
      && !OwnerActive(t, t.items[i].owner.value)
  }

  function DuplicateKeys(t: Tables): set<Key> {
    set k | k in ItemKeys(t.items) && |RowsOfKey(t, k)| > 1
  }

  function UncataloguedReasons(t: Tables): set<Id> {
    set s | s in t.students && Uncatalogued(t, s)
  }

  predicate Uncatalogued(t: Tables, student: Id)
    requires student in t.students
  {
    IsInvalid(t.students[student].status)
    && (Blank(t.students[student].outcomeCode) || t.students[student].outcomeCode !in t.outcomes)
  }

  /** What the foreign key pragma finds in the legacy tables, one entry per column of a row. */
  function LegacyViolations(t: Tables): nat {
    |set s | s in t.students && t.students[s].assignedTo.Some? && t.students[s].assignedTo.value !in t.users|
    + |set f | f in t.followUps && t.followUps[f].studentId !in t.students|
    + |set f | f in t.followUps && t.followUps[f].agentId !in t.users|
    + |set h | h in t.home && t.home[h].studentId !in t.students|
    + |set h | h in t.home && t.home[h].creatorId !in t.users|
    + |set c | c in t.campus && t.campus[c].studentId !in t.students|
    + |set c | c in t.campus && t.campus[c].creatorId !in t.users|
    + |set e | e in t.enrollments && t.enrollments[e].studentId !in t.students|
    + |set e | e in t.enrollments && t.enrollments[e].attributedAgentId !in t.users|
  }

  /** And in the domain tables. */
  function DomainViolations(t: Tables): nat {
    |set u | u in t.employment && u !in t.users|
    + |set e | e in t.events && t.events[e].userId !in t.users|
    + |set a | a in t.assignments && t.assignments[a].studentId !in t.students|
    + |set a | a in t.assignments && t.assignments[a].agentId !in t.users|
    + |set i | i in t.items && t.items[i].studentId !in t.students|
    + |set i | i in t.items && t.items[i].owner.Some? && t.items[i].owner.value !in t.users|
    + |set i | i in t.items && t.items[i].creator.Some? && t.items[i].creator.value !in t.users|
  }

  datatype AuditReport = AuditReport(
    usersWithoutEmployment: nat, duplicateActiveAssignments: nat, projectionMismatches: nat, openItemsWithoutOwner: nat,
    openItemsOwnedByInactive: nat, duplicateSourceWorkItems: nat, invalidReasonsWithoutCatalogEntry: nat,
    foreignKeyViolations: nat)

  /** audit_domain_core */
  ghost function Audit(t: Tables): AuditReport {
    AuditReport(
      |Unemployed(t, t.users.Keys)|,
      |DuplicateActive(t)|,
      |Mismatches(t)|,
      |OpenWithoutOwner(t)|,
      |OpenOwnedByInactive(t)|,
      |DuplicateKeys(t)|,
      |UncataloguedReasons(t)|,
      LegacyViolations(t) + DomainViolations(t))
  }

  ghost predicate AuditOk(t: Tables) {
    Audit(t) == AuditReport(0, 0, 0, 0, 0, 0, 0, 0)
  }

  // ---------------------------------------------------------------- the backfill meets its audit

  predicate InUsers(t: Tables, user: Option<Id>) {
    user.Some? ==> user.value in t.users
  }

  ghost predicate LegacyLinked(t: Tables) {
    && (forall s :: s in t.students ==> InUsers(t, t.students[s].assignedTo))
    && (forall f :: f in t.followUps ==> t.followUps[f].studentId in t.students && t.followUps[f].agentId in t.users)
    && (forall h :: h in t.home ==> t.home[h].studentId in t.students && t.home[h].creatorId in t.users)
    && (forall c :: c in t.campus ==> t.campus[c].studentId in t.students && t.campus[c].creatorId in t.users)
    && (forall e :: e in t.enrollments ==>
          t.enrollments[e].studentId in t.students && t.enrollments[e].attributedAgentId in t.users)
  }

  ghost predicate AssignmentsLinked(t: Tables) {
    forall a :: a in t.assignments ==> t.assignments[a].studentId in t.students && t.assignments[a].agentId in t.users
  }

  ghost predicate ItemsLinked(t: Tables) {
    forall i :: i in t.items ==>
      t.items[i].studentId in t.students && InUsers(t, t.items[i].owner) && InUsers(t, t.items[i].creator)
  }

  ghost predicate DomainLinked(t: Tables) {
    && t.employment.Keys <= t.users.Keys && (forall e :: e in t.events ==> t.events[e].userId in t.users)
    && AssignmentsLinked(t) && ItemsLinked(t)
  }

  /** Every foreign key names a row. */
  ghost predicate ForeignKeysValid(t: Tables) {
    LegacyLinked(t) && DomainLinked(t)
  }

  lemma LegacyViolationsCount(t: Tables)
    ensures LegacyLinked(t) ==> LegacyViolations(t) == 0
  {
    if LegacyLinked(t) {
      assert (set s | s in t.students && t.students[s].assignedTo.Some? && t.students[s].assignedTo.value !in t.users)
        == {} by {
        assert forall s :: s in t.students ==> InUsers(t, t.students[s].assignedTo);
      }
    }
  }

  lemma DomainViolationsCount(t: Tables)
    ensures DomainLinked(t) ==> DomainViolations(t) == 0
  {
    if DomainLinked(t) {
      assert (set i | i in t.items && t.items[i].owner.Some? && t.items[i].owner.value !in t.users) == {} by {
        assert forall i :: i in t.items ==> InUsers(t, t.items[i].owner);
      }
      assert (set i | i in t.items && t.items[i].creator.Some? && t.items[i].creator.value !in t.users) == {} by {
        assert forall i :: i in t.items ==> InUsers(t, t.items[i].creator);
      }
    }
  }

  predicate SameActive(a: Assignment, b: Assignment) {
    a.endedAt.None? && b.endedAt.None? && a.studentId == b.studentId
  }

  ghost predicate AssignmentsSound(t: Tables) {
    && (forall a, b :: a in t.assignments && b in t.assignments && SameActive(t.assignments[a], t.assignments[b]) ==>
        a == b)
    && (forall a :: a in t.assignments && t.assignments[a].endedAt.None? ==>
          Projection(t, t.assignments[a].studentId) == Some(t.assignments[a].agentId))
  }

  ghost predicate ItemsSound(t: Tables) {
    && (forall i :: i in t.items && t.items[i].status == "open" ==>
          t.items[i].owner.Some? && OwnerActive(t, t.items[i].owner.value))
    && (forall i, j :: i in t.items && j in t.items && t.items[i].key == t.items[j].key ==> i == j)
  }

  /** The domain rows already there are ones the audit has nothing against. */
  ghost predicate DomainSound(t: Tables) {
    AssignmentsSound(t) && ItemsSound(t)
  }

  ghost predicate DomainEmpty(t: Tables) {
    t.employment == map[] && t.events == map[] && t.assignments == map[] && t.items == map[] && t.outcomes == map[]
  }

  lemma EmptyIsSound(t: Tables)
    requires DomainEmpty(t) && LegacyLinked(t)
    ensures DomainSound(t) && ForeignKeysValid(t)
  {
  }

  /** On valid data the backfill never raises. */
  lemma ValidDataRuns(t: Tables, now: Time)
    requires ForeignKeysValid(t) && DomainSound(t)
    ensures CanRun(t, now)
  {
    forall s | s in t.students ensures !Disagrees(t, s) {
      if ActiveAgent(t.assignments, s).Some? {
        var a := Latest(ActiveRows(t.assignments, s));
        assert Projection(t, t.assignments[a].studentId) == Some(t.assignments[a].agentId);
      }
    }
    forall src | src in Sources(t) ensures !Judge(t, Statuses(t), src, now).NoStudent? {
      LinkedSourceHasStudent(t, src, now);
    }
  }

  lemma LinkedSourceHasStudent(t: Tables, src: Source, now: Time)
    requires LegacyLinked(t)
    ensures !Judge(t, Statuses(t), src, now).NoStudent?
  {
    hide Statuses, Priority, HomeVisitIsOpen, CampusVisitIsOpen, WorkStatus, IsTerminal, Overdue;
  }

  lemma StudentsKept(t: Tables, u: Tables, s: Id)
    requires u.students == MappedAll(t.students)
    ensures s in u.students <==> s in t.students
    ensures s in t.students ==> u.students[s] == t.students[s].(outcomeCode := u.students[s].outcomeCode)
    ensures Projection(u, s) == Projection(t, s)
  {
    hide IsInvalid, Blank, OutcomeCode;
  }

  /** An assignment row of the result is an old one or the one given to a student who had none. */
  lemma AssignmentOrigin(t: Tables, u: Tables, tr: Trace, now: Time, a: Id)
    requires Backfilled(t, u, tr, now) && a in u.assignments && a !in t.assignments
    ensures var s := u.assignments[a].studentId;
      Unrecorded(t, s) && s in tr.assignment && tr.assignment[s] == a
        && u.assignments[a] == AssignmentOf(t.students[s], s, now)
  {
    hide Statuses, DueItems, DueEvents, Sources, CatalogueAdded, EmploymentAfter, MappedAll, ActiveRows;
    var k :| k in tr.assignment && tr.assignment[k] == a;
    assert k in DueAssignments(t, t.students.Keys, now);
  }

  lemma OldAssignmentsStay(t: Tables, u: Tables, tr: Trace, now: Time)
    requires Backfilled(t, u, tr, now)
    ensures forall a :: a in t.assignments ==> a in u.assignments && u.assignments[a] == t.assignments[a]
  {
  }

  lemma AssignmentsStaySound(t: Tables, u: Tables, tr: Trace, now: Time)
    requires Backfilled(t, u, tr, now) && AssignmentsSound(t)
    ensures AssignmentsSound(u)
  {
    OldAssignmentsStay(t, u, tr, now);
    assert u.students == MappedAll(t.students);
    hide Backfilled, MappedAll;
    forall a | a in u.assignments && u.assignments[a].endedAt.None?
      ensures Projection(u, u.assignments[a].studentId) == Some(u.assignments[a].agentId)
    {
      StudentsKept(t, u, u.assignments[a].studentId);
      if a !in t.assignments {
        AssignmentOrigin(t, u, tr, now, a);
      }
    }
    forall a, b | a in u.assignments && b in u.assignments && SameActive(u.assignments[a], u.assignments[b])
      ensures a == b
    {
      OneActiveRow(t, u, tr, now, a, b);
    }
  }

  lemma OneActiveRow(t: Tables, u: Tables, tr: Trace, now: Time, a: Id, b: Id)
    requires Backfilled(t, u, tr, now) && AssignmentsSound(t)
    requires a in u.assignments && b in u.assignments && SameActive(u.assignments[a], u.assignments[b])
    ensures a == b
  {
    OldAssignmentsStay(t, u, tr, now);
    hide Backfilled;
    var s := u.assignments[a].studentId;
    if a !in t.assignments {
      AssignmentOrigin(t, u, tr, now, a);
    }
    if b !in t.assignments {
      AssignmentOrigin(t, u, tr, now, b);
    }
    if a in t.assignments {
      assert a in ActiveRows(t.assignments, s);
    }
    if b in t.assignments {
      assert b in ActiveRows(t.assignments, s);
    }
  }

  /** Every assigned student ends with an active row. */
  lemma AssignedIsRecorded(t: Tables, u: Tables, tr: Trace, now: Time, s: Id)
    requires Backfilled(t, u, tr, now) && s in t.students && t.students[s].assignedTo.Some?
    ensures ActiveRows(u.assignments, s) != {}
  {
    hide Statuses, DueItems, DueEvents, Sources, CatalogueAdded, EmploymentAfter, MappedAll;
    if Unrecorded(t, s) {
      assert s in DueAssignments(t, t.students.Keys, now);
      assert tr.assignment[s] in ActiveRows(u.assignments, s);
    } else {
      var a :| a in ActiveRows(t.assignments, s);
      assert a in ActiveRows(u.assignments, s);
    }
  }

  lemma SoundAssignmentsMatch(t: Tables)
    requires AssignmentsSound(t)
    requires forall s :: s in t.students && t.students[s].assignedTo.Some? ==> ActiveRows(t.assignments, s) != {}
    ensures |Mismatches(t)| == 0 && |DuplicateActive(t)| == 0
  {
    forall s ensures Projection(t, s) == ActiveAgent(t.assignments, s) && |ActiveRows(t.assignments, s)| <= 1 {
      var rows := ActiveRows(t.assignments, s);
      if rows != {} {
        var a := Latest(rows);
        assert Projection(t, t.assignments[a].studentId) == Some(t.assignments[a].agentId);
        assert rows == {a};
      }
    }
    hide ActiveAgent, ActiveRows;
    assert Mismatches(t) == {} && DuplicateActive(t) == {};
  }

  /** A work item of the result is an old one or the one owed to its source. */
  lemma ItemOrigin(t: Tables, u: Tables, tr: Trace, now: Time, i: Id) returns (src: Source)
    requires Backfilled(t, u, tr, now) && i in u.items && i !in t.items
    ensures src in tr.item && tr.item[src] == i
    ensures Judge(t, Statuses(t), src, now) == Row(u.items[i]) && u.items[i].key == KeyOf(src)
      && KeyOf(src) !in ItemKeys(t.items)
  {
    hide Statuses, DueEvents, Sources, CatalogueAdded, EmploymentAfter, MappedAll, Judge, ItemKeys, KeyOf,
      DueAssignments;
    src :| src in tr.item && tr.item[src] == i;
    assert src in DueItems(t, Statuses(t), Sources(t), now);
    RowKey(t, Statuses(t), src, now);
  }

  lemma OldItemsStay(t: Tables, u: Tables, tr: Trace, now: Time)
    requires Backfilled(t, u, tr, now)
    ensures forall i :: i in t.items ==> i in u.items && u.items[i] == t.items[i]
  {
  }

  /** A row owed to a source is open only under an owner whose status is active, and its owner, creator
      and student are rows when the data is linked. */
  lemma OwedItem(t: Tables, src: Source, now: Time)
    requires LegacyLinked(t) && Judge(t, Statuses(t), src, now).Row?
    ensures var item := Judge(t, Statuses(t), src, now).item;
      && item.owner.Some? && item.status == WorkStatus(item.owner.value, Statuses(t))
      && item.studentId in t.students && InUsers(t, item.owner) && InUsers(t, item.creator)
  {
    hide Statuses, Priority, HomeVisitIsOpen, CampusVisitIsOpen, WorkStatus, IsTerminal, Overdue;
    match src {
      case Lead(id) => assert InUsers(t, t.students[id].assignedTo);
      case FollowUpRow(id) => assert InUsers(t, t.students[t.followUps[id].studentId].assignedTo);
      case HomeRow(id) => assert InUsers(t, t.students[t.home[id].studentId].assignedTo);
      case CampusRow(id) => assert InUsers(t, t.students[t.campus[id].studentId].assignedTo);
      case Settlement(id) => assert InUsers(t, t.students[t.enrollments[id].studentId].assignedTo);
      case Help(id) => assert InUsers(t, t.students[id].assignedTo);
    }
  }

  lemma StatusesAreEmployment(t: Tables, u: Tables, now: Time, owner: Id)
    requires u.employment == EmploymentAfter(t, now)
    ensures WorkStatus(owner, Statuses(t)) == "open" ==> OwnerActive(u, owner)
    ensures OwnerActive(t, owner) ==> OwnerActive(u, owner)
  {
    hide DerivedStatus;
  }

  lemma ItemsStaySound(t: Tables, u: Tables, tr: Trace, now: Time)
    requires Backfilled(t, u, tr, now) && ItemsSound(t) && LegacyLinked(t)
    ensures ItemsSound(u)
  {
    OldItemsStay(t, u, tr, now);
    assert u.employment == EmploymentAfter(t, now);
    hide Backfilled, WorkStatus, OwnerActive, Statuses, LegacyLinked, EmploymentAfter;
    forall i | i in u.items && u.items[i].status == "open"
      ensures u.items[i].owner.Some? && OwnerActive(u, u.items[i].owner.value)
    {
      if i in t.items {
        StatusesAreEmployment(t, u, now, t.items[i].owner.value);
      } else {
        var src := ItemOrigin(t, u, tr, now, i);
        OwedItem(t, src, now);
        StatusesAreEmployment(t, u, now, u.items[i].owner.value);
      }
    }
    forall i, j | i in u.items && j in u.items && u.items[i].key == u.items[j].key ensures i == j {
      OneItemPerKey(t, u, tr, now, i, j);
    }
  }

  lemma OneItemPerKey(t: Tables, u: Tables, tr: Trace, now: Time, i: Id, j: Id)
    requires Backfilled(t, u, tr, now) && ItemsSound(t) && i in u.items && j in u.items
      && u.items[i].key == u.items[j].key
    ensures i == j
  {
    OldItemsStay(t, u, tr, now);
    hide Backfilled, KeyOf, Statuses, Judge, OwnerActive;
    if i !in t.items && j !in t.items {
      var a := ItemOrigin(t, u, tr, now, i);
      var b := ItemOrigin(t, u, tr, now, j);
      KeysApart(a, b);
    } else if i !in t.items {
      var a := ItemOrigin(t, u, tr, now, i);
    } else if j !in t.items {
      var b := ItemOrigin(t, u, tr, now, j);
    }
  }

  lemma SoundItemsCount(t: Tables)
    requires ItemsSound(t)
    ensures |OpenWithoutOwner(t)| == 0 && |OpenOwnedByInactive(t)| == 0 && |DuplicateKeys(t)| == 0
  {
    hide OwnerActive;
    forall k | k in ItemKeys(t.items) ensures |RowsOfKey(t, k)| <= 1 {
      var i :| i in t.items && t.items[i].key == k;
      assert RowsOfKey(t, k) == {i};
    }
    hide RowsOfKey, ItemKeys;
    assert OpenWithoutOwner(t) == {} && OpenOwnedByInactive(t) == {} && DuplicateKeys(t) == {};
  }

  // ---------------------------------------------------------------- outcomes

  lemma CodeIsCatalogued(i: nat)
    requires i < |OUTCOME_ROWS|
    ensures OUTCOME_ROWS[i].0 in CatalogueCodes()
  {
  }

  lemma Solid(s: string)
    requires s != "" && !IsSpace(s[0])
    ensures !Blank(s)
  {
    assert StripLeft(s) == s;
    FirstStays(s);
  }

  lemma {:induction false} FirstStays(s: string)
    requires s != "" && !IsSpace(s[0])
    ensures StripRight(s) != ""
  {
    if IsSpace(s[|s| - 1]) {
      FirstStays(s[..|s| - 1]);
    }
  }

  /** The code given to an invalid student without one is in the catalogue, and not blank. */
  lemma MappedCodeIsCatalogued(s: Student)
    ensures OutcomeCode(s) in CatalogueCodes() && !Blank(OutcomeCode(s))
  {
    var i: nat :| i < |OUTCOME_ROWS| && OUTCOME_ROWS[i].0 == OutcomeCode(s) by {
      hide Blank, Strip;
      assert OUTCOME_ROWS[0].0 == "phone_invalid" && OUTCOME_ROWS[1].0 == "high_score"
        && OUTCOME_ROWS[2].0 == "no_intent";
      assert OUTCOME_ROWS[3].0 == "child_declined" && OUTCOME_ROWS[4].0 == "enrolled_elsewhere";
      assert OUTCOME_ROWS[5].0 == "legacy_unspecified" && OUTCOME_ROWS[6].0 == "other";
    }
    CodeIsCatalogued(i);
    Solid(OutcomeCode(s));
  }

  /** An invalid student whose code was set by hand to something the catalogue does not know. */
  predicate StrayCode(t: Tables, student: Id)
    requires student in t.students
  {
    IsInvalid(t.students[student].status) && !Blank(t.students[student].outcomeCode)
    && t.students[student].outcomeCode !in t.outcomes.Keys + CatalogueCodes()
  }

  function StrayCodes(t: Tables): set<Id> {
    set s | s in t.students && StrayCode(t, s)
  }

  lemma UncataloguedIsStray(t: Tables, u: Tables, s: Id)
    requires u.students == MappedAll(t.students) && CatalogueAdded(t.outcomes, u.outcomes) && s in t.students
    ensures s in u.students && (Uncatalogued(u, s) <==> StrayCode(t, s))
  {
    MappedCodeIsCatalogued(t.students[s]);
    hide CatalogueCodes, IsInvalid, Blank, OutcomeCode;
    assert u.outcomes.Keys == t.outcomes.Keys + CatalogueCodes();
  }

  lemma LinksKept(t: Tables, u: Tables, tr: Trace, now: Time)
    requires Backfilled(t, u, tr, now) && LegacyLinked(t)
    ensures LegacyLinked(u)
  {
    forall s | s in u.students ensures InUsers(u, u.students[s].assignedTo) {
      StudentsKept(t, u, s);
      assert InUsers(t, t.students[s].assignedTo);
    }
    assert u.students.Keys == t.students.Keys;
  }

  lemma EventOrigin(t: Tables, u: Tables, tr: Trace, now: Time, e: Id)
    requires Backfilled(t, u, tr, now) && e in u.events
    ensures if e in t.events then u.events[e] == t.events[e] else u.events[e].userId in t.users
  {
    hide Statuses, DueItems, DueAssignments, Sources, CatalogueAdded, EmploymentAfter, MappedAll;
    if e !in t.events {
      var k :| k in tr.event && tr.event[k] == e;
      assert k in DueEvents(t, now);
    }
  }

  lemma NewAssignmentLinked(t: Tables, u: Tables, tr: Trace, now: Time, a: Id)
    requires Backfilled(t, u, tr, now) && LegacyLinked(t) && a in u.assignments && a !in t.assignments
    ensures u.assignments[a].studentId in t.students && u.assignments[a].agentId in t.users
  {
    hide Backfilled;
    AssignmentOrigin(t, u, tr, now, a);
    assert InUsers(t, t.students[u.assignments[a].studentId].assignedTo);
  }

  lemma NewItemLinked(t: Tables, u: Tables, tr: Trace, now: Time, i: Id)
    requires Backfilled(t, u, tr, now) && LegacyLinked(t) && i in u.items && i !in t.items
    ensures u.items[i].studentId in t.students && InUsers(t, u.items[i].owner) && InUsers(t, u.items[i].creator)
  {
    hide Backfilled, Judge, Statuses, ItemKeys, KeyOf, LegacyLinked;
    var src := ItemOrigin(t, u, tr, now, i);
    OwedItem(t, src, now);
  }

  lemma AssignmentLinked(t: Tables, u: Tables, tr: Trace, now: Time, a: Id)
    requires Backfilled(t, u, tr, now) && LegacyLinked(t) && AssignmentsLinked(t) && a in u.assignments
    ensures u.assignments[a].studentId in t.students && u.assignments[a].agentId in t.users
  {
    OldAssignmentsStay(t, u, tr, now);
    hide Backfilled, LegacyLinked;
    if a !in t.assignments {
      NewAssignmentLinked(t, u, tr, now, a);
    }
  }

  lemma AssignmentsStayLinked(t: Tables, u: Tables, tr: Trace, now: Time)
    requires Backfilled(t, u, tr, now) && LegacyLinked(t) && AssignmentsLinked(t)
    ensures AssignmentsLinked(u)
  {
    LegacyKept(t, u, tr, now);
    hide Backfilled, EmploymentAfter, MappedAll, CatalogueAdded, LegacyLinked;
    forall a | a in u.assignments
      ensures u.assignments[a].studentId in u.students && u.assignments[a].agentId in u.users
    {
      AssignmentLinked(t, u, tr, now, a);
    }
  }

  lemma ItemLinked(t: Tables, u: Tables, tr: Trace, now: Time, i: Id)
    requires Backfilled(t, u, tr, now) && LegacyLinked(t) && ItemsLinked(t) && i in u.items
    ensures u.items[i].studentId in t.students && InUsers(t, u.items[i].owner) && InUsers(t, u.items[i].creator)
  {
    OldItemsStay(t, u, tr, now);
    hide Backfilled, LegacyLinked;
    if i !in t.items {
      NewItemLinked(t, u, tr, now, i);
    }
  }

  lemma ItemsStayLinked(t: Tables, u: Tables, tr: Trace, now: Time)
    requires Backfilled(t, u, tr, now) && LegacyLinked(t) && ItemsLinked(t)
    ensures ItemsLinked(u)
  {
    LegacyKept(t, u, tr, now);
    hide Backfilled, EmploymentAfter, MappedAll, CatalogueAdded, LegacyLinked;
    forall i | i in u.items
      ensures u.items[i].studentId in u.students && InUsers(u, u.items[i].owner) && InUsers(u, u.items[i].creator)
    {
      ItemLinked(t, u, tr, now, i);
    }
  }

  lemma NewRowsLinked(t: Tables, u: Tables, tr: Trace, now: Time)
    requires Backfilled(t, u, tr, now) && ForeignKeysValid(t)
    ensures DomainLinked(u)
  {
    AssignmentsStayLinked(t, u, tr, now);
    ItemsStayLinked(t, u, tr, now);
    LegacyKept(t, u, tr, now);
    assert u.employment.Keys <= u.users.Keys;
    hide Backfilled, EmploymentAfter, MappedAll, CatalogueAdded, LegacyLinked, AssignmentsLinked, ItemsLinked;
    forall e | e in u.events ensures u.events[e].userId in u.users {
      EventOrigin(t, u, tr, now, e);
    }
  }

  /** On linked data whose domain rows, if any, are sound, the run leaves nothing for the audit to count
      but the stray codes that were there before; and the result is again linked and sound. */
  lemma BackfillMeetsAudit(t: Tables, u: Tables, tr: Trace, now: Time)
    requires Backfilled(t, u, tr, now) && ForeignKeysValid(t) && DomainSound(t)
    ensures Audit(u) == AuditReport(0, 0, 0, 0, 0, 0, |StrayCodes(t)|, 0)
    ensures AuditOk(u) <==> StrayCodes(t) == {}
    ensures ForeignKeysValid(u) && DomainSound(u)
  {
    StaysSound(t, u, tr, now);
    AuditCounts(t, u, tr, now);
    StrayCount(t, u, tr, now);
    hide Backfilled, StrayCodes, UncataloguedReasons, Audit, ForeignKeysValid, DomainSound;
    assert |StrayCodes(t)| == 0 <==> StrayCodes(t) == {};
  }

  lemma StaysSound(t: Tables, u: Tables, tr: Trace, now: Time)
    requires Backfilled(t, u, tr, now) && ForeignKeysValid(t) && DomainSound(t)
    ensures ForeignKeysValid(u) && DomainSound(u)
  {
    hide Backfilled, AssignmentsSound, ItemsSound, LegacyLinked, DomainLinked;
    AssignmentsStaySound(t, u, tr, now);
    ItemsStaySound(t, u, tr, now);
    LinksKept(t, u, tr, now);
    NewRowsLinked(t, u, tr, now);
  }

  lemma StrayCount(t: Tables, u: Tables, tr: Trace, now: Time)
    requires Backfilled(t, u, tr, now)
    ensures |UncataloguedReasons(u)| == |StrayCodes(t)|
  {
    assert u.students == MappedAll(t.students) && CatalogueAdded(t.outcomes, u.outcomes);
    hide Backfilled, StrayCode, Uncatalogued, CatalogueAdded;
    forall s | s in t.students ensures s in u.students && (Uncatalogued(u, s) <==> StrayCode(t, s)) {
      UncataloguedIsStray(t, u, s);
    }
    assert u.students.Keys == t.students.Keys;
    assert UncataloguedReasons(u) == StrayCodes(t);
  }

  lemma AllRecorded(t: Tables, u: Tables, tr: Trace, now: Time)
    requires Backfilled(t, u, tr, now)
    ensures forall s :: s in u.students && u.students[s].assignedTo.Some? ==> ActiveRows(u.assignments, s) != {}
  {
    LegacyKept(t, u, tr, now);
    hide Backfilled, ActiveRows, MappedAll, EmploymentAfter, CatalogueAdded;
    forall s | s in u.students && u.students[s].assignedTo.Some? ensures ActiveRows(u.assignments, s) != {} {
      StudentsKept(t, u, s);
      AssignedIsRecorded(t, u, tr, now, s);
    }
  }

  lemma EveryoneEmployed(t: Tables, u: Tables, tr: Trace, now: Time)
    requires Backfilled(t, u, tr, now)
    ensures |Unemployed(u, u.users.Keys)| == 0
  {
    assert u.employment.Keys == t.employment.Keys + t.users.Keys && u.users == t.users;
    hide Backfilled, EmploymentAfter;
    assert Unemployed(u, u.users.Keys) == {};
  }

  lemma AuditCounts(t: Tables, u: Tables, tr: Trace, now: Time)
    requires Backfilled(t, u, tr, now) && ForeignKeysValid(u) && DomainSound(u)
    ensures Audit(u) == AuditReport(0, 0, 0, 0, 0, 0, |UncataloguedReasons(u)|, 0)
  {
    AllRecorded(t, u, tr, now);
    EveryoneEmployed(t, u, tr, now);
    hide Backfilled, UncataloguedReasons, AssignmentsSound, ItemsSound, LegacyLinked, DomainLinked, OpenWithoutOwner,
         OpenOwnedByInactive, DuplicateKeys, LegacyViolations, DomainViolations, Mismatches, DuplicateActive,
         ActiveRows, Unemployed;
    SoundAssignmentsMatch(u);
    SoundItemsCount(u);
    LegacyViolationsCount(u);
    DomainViolationsCount(u);
  }

  /** One unassigned invalid student with a code set by hand. */
  function StrayExample(): Tables {
    var s := Student(None, "无效", "", false, "x", None, None, None);
    Tables(map[], map[1 := s], map[], map[], map[], map[], map[], map[], map[], map[], map[], map[])
  }

  /** A code set by hand outside the catalogue fails the audit, on data that is valid in every other way. */
  lemma StrayCodeFailsAudit(u: Tables, tr: Trace, now: Time)
    requires Backfilled(StrayExample(), u, tr, now)
    ensures DomainEmpty(StrayExample()) && ForeignKeysValid(StrayExample()) && CanRun(StrayExample(), now)
    ensures !AuditOk(u)
  {
    StrayExampleIsStray();
    hide *;
    var t := StrayExample();
    EmptyIsSound(t);
    ValidDataRuns(t, now);
    BackfillMeetsAudit(t, u, tr, now);
  }

  lemma StrayExampleIsStray()
    ensures DomainEmpty(StrayExample()) && LegacyLinked(StrayExample())
    ensures StrayCodes(StrayExample()) != {}
  {
    Solid("x");
    assert Strip("无效") == "无效" by {
      assert StripLeft("无效") == "无效" && StripRight("无效") == "无效";
    }
    forall c | c in CatalogueCodes() ensures c != "x" {
      var i :| 0 <= i < |OUTCOME_ROWS| && c == OUTCOME_ROWS[i].0;
      CodesAreLong(i);
    }
    assert 1 in StrayCodes(StrayExample());
  }

  lemma CodesAreLong(i: nat)
    requires i < |OUTCOME_ROWS|
    ensures |OUTCOME_ROWS[i].0| > 1
  {
  }

  // ---------------------------------------------------------------- the second run

  lemma NothingToAdd<K(!new), T>(before: map<Id, T>, due: map<K, T>, at: map<K, Id>, after: map<Id, T>)
    requires Adds(before, due, at, after) && due == map[]
    ensures after == before
  {
  }

  /** The judgement of a source depends on no table the backfill writes, except for the row itself. */
  lemma SameJudgement(t: Tables, u: Tables, src: Source, now: Time, later: Time)
    requires u.followUps == t.followUps && u.home == t.home && u.campus == t.campus && u.enrollments == t.enrollments
    requires u.students == MappedAll(t.students)
    ensures var first, second := Judge(t, Statuses(t), src, now), Judge(u, Statuses(u), src, later);
      (first.Row? <==> second.Row?) && (first.NoOwner? <==> second.NoOwner?)
        && (first.NoStudent? <==> second.NoStudent?)
  {
    hide Statuses, Priority, HomeVisitIsOpen, CampusVisitIsOpen, WorkStatus, IsTerminal, Overdue, MappedAll;
    match src {
      case Lead(id) => StudentsKept(t, u, id);
      case FollowUpRow(id) => if id in t.followUps { StudentsKept(t, u, t.followUps[id].studentId); }
      case HomeRow(id) => if id in t.home { StudentsKept(t, u, t.home[id].studentId); }
      case CampusRow(id) => if id in t.campus { StudentsKept(t, u, t.campus[id].studentId); }
      case Settlement(id) => if id in t.enrollments { StudentsKept(t, u, t.enrollments[id].studentId); }
      case Help(id) => StudentsKept(t, u, id);
    }
  }

  lemma SameSources(t: Tables, u: Tables)
    requires u.students.Keys == t.students.Keys
    requires u.followUps == t.followUps && u.home == t.home && u.campus == t.campus && u.enrollments == t.enrollments
    ensures Sources(u) == Sources(t)
  {
    assert forall i: nat :: Scanned(u, i) == Scanned(t, i);
    SameScans(t, u, 6);
  }

  lemma {:induction false} SameScans(t: Tables, u: Tables, n: nat)
    requires forall i: nat :: Scanned(u, i) == Scanned(t, i)
    ensures ScannedUpTo(u, n) == ScannedUpTo(t, n)
  {
    hide Scanned;
    if n > 0 {
      SameScans(t, u, n - 1);
    }
  }

  lemma LegacyKept(t: Tables, u: Tables, tr: Trace, now: Time)
    requires Backfilled(t, u, tr, now)
    ensures u.users == t.users && u.students == MappedAll(t.students) && u.students.Keys == t.students.Keys
    ensures u.followUps == t.followUps && u.home == t.home && u.campus == t.campus && u.enrollments == t.enrollments
    ensures u.employment == EmploymentAfter(t, now) && CatalogueAdded(t.outcomes, u.outcomes)
  {
  }

  /** After the run, the key of every source that is due a row is taken. */
  lemma NoItemsDue(t: Tables, u: Tables, tr: Trace, now: Time, later: Time)
    requires Backfilled(t, u, tr, now)
    ensures DueItems(u, Statuses(u), Sources(u), later) == map[]
  {
    LegacyKept(t, u, tr, now);
    SameSources(t, u);
    forall src | src in Sources(u) && Judge(u, Statuses(u), src, later).Row? ensures KeyOf(src) in ItemKeys(u.items) {
      SameJudgement(t, u, src, now, later);
      KeyIsTaken(t, u, tr, now, src);
    }
    hide Sources, Judge, Statuses, KeyOf, ItemKeys, Backfilled;
  }

  lemma KeyIsTaken(t: Tables, u: Tables, tr: Trace, now: Time, src: Source)
    requires Backfilled(t, u, tr, now) && src in Sources(t) && Judge(t, Statuses(t), src, now).Row?
    ensures KeyOf(src) in ItemKeys(u.items)
  {
    hide Statuses, DueEvents, Sources, CatalogueAdded, EmploymentAfter, MappedAll, Judge, KeyOf, DueAssignments;
    if KeyOf(src) in ItemKeys(t.items) {
      var i :| i in t.items && t.items[i].key == KeyOf(src);
      assert i in u.items && u.items[i] == t.items[i];
    } else {
      assert src in DueItems(t, Statuses(t), Sources(t), now);
      RowKey(t, Statuses(t), src, now);
      assert u.items[tr.item[src]].key == KeyOf(src);
    }
  }

  lemma NoEventsDue(t: Tables, u: Tables, tr: Trace, now: Time, later: Time)
    requires Backfilled(t, u, tr, now)
    ensures DueEvents(u, later) == map[]
  {
    hide DueItems, DueAssignments, Sources, CatalogueAdded, EmploymentAfter, MappedAll, Statuses;
    forall user | user in u.users ensures user in EventUsers(u.events) {
      if user in EventUsers(t.events) {
        var e :| e in t.events && t.events[e].reason == EVENT_REASON && t.events[e].userId == user;
        assert e in u.events && u.events[e] == t.events[e];
      } else {
        assert user in DueEvents(t, now);
        var e := tr.event[user];
        assert u.events[e].reason == EVENT_REASON && u.events[e].userId == user;
      }
    }
  }

  lemma NoAssignmentsDue(t: Tables, u: Tables, tr: Trace, now: Time, later: Time)
    requires Backfilled(t, u, tr, now)
    ensures DueAssignments(u, u.students.Keys, later) == map[]
  {
    LegacyKept(t, u, tr, now);
    hide Backfilled, MappedAll, ActiveRows;
    forall s | s in u.students ensures !Unrecorded(u, s) {
      StudentsKept(t, u, s);
      if t.students[s].assignedTo.Some? {
        AssignedIsRecorded(t, u, tr, now, s);
      }
    }
  }

  /** The agent of the latest active row after the run is the one before it, or the assignee. */
  lemma StillAgrees(t: Tables, u: Tables, tr: Trace, now: Time, s: Id)
    requires Backfilled(t, u, tr, now) && s in t.students && !Disagrees(t, s)
    ensures !Disagrees(u, s)
  {
    LegacyKept(t, u, tr, now);
    StudentsKept(t, u, s);
    OldAssignmentsStay(t, u, tr, now);
    hide Backfilled, MappedAll;
    var before, after := ActiveRows(t.assignments, s), ActiveRows(u.assignments, s);
    forall a | a in after && a !in t.assignments
      ensures Unrecorded(t, s) && Some(u.assignments[a].agentId) == t.students[s].assignedTo {
      AssignmentOrigin(t, u, tr, now, a);
    }
    if before != {} {
      assert after == before;
    } else if after != {} {
      assert Latest(after) !in t.assignments;
    }
  }

  lemma SameOwnerless(t: Tables, u: Tables, tr: Trace, now: Time, later: Time)
    requires Backfilled(t, u, tr, now)
    ensures Ownerless(u, Statuses(u), Sources(u), later) == Ownerless(t, Statuses(t), Sources(t), now)
  {
    LegacyKept(t, u, tr, now);
    SameSources(t, u);
    hide Backfilled, Sources, Judge, Statuses;
    forall src ensures Judge(u, Statuses(u), src, later) == NoOwner <==> Judge(t, Statuses(t), src, now) == NoOwner {
      SameJudgement(t, u, src, now, later);
    }
  }

  /** Unassigned students who need help. */
  function HelpWanted(t: Tables): set<Id> {
    set s | s in t.students && t.students[s].needHelp && t.students[s].assignedTo.None?
  }

  /** Only the help loop can meet a row nobody can own. */
  lemma OwnerlessIsHelp(t: Tables, now: Time)
    ensures |Ownerless(t, Statuses(t), Sources(t), now)| == |HelpWanted(t)|
  {
    var wanted := set s | s in HelpWanted(t) :: Help(s);
    forall src ensures src in Ownerless(t, Statuses(t), Sources(t), now) <==> src in wanted {
      HelpInSources(t, src);
      OwnerlessSource(t, src, now);
    }
    hide Sources, Judge, Ownerless, HelpWanted;
    assert Ownerless(t, Statuses(t), Sources(t), now) == wanted;
    HelpCount(HelpWanted(t));
  }

  lemma {:induction false} HelpCount(ids: set<Id>)
    ensures |set s | s in ids :: Help(s)| == |ids|
  {
    if ids != {} {
      var x :| x in ids;
      HelpCount(ids - {x});
      assert (set s | s in ids :: Help(s)) == (set s | s in ids - {x} :: Help(s)) + {Help(x)};
    }
  }

  lemma HelpInSources(t: Tables, src: Source)
    ensures src.Help? ==> (src in Sources(t) <==> src.id in t.students)
  {
    ScannedApart(t, 5);
    assert Sources(t) == ScannedUpTo(t, 5) + Scanned(t, 5);
  }

  lemma OwnerlessSource(t: Tables, src: Source, now: Time)
    ensures Judge(t, Statuses(t), src, now) == NoOwner <==>
      src.Help? && src.id in t.students && t.students[src.id].needHelp && t.students[src.id].assignedTo.None?
  {
    hide Statuses, Priority, HomeVisitIsOpen, CampusVisitIsOpen, WorkStatus, IsTerminal, Overdue;
  }

  lemma MappedTwice(t: Tables, u: Tables)
    requires u.students == MappedAll(t.students)
    ensures MappedAll(u.students) == u.students && UnmappedIn(u.students) == {}
  {
    hide IsInvalid, Blank, OutcomeCode;
    forall s | s in t.students ensures !Unmapped(u.students[s]) {
      MappedCodeIsCatalogued(t.students[s]);
    }
  }

  lemma CatalogueComplete(before: map<string, Outcome>, after: map<string, Outcome>, last: map<string, Outcome>)
    requires CatalogueAdded(before, after)
    ensures NewCodes(after, CatalogueCodes()) == {}
    ensures CatalogueAdded(after, last) ==> last == after
  {
  }

  /** A second run on the result raises nothing, changes no row and reports zero for everything but the
      help requests without an owner, of which it finds as many as there are unassigned students who need
      help. */
  lemma SecondRunChangesNothing(t: Tables, u: Tables, tr: Trace, now: Time, later: Time)
    requires CanRun(t, now) && Backfilled(t, u, tr, now)
    ensures CanRun(u, later)
    ensures forall v, again :: Backfilled(u, v, again, later) ==> v == u
    ensures ReportOf(u, later) == Report(0, 0, 0, 0, 0, |HelpWanted(t)|, 0, 0)
  {
    SecondRunRuns(t, u, tr, now, later);
    SecondReport(t, u, tr, now, later);
    hide Backfilled, ReportOf, CanRun;
    forall v, again | Backfilled(u, v, again, later) ensures v == u {
      SecondRunIdle(t, u, tr, now, v, again, later);
    }
  }

  lemma SecondRunRuns(t: Tables, u: Tables, tr: Trace, now: Time, later: Time)
    requires CanRun(t, now) && Backfilled(t, u, tr, now)
    ensures CanRun(u, later)
  {
    LegacyKept(t, u, tr, now);
    SameSources(t, u);
    hide Backfilled, Disagrees, Judge, Statuses, Sources;
    forall s | s in u.students ensures !Disagrees(u, s) {
      StillAgrees(t, u, tr, now, s);
    }
    forall src | src in Sources(u) ensures !Judge(u, Statuses(u), src, later).NoStudent? {
      SameJudgement(t, u, src, now, later);
    }
  }

  lemma SecondReport(t: Tables, u: Tables, tr: Trace, now: Time, later: Time)
    requires Backfilled(t, u, tr, now)
    ensures ReportOf(u, later) == Report(0, 0, 0, 0, 0, |HelpWanted(t)|, 0, 0)
  {
    LegacyKept(t, u, tr, now);
    assert Unemployed(u, u.users.Keys) == {};
    NoItemsDue(t, u, tr, now, later);
    NoEventsDue(t, u, tr, now, later);
    NoAssignmentsDue(t, u, tr, now, later);
    SameOwnerless(t, u, tr, now, later);
    OwnerlessIsHelp(t, now);
    MappedTwice(t, u);
    CatalogueComplete(t.outcomes, u.outcomes, u.outcomes);
    hide Backfilled, DueItems, DueEvents, DueAssignments, Sources, Statuses, Ownerless, NewCodes, CatalogueCodes,
         MappedAll, UnmappedIn, HelpWanted, Unemployed, CatalogueAdded, EmploymentAfter;
    var none: map<Source, Item> := map[];
    assert none.Keys == {} && Leads({}) == {} && Others({}) == {};
  }

  lemma SecondRunIdle(t: Tables, u: Tables, tr: Trace, now: Time, v: Tables, again: Trace, later: Time)
    requires Backfilled(t, u, tr, now) && Backfilled(u, v, again, later)
    ensures v == u
  {
    LegacyKept(t, u, tr, now);
    NoItemsDue(t, u, tr, now, later);
    NoEventsDue(t, u, tr, now, later);
    NoAssignmentsDue(t, u, tr, now, later);
    MappedTwice(t, u);
    CatalogueComplete(t.outcomes, u.outcomes, v.outcomes);
    EmploymentComplete(t, u, now, later);
    hide Adds, DueItems, DueEvents, DueAssignments, Sources, Statuses, MappedAll, CatalogueAdded, EmploymentAfter;
    NothingToAdd(u.events, DueEvents(u, later), again.event, v.events);
    NothingToAdd(u.assignments, DueAssignments(u, u.students.Keys, later), again.assignment, v.assignments);
    NothingToAdd(u.items, DueItems(u, Statuses(u), Sources(u), later), again.item, v.items);
  }

  lemma EmploymentComplete(t: Tables, u: Tables, now: Time, later: Time)
    requires u.users == t.users && u.employment == EmploymentAfter(t, now)
    ensures EmploymentAfter(u, later) == u.employment
  {
    hide DerivedStatus;
  }
}
