/**
 Folding the legacy visits table into the two task tables, and restoring it from the log
 (app/migration_data/legacy_visits_20261016.py). Tables are maps from row id to row. Columns the fold
 fills with a constant default are not modelled, other columns nobody reads are the field `other`.
 Timestamps and the JSON note are kept as values, so isoformat and dumps are the identity.
 */
module LegacyVisits {
  import opened Common
  import opened StatusPolicy

  type Id = nat
  type Time = int

  const ACTION := "合并旧到访"
  const BATCH := "alembic-20261016_01"
  const OPERATOR := "系统迁移"

  datatype Student = Student(
    name: string, guardianPhone: string, guardian2Phone: string, region: string, school: string, program: string,
    score: Option<int>, caseNo: Option<string>, assignedTo: Option<Id>, status: string)
  datatype Visit = Visit(
    studentId: Id, agentId: Id, visitType: string, scheduledDate: Option<Time>, status: string,
    notes: Option<string>, createdAt: Time, updatedAt: Time)
  datatype HomeTask = HomeTask(
    studentId: Id, creatorId: Id, status: string, priority: string, studentName: string, phone: string,
    region: string, school: string, program: string, examScore: Option<int>,
    requestedVisitTime: Option<Time>, scheduledAt: Option<Time>, notes: string, createdAt: Time, updatedAt: Time,
    other: string)
  datatype CampusTask = CampusTask(
    studentId: Id, creatorId: Id, homeVisitTaskId: Option<Id>, status: string, source: string, studentName: string,
    phone: string, region: string, school: string, program: string, appointmentAt: Option<Time>,
    notes: string, createdAt: Time, updatedAt: Time, other: string)
  datatype WorkItem = WorkItem(
    studentId: Id, kind: string, status: string, owner: Option<Id>, creator: Option<Id>, priority: string,
    dueAt: Option<Time>, sourceType: string, sourceId: Id, version: int, createdAt: Time, updatedAt: Time,
    other: string)
  datatype Enrollment = Enrollment(homeVisitTaskId: Option<Id>, campusVisitTaskId: Option<Id>, other: string)

  datatype Kind = Home | Campus

  datatype Note = Text(text: string) | Moved(kind: Kind, taskId: Id, visitId: Id, visit: Visit)
  datatype Content = Prose(text: string) | FoldedInto(visitId: Id, kind: Kind, taskId: Id)
  datatype Log = Log(
    operatorName: string, targetStudent: Option<Id>, caseNo: string, action: string, content: Content,
    note: Note, batchId: string, createdAt: Time)

  datatype Tables = Tables(
    students: map<Id, Student>, visits: map<Id, Visit>, home: map<Id, HomeTask>, campus: map<Id, CampusTask>,
    items: map<Id, WorkItem>, enrollments: map<Id, Enrollment>, employment: map<Id, string>, logs: map<Id, Log>)

  // ---------------------------------------------------------------- one visit

  function KindName(k: Kind): string {
    if k == Home then "home_visit" else "campus_visit"
  }

  function TypeName(k: Kind): string {
    if k == Home then "home" else "campus"
  }

  /** The task status of a legacy visit status. */
  function TaskStatus(k: Kind, status: string): Option<string> {
    if status == "pending" then Some("pending")
    else if status == "confirmed" then Some(if k == Home then "confirmed" else "scheduled")
    else if status == "completed" then Some(if k == Home then "completed" else "arrived")
    else if status == "cancelled" then Some("cancelled")
    else None
  }

  predicate OpenTask(k: Kind, status: string) {
    if k == Home then status in {"pending", "confirmed", "scheduled", "postponed"}
    else status in {"pending", "scheduled", "rescheduled"}
  }

  function KindOf(v: Visit): Kind {
    if v.visitType == "home" then Home else Campus
  }

  /** The fold can move the visit: its student exists, its type and its status are known. */
  predicate Movable(t: Tables, vid: Id) {
    && vid in t.visits && t.visits[vid].studentId in t.students
    && t.visits[vid].visitType == TypeName(KindOf(t.visits[vid]))
    && TaskStatus(KindOf(t.visits[vid]), t.visits[vid].status).Some?
  }

  function OrElse(a: string, b: string): string {
    if a != "" then a else b
  }

  function TextOf(notes: Option<string>): string {
    if notes.Some? then notes.value else ""
  }

  /** _home_task_values */
  function HomeTaskOf(v: Visit, s: Student): HomeTask
    requires TaskStatus(Home, v.status).Some?
  {
    var status := TaskStatus(Home, v.status).value;
    HomeTask(v.studentId, v.agentId, status, "中", s.name, OrElse(s.guardianPhone, s.guardian2Phone), s.region,
             s.school, s.program, s.score, v.scheduledDate,
             if status in {"confirmed", "completed"} then v.scheduledDate else None,
             TextOf(v.notes), v.createdAt, v.updatedAt, "")
  }

  /** _campus_task_values */
  function CampusTaskOf(v: Visit, s: Student): CampusTask
    requires TaskStatus(Campus, v.status).Some?
  {
    CampusTask(v.studentId, v.agentId, None, TaskStatus(Campus, v.status).value, "电话外呼", s.name,
               OrElse(s.guardianPhone, s.guardian2Phone), s.region, s.school, s.program, v.scheduledDate,
               TextOf(v.notes), v.createdAt, v.updatedAt, "")
  }

  function OwnerOf(v: Visit, s: Student): Id {
    if s.assignedTo.Some? then s.assignedTo.value else v.agentId
  }

  function WorkStatus(employment: map<Id, string>, owner: Id): Option<string> {
    if owner !in employment then None
    else if employment[owner] == "active" then Some("open")
    else if employment[owner] == "suspended" then Some("blocked_suspension")
    else if employment[owner] == "handover_pending" then Some("blocked_handover")
    else None
  }

  /** The move leaves a task somebody must still work on. */
  predicate StillToDo(t: Tables, vid: Id)
    requires Movable(t, vid)
  {
    var v := t.visits[vid];
    OpenTask(KindOf(v), TaskStatus(KindOf(v), v.status).value)
    && t.students[v.studentId].status !in FROZEN_TERMINAL_STATUSES
  }

  predicate GetsItem(t: Tables, vid: Id)
    requires Movable(t, vid)
  {
    var v := t.visits[vid];
    StillToDo(t, vid) && WorkStatus(t.employment, OwnerOf(v, t.students[v.studentId])).Some?
  }

  function ItemOf(t: Tables, vid: Id, taskId: Id, now: Time): WorkItem
    requires Movable(t, vid) && GetsItem(t, vid)
  {
    var v := t.visits[vid];
    var owner := OwnerOf(v, t.students[v.studentId]);
    var kind := KindName(KindOf(v));
    WorkItem(v.studentId, kind, WorkStatus(t.employment, owner).value, Some(owner), Some(v.agentId),
             if v.scheduledDate.Some? && v.scheduledDate.value < now then "high" else "medium",
             v.scheduledDate, kind, taskId, 1, now, now, "")
  }

  function MoveLog(t: Tables, vid: Id, taskId: Id, now: Time): Log
    requires Movable(t, vid)
  {
    var v := t.visits[vid];
    Log(OPERATOR, Some(v.studentId), TextOf(t.students[v.studentId].caseNo), ACTION,
        FoldedInto(vid, KindOf(v), taskId), Moved(KindOf(v), taskId, vid, v), BATCH, now)
  }

  /** A visit gets a work item exactly when it was neither completed nor cancelled, its student is not
      terminal, and the owner (the assignee, else the visit's agent) is employed and not offboarded. */
  lemma ItemExactlyForUnfinishedVisits(t: Tables, vid: Id)
    requires Movable(t, vid)
    ensures var v := t.visits[vid]; var s := t.students[v.studentId];
      GetsItem(t, vid) <==>
        v.status in {"pending", "confirmed"} && CanonicalStatus(s.status) !in {Enrolled, Invalid}
        && OwnerOf(v, s) in t.employment && t.employment[OwnerOf(v, s)] in {"active", "suspended", "handover_pending"}
    ensures StillToDo(t, vid) <==>
      t.visits[vid].status in {"pending", "confirmed"}
      && CanonicalStatus(t.students[t.visits[vid].studentId].status) !in {Enrolled, Invalid}
  {
    FrozenListIsThePolicy(t.students[t.visits[vid].studentId].status);
  }

  // ---------------------------------------------------------------- the whole fold

  /** Which rows each moved visit became. */
  datatype Trace = Trace(task: map<Id, Id>, item: map<Id, Id>, log: map<Id, Id>)

  ghost function TasksOf(t: Tables, tr: Trace, k: Kind): set<Id> {
    set vid | vid in tr.task && vid in t.visits && KindOf(t.visits[vid]) == k :: tr.task[vid]
  }

  ghost predicate Extends<T>(before: map<Id, T>, added: set<Id>, after: map<Id, T>) {
    && added !! before.Keys && after.Keys == before.Keys + added
    && forall id :: id in before ==> after[id] == before[id]
  }

  ghost predicate MovedOnce(t: Tables, u: Tables, tr: Trace, vid: Id, now: Time)
    requires vid in tr.task && vid in tr.log
  {
    && Movable(t, vid)
    && tr.log[vid] in u.logs && u.logs[tr.log[vid]] == MoveLog(t, vid, tr.task[vid], now)
    && (KindOf(t.visits[vid]) == Home ==>
          tr.task[vid] in u.home && u.home[tr.task[vid]]
            == HomeTaskOf(t.visits[vid], t.students[t.visits[vid].studentId]))
    && (KindOf(t.visits[vid]) == Campus ==>
          tr.task[vid] in u.campus && u.campus[tr.task[vid]]
            == CampusTaskOf(t.visits[vid], t.students[t.visits[vid].studentId]))
    && (vid in tr.item <==> GetsItem(t, vid))
    && (vid in tr.item ==> tr.item[vid] in u.items && u.items[tr.item[vid]] == ItemOf(t, vid, tr.task[vid], now))
  }

  /** The visits of the trace were moved: one task and one log each, an item where one is due, and
      nothing else changed. */
  ghost predicate Folded(t: Tables, u: Tables, tr: Trace, now: Time) {
    && u.students == t.students && u.enrollments == t.enrollments && u.employment == t.employment
      && u.visits == t.visits
    && tr.log.Keys == tr.task.Keys && tr.item.Keys <= tr.task.Keys
    && Extends(t.home, TasksOf(t, tr, Home), u.home) && Extends(t.campus, TasksOf(t, tr, Campus), u.campus)
    && Extends(t.items, tr.item.Values, u.items) && Extends(t.logs, tr.log.Values, u.logs)
    && forall vid :: vid in tr.task ==> MovedOnce(t, u, tr, vid, now)
  }

  // ---------------------------------------------------------------- what the fold writes

  lemma MovedRows(t: Tables, u: Tables, tr: Trace, now: Time, vid: Id)
    requires Folded(t, u, tr, now) && vid in tr.task && vid in t.visits
    ensures vid in tr.log && MovedOnce(t, u, tr, vid, now) && tr.log[vid] !in t.logs
    ensures KindOf(t.visits[vid]) == Home ==> tr.task[vid] !in t.home
    ensures KindOf(t.visits[vid]) == Campus ==> tr.task[vid] !in t.campus
    ensures vid in tr.item ==> tr.item[vid] !in t.items
  {
    hide MovedOnce, KindOf;
    assert tr.task[vid] in TasksOf(t, tr, KindOf(t.visits[vid]));
    assert tr.log[vid] in tr.log.Values;
    assert vid in tr.item ==> tr.item[vid] in tr.item.Values;
  }

  /** A home task as the columns of its visit and its student give it. */
  predicate HomeTaskFrom(task: HomeTask, v: Visit, s: Student) {
    && v.status in {"pending", "confirmed", "completed", "cancelled"}
    && task == HomeTask(
         v.studentId, v.agentId, v.status, "中", s.name,
         if s.guardianPhone == "" then s.guardian2Phone else s.guardianPhone, s.region, s.school, s.program, s.score,
         v.scheduledDate, if v.status in {"confirmed", "completed"} then v.scheduledDate else None,
         if v.notes.None? then "" else v.notes.value, v.createdAt, v.updatedAt, "")
  }

  predicate CampusTaskFrom(task: CampusTask, v: Visit, s: Student) {
    && (v.status, task.status) in
         {("pending", "pending"), ("confirmed", "scheduled"), ("completed", "arrived"), ("cancelled", "cancelled")}
    && task == CampusTask(
         v.studentId, v.agentId, None, task.status, "电话外呼", s.name,
         if s.guardianPhone == "" then s.guardian2Phone else s.guardianPhone, s.region, s.school, s.program,
         v.scheduledDate, if v.notes.None? then "" else v.notes.value, v.createdAt, v.updatedAt, "")
  }

  /** A work item as they give it, with the state of its owner's employment. */
  predicate ItemFrom(item: WorkItem, v: Visit, s: Student, employment: map<Id, string>, taskId: Id, now: Time) {
    var owner := if s.assignedTo.Some? then s.assignedTo.value else v.agentId;
    var kind := if v.visitType == "home" then "home_visit" else "campus_visit";
    && owner in employment
    && (employment[owner], item.status) in
         {("active", "open"), ("suspended", "blocked_suspension"), ("handover_pending", "blocked_handover")}
    && item == WorkItem(
         v.studentId, kind, item.status, Some(owner), Some(v.agentId),
         if v.scheduledDate.Some? && v.scheduledDate.value < now then "high" else "medium",
         v.scheduledDate, kind, taskId, 1, now, now, "")
  }

  /** A home visit becomes a home task in the same status. What was known of the student and the visit is copied; the
      date was only asked for unless the visit was confirmed or took place. */
  lemma MovedHomeVisit(t: Tables, u: Tables, tr: Trace, now: Time, vid: Id)
    requires Folded(t, u, tr, now) && vid in tr.task && vid in t.visits && t.visits[vid].visitType == "home"
    ensures var v := t.visits[vid];
      v.studentId in t.students && tr.task[vid] in u.home && tr.task[vid] !in t.home
      && HomeTaskFrom(u.home[tr.task[vid]], v, t.students[v.studentId])
  {
    MovedRows(t, u, tr, now, vid);
    HomeColumns(t.visits[vid], t.students[t.visits[vid].studentId]);
    hide Folded, MoveLog, ItemOf, HomeTaskOf, CampusTaskOf, HomeTaskFrom;
  }

  lemma HomeColumns(v: Visit, s: Student)
    ensures TaskStatus(Home, v.status).Some? ==> HomeTaskFrom(HomeTaskOf(v, s), v, s)
  {
  }

  /** A campus visit becomes a campus task: what was confirmed is scheduled, and a family whose visit was completed
      has arrived. */
  lemma MovedCampusVisit(t: Tables, u: Tables, tr: Trace, now: Time, vid: Id)
    requires Folded(t, u, tr, now) && vid in tr.task && vid in t.visits && t.visits[vid].visitType != "home"
    ensures var v := t.visits[vid];
      v.visitType == "campus" && v.studentId in t.students && tr.task[vid] in u.campus && tr.task[vid] !in t.campus
      && CampusTaskFrom(u.campus[tr.task[vid]], v, t.students[v.studentId])
  {
    MovedRows(t, u, tr, now, vid);
    CampusColumns(t.visits[vid], t.students[t.visits[vid].studentId]);
    hide Folded, MoveLog, ItemOf, HomeTaskOf, CampusTaskOf, CampusTaskFrom;
  }

  lemma CampusColumns(v: Visit, s: Student)
    ensures TaskStatus(Campus, v.status).Some? ==> CampusTaskFrom(CampusTaskOf(v, s), v, s)
  {
  }

  /** The work item of a visit still to be done. */
  lemma MovedVisitItem(t: Tables, u: Tables, tr: Trace, now: Time, vid: Id)
    requires Folded(t, u, tr, now) && vid in tr.task && vid in t.visits && vid in tr.item
    ensures var v := t.visits[vid];
      v.studentId in t.students && tr.item[vid] in u.items && tr.item[vid] !in t.items
      && ItemFrom(u.items[tr.item[vid]], v, t.students[v.studentId], t.employment, tr.task[vid], now)
  {
    MovedRows(t, u, tr, now, vid);
    ItemColumns(t, vid, tr.task[vid], now);
    hide Folded, MoveLog, ItemOf, HomeTaskOf, CampusTaskOf, ItemFrom, GetsItem;
  }

  lemma ItemColumns(t: Tables, vid: Id, taskId: Id, now: Time)
    requires Movable(t, vid) && GetsItem(t, vid)
    ensures ItemFrom(ItemOf(t, vid, taskId, now), t.visits[vid], t.students[t.visits[vid].studentId], t.employment,
                     taskId, now)
  {
    hide OpenTask, TaskStatus;
  }

  /** The log entry that brings the visit back. */
  lemma MovedVisitLog(t: Tables, u: Tables, tr: Trace, now: Time, vid: Id)
    requires Folded(t, u, tr, now) && vid in tr.task && vid in t.visits
    ensures var v := t.visits[vid]; var k := if v.visitType == "home" then Home else Campus;
      v.studentId in t.students && vid in tr.log && tr.log[vid] in u.logs && tr.log[vid] !in t.logs
      && u.logs[tr.log[vid]] == Log(
           "系统迁移", Some(v.studentId),
           if t.students[v.studentId].caseNo.None? then "" else t.students[v.studentId].caseNo.value, "合并旧到访",
           FoldedInto(vid, k, tr.task[vid]), Moved(k, tr.task[vid], vid, v), "alembic-20261016_01", now)
  {
    MovedRows(t, u, tr, now, vid);
    hide Folded, HomeTaskOf, CampusTaskOf, ItemOf;
  }

  // ---------------------------------------------------------------- restore

  predicate Mine(l: Log) {
    l.action == ACTION && l.batchId == BATCH
  }

  function MyLogs(logs: map<Id, Log>): set<Id> {
    set l | l in logs && Mine(logs[l])
  }

  ghost predicate AllMoves(logs: map<Id, Log>, ids: set<Id>) {
    forall l :: l in ids ==> l in logs && logs[l].note.Moved?
  }

  /** The tasks a set of log entries names. */
  ghost function Named(logs: map<Id, Log>, ids: set<Id>, k: Kind): set<Id>
    requires AllMoves(logs, ids)
  {
    set l | l in ids && logs[l].note.kind == k :: logs[l].note.taskId
  }

  function Unlink(link: Option<Id>, gone: set<Id>): Option<Id> {
    if link.Some? && link.value in gone then None else link
  }

  predicate SourceGone(w: WorkItem, k: Kind, gone: set<Id>) {
    w.kind == KindName(k) && w.sourceType == KindName(k) && w.sourceId in gone
  }

  /** The tasks of the two sets and their work items are gone, and every link to them is null. */
  ghost predicate TasksUndone(u: Tables, home: set<Id>, campus: set<Id>, v: Tables) {
    && v.students == u.students && v.employment == u.employment
    && v.home == (map id | id in u.home && id !in home :: u.home[id])
    && v.campus == (map id | id in u.campus && id !in campus ::
                      u.campus[id].(homeVisitTaskId := Unlink(u.campus[id].homeVisitTaskId, home)))
    && v.enrollments == (map id | id in u.enrollments ::
                           u.enrollments[id].(homeVisitTaskId := Unlink(u.enrollments[id].homeVisitTaskId, home),
                                              campusVisitTaskId := Unlink(u.enrollments[id].campusVisitTaskId, campus)))
    && v.items == (map id | id in u.items && !SourceGone(u.items[id], Home, home)
                   && !SourceGone(u.items[id], Campus, campus)
                     :: u.items[id])
  }

  /** The visits the entries remember are back. */
  ghost predicate VisitsBack(u: Tables, ids: set<Id>, visits: map<Id, Visit>)
    requires AllMoves(u.logs, ids)
  {
    && visits.Keys == u.visits.Keys + (set l | l in ids :: u.logs[l].note.visitId)
    && (forall l :: l in ids ==> visits[u.logs[l].note.visitId] == u.logs[l].note.visit)
    && (forall id :: id in u.visits ==> visits[id] == u.visits[id])
  }

  ghost predicate RestoredBy(u: Tables, ids: set<Id>, v: Tables)
    requires AllMoves(u.logs, ids)
  {
    VisitsBack(u, ids, v.visits) && TasksUndone(u, Named(u.logs, ids, Home), Named(u.logs, ids, Campus), v)
  }

  ghost predicate Restored(u: Tables, v: Tables) {
    && AllMoves(u.logs, MyLogs(u.logs)) && RestoredBy(u, MyLogs(u.logs), v)
    && v.logs == (map l | l in u.logs && !Mine(u.logs[l]) :: u.logs[l])
  }

  /** Restore deletes the log entries with both the action and the batch of the fold, and no others. */
  lemma OnlyItsEntriesLeave(u: Tables, v: Tables, l: Id)
    requires Restored(u, v)
    ensures l in v.logs <==>
      l in u.logs && (u.logs[l].action != "合并旧到访" || u.logs[l].batchId != "alembic-20261016_01")
    ensures l in v.logs ==> v.logs[l] == u.logs[l]
  {
    hide RestoredBy, AllMoves;
  }

  // ---------------------------------------------------------------- restore undoes fold

  ghost predicate NoEarlierLog(t: Tables) {
    forall l :: l in t.logs ==> !Mine(t.logs[l])
  }

  /** No row that was there before the fold names one of the tasks it creates. */
  ghost predicate TasksUnnamed(t: Tables, home: set<Id>, campus: set<Id>) {
    && (forall id :: id in t.items ==> !SourceGone(t.items[id], Home, home) && !SourceGone(t.items[id], Campus, campus))
    && (forall id :: id in t.enrollments ==>
          Unlink(t.enrollments[id].homeVisitTaskId, home) == t.enrollments[id].homeVisitTaskId
          && Unlink(t.enrollments[id].campusVisitTaskId, campus) == t.enrollments[id].campusVisitTaskId)
    && (forall id :: id in t.campus ==> Unlink(t.campus[id].homeVisitTaskId, home) == t.campus[id].homeVisitTaskId)
  }

  /** The entries of the batch are the trace's, so they name exactly the tasks it created. */
  lemma EntriesAreTheTrace(t: Tables, u: Tables, tr: Trace, now: Time)
    requires Folded(t, u, tr, now) && NoEarlierLog(t)
    ensures MyLogs(u.logs) == tr.log.Values && AllMoves(u.logs, MyLogs(u.logs))
    ensures Named(u.logs, MyLogs(u.logs), Home) == TasksOf(t, tr, Home)
    ensures Named(u.logs, MyLogs(u.logs), Campus) == TasksOf(t, tr, Campus)
    ensures (set l | l in MyLogs(u.logs) :: u.logs[l].note.visitId) == tr.task.Keys
  {
    TraceIsMine(t, u, tr, now);
    hide Folded, MyLogs, Named, TasksOf, AllMoves;
    EntriesNameTasks(t, u, tr, now, MyLogs(u.logs));
  }

  lemma TraceIsMine(t: Tables, u: Tables, tr: Trace, now: Time)
    requires Folded(t, u, tr, now) && NoEarlierLog(t)
    ensures MyLogs(u.logs) == tr.log.Values
  {
    hide MovedOnce, TasksOf;
    forall l | l in u.logs ensures Mine(u.logs[l]) <==> l in tr.log.Values {
      if l in tr.log.Values {
        var vid :| vid in tr.log && tr.log[vid] == l;
        assert MovedOnce(t, u, tr, vid, now);
        EntryIsMine(t, u, tr, vid, now);
      }
    }
    hide Folded;
  }

  lemma EntryIsMine(t: Tables, u: Tables, tr: Trace, vid: Id, now: Time)
    requires vid in tr.task && vid in tr.log && MovedOnce(t, u, tr, vid, now)
    ensures tr.log[vid] in u.logs && Mine(u.logs[tr.log[vid]])
  {
    hide HomeTaskOf, CampusTaskOf, ItemOf, GetsItem, TaskStatus;
  }

  lemma EntryAt(t: Tables, u: Tables, tr: Trace, now: Time, l: Id) returns (vid: Id)
    requires Folded(t, u, tr, now) && l in tr.log.Values
    ensures vid in tr.task && vid in t.visits && tr.log[vid] == l && l in u.logs
    ensures u.logs[l].note == Moved(KindOf(t.visits[vid]), tr.task[vid], vid, t.visits[vid])
  {
    hide HomeTaskOf, CampusTaskOf, ItemOf, GetsItem;
    vid :| vid in tr.log && tr.log[vid] == l;
    assert MovedOnce(t, u, tr, vid, now);
  }

  lemma EntriesNameTasks(t: Tables, u: Tables, tr: Trace, now: Time, mine: set<Id>)
    requires Folded(t, u, tr, now) && mine == tr.log.Values
    ensures AllMoves(u.logs, mine)
    ensures forall k: Kind :: Named(u.logs, mine, k) == TasksOf(t, tr, k)
    ensures (set l | l in mine :: u.logs[l].note.visitId) == tr.task.Keys
  {
    hide Folded;
    forall l | l in mine ensures l in u.logs && u.logs[l].note.Moved? {
      var vid := EntryAt(t, u, tr, now, l);
    }
    forall k: Kind ensures Named(u.logs, mine, k) == TasksOf(t, tr, k) {
      forall id | id in Named(u.logs, mine, k) ensures id in TasksOf(t, tr, k) {
        var l :| l in mine && u.logs[l].note.kind == k && u.logs[l].note.taskId == id;
        var vid := EntryAt(t, u, tr, now, l);
      }
      forall id | id in TasksOf(t, tr, k) ensures id in Named(u.logs, mine, k) {
        var vid :| vid in tr.task && vid in t.visits && KindOf(t.visits[vid]) == k && tr.task[vid] == id;
        EntryOf(t, u, tr, vid, now);
      }
    }
    hide Named, TasksOf;
    EntriesNameVisits(t, u, tr, now, mine);
  }

  lemma EntriesNameVisits(t: Tables, u: Tables, tr: Trace, now: Time, mine: set<Id>)
    requires Folded(t, u, tr, now) && mine == tr.log.Values && AllMoves(u.logs, mine)
    ensures (set l | l in mine :: u.logs[l].note.visitId) == tr.task.Keys
  {
    hide MovedOnce, Extends, TasksOf;
    assert forall vid :: vid in tr.task ==> MovedOnce(t, u, tr, vid, now);
    hide Folded;
    var visits := set l | l in mine :: u.logs[l].note.visitId;
    forall vid | vid in tr.task ensures vid in visits {
      TracedVisit(t, u, tr, vid, now);
      EntryOf(t, u, tr, vid, now);
    }
    forall vid | vid in visits ensures vid in tr.task {
      var l :| l in mine && u.logs[l].note.visitId == vid;
      var w := EntryAt(t, u, tr, now, l);
    }
  }

  lemma TracedVisit(t: Tables, u: Tables, tr: Trace, vid: Id, now: Time)
    requires vid in tr.task && vid in tr.log && MovedOnce(t, u, tr, vid, now)
    ensures vid in t.visits
  {
    hide HomeTaskOf, CampusTaskOf, ItemOf, GetsItem, TaskStatus;
  }

  lemma EntryOf(t: Tables, u: Tables, tr: Trace, vid: Id, now: Time)
    requires Folded(t, u, tr, now) && vid in tr.task && vid in t.visits
    ensures tr.log[vid] in tr.log.Values && tr.log[vid] in u.logs
    ensures u.logs[tr.log[vid]].note == Moved(KindOf(t.visits[vid]), tr.task[vid], vid, t.visits[vid])
  {
    assert MovedOnce(t, u, tr, vid, now);
  }

  lemma VisitsRestored(t: Tables, u: Tables, tr: Trace, mine: set<Id>, visits: map<Id, Visit>, now: Time)
    requires Folded(t, u, tr, now) && tr.task.Keys == t.visits.Keys
    requires mine == tr.log.Values && AllMoves(u.logs, mine)
    requires VisitsBack(u.(visits := map[]), mine, visits)
    requires (set l | l in mine :: u.logs[l].note.visitId) == tr.task.Keys
    ensures visits == t.visits
  {
    hide Folded;
    forall vid | vid in t.visits ensures vid in visits && visits[vid] == t.visits[vid] {
      VisitRestored(t, u, tr, mine, visits, vid, now);
    }
    hide VisitsBack;
    assert visits.Keys == t.visits.Keys;
  }

  lemma VisitRestored(t: Tables, u: Tables, tr: Trace, mine: set<Id>, visits: map<Id, Visit>, vid: Id, now: Time)
    requires Folded(t, u, tr, now) && vid in tr.task && vid in t.visits
    requires mine == tr.log.Values && AllMoves(u.logs, mine)
    requires VisitsBack(u.(visits := map[]), mine, visits)
    ensures vid in visits && visits[vid] == t.visits[vid]
  {
    EntryOf(t, u, tr, vid, now);
    hide Folded;
    var l := tr.log[vid];
    assert l in mine && u.logs[l].note.visitId == vid;
    assert visits[u.logs[l].note.visitId] == u.logs[l].note.visit;
  }

  lemma HomeRestored(t: Tables, u: Tables, home: set<Id>, campus: set<Id>, v: Tables)
    requires Extends(t.home, home, u.home) && TasksUndone(u, home, campus, v)
    ensures v.home == t.home
  {
  }

  lemma CampusRestored(t: Tables, u: Tables, home: set<Id>, campus: set<Id>, v: Tables)
    requires Extends(t.campus, campus, u.campus) && TasksUndone(u, home, campus, v)
    ensures v.campus == t.campus <==>
      forall id :: id in t.campus ==> Unlink(t.campus[id].homeVisitTaskId, home) == t.campus[id].homeVisitTaskId
  {
    assert v.campus.Keys == t.campus.Keys;
    forall id | id in t.campus
      ensures v.campus[id] == t.campus[id] <==>
        Unlink(t.campus[id].homeVisitTaskId, home) == t.campus[id].homeVisitTaskId
    {
      assert v.campus[id].homeVisitTaskId == Unlink(t.campus[id].homeVisitTaskId, home);
    }
  }

  lemma EnrollmentsRestored(t: Tables, u: Tables, home: set<Id>, campus: set<Id>, v: Tables)
    requires u.enrollments == t.enrollments && TasksUndone(u, home, campus, v)
    ensures v.enrollments == t.enrollments <==> forall id :: id in t.enrollments ==>
      Unlink(t.enrollments[id].homeVisitTaskId, home) == t.enrollments[id].homeVisitTaskId
      && Unlink(t.enrollments[id].campusVisitTaskId, campus) == t.enrollments[id].campusVisitTaskId
  {
    assert v.enrollments.Keys == t.enrollments.Keys;
    forall id | id in t.enrollments
      ensures v.enrollments[id] == t.enrollments[id] <==>
        Unlink(t.enrollments[id].homeVisitTaskId, home) == t.enrollments[id].homeVisitTaskId
        && Unlink(t.enrollments[id].campusVisitTaskId, campus) == t.enrollments[id].campusVisitTaskId
    {
      assert v.enrollments[id].homeVisitTaskId == Unlink(t.enrollments[id].homeVisitTaskId, home);
      assert v.enrollments[id].campusVisitTaskId == Unlink(t.enrollments[id].campusVisitTaskId, campus);
    }
  }

  lemma LogsRestored(t: Tables, u: Tables, tr: Trace, logs: map<Id, Log>)
    requires Extends(t.logs, tr.log.Values, u.logs) && MyLogs(u.logs) == tr.log.Values
    requires logs == (map l | l in u.logs && !Mine(u.logs[l]) :: u.logs[l])
    ensures logs == t.logs
  {
    assert forall l :: l in u.logs ==> (Mine(u.logs[l]) <==> l in tr.log.Values) by {
      assert forall l :: l in u.logs ==> (l in MyLogs(u.logs) <==> Mine(u.logs[l]));
    }
  }

  /** The downgrade after the upgrade (which drops the old table in between) gives back every table
      exactly when no earlier log of this batch was there and no older row already named one of the
      task ids the fold was given. */
  lemma RestoreUndoesFold(t: Tables, u: Tables, tr: Trace, v: Tables, now: Time)
    requires Folded(t, u, tr, now) && tr.task.Keys == t.visits.Keys
    requires Restored(u.(visits := map[]), v)
    ensures v == t <==> NoEarlierLog(t) && TasksUnnamed(t, TasksOf(t, tr, Home), TasksOf(t, tr, Campus))
  {
    var dropped := u.(visits := map[]);
    hide TasksUndone, VisitsBack, MovedOnce;
    if !NoEarlierLog(t) {
      var l :| l in t.logs && Mine(t.logs[l]);
      assert u.logs[l] == t.logs[l] && l !in v.logs;
    } else {
      EntriesAreTheTrace(t, u, tr, now);
      RowsRestored(t, dropped, u, tr, v, now);
    }
  }

  lemma RowsRestored(t: Tables, dropped: Tables, u: Tables, tr: Trace, v: Tables, now: Time)
    requires Folded(t, u, tr, now) && tr.task.Keys == t.visits.Keys && dropped == u.(visits := map[])
    requires MyLogs(u.logs) == tr.log.Values && AllMoves(u.logs, tr.log.Values)
    requires (set l | l in tr.log.Values :: u.logs[l].note.visitId) == tr.task.Keys
    requires VisitsBack(dropped, tr.log.Values, v.visits)
    requires TasksUndone(dropped, TasksOf(t, tr, Home), TasksOf(t, tr, Campus), v)
    requires v.logs == (map l | l in u.logs && !Mine(u.logs[l]) :: u.logs[l])
    ensures v == t <==> TasksUnnamed(t, TasksOf(t, tr, Home), TasksOf(t, tr, Campus))
  {
    hide VisitsBack, MovedOnce, Mine, TasksUndone, SourceGone, TasksOf, Unlink;
    var home, campus := TasksOf(t, tr, Home), TasksOf(t, tr, Campus);
    VisitsRestored(t, u, tr, tr.log.Values, v.visits, now);
    HomeRestored(t, dropped, home, campus, v);
    CampusRestored(t, dropped, home, campus, v);
    EnrollmentsRestored(t, dropped, home, campus, v);
    FixedRestored(dropped, home, campus, v);
    ItemsRestored(t, u, tr, now, v.items);
    LogsRestored(t, u, tr, v.logs);
    assert v == t <==> v.campus == t.campus && v.enrollments == t.enrollments && v.items == t.items;
  }

  lemma FixedRestored(u: Tables, home: set<Id>, campus: set<Id>, v: Tables)
    requires TasksUndone(u, home, campus, v)
    ensures v.students == u.students && v.employment == u.employment
    ensures v.items == map id | id in u.items && !SourceGone(u.items[id], Home, home)
      && !SourceGone(u.items[id], Campus, campus)
               :: u.items[id]
  {
  }

  /** A work item the fold added names the task of its visit. */
  lemma NewItem(t: Tables, u: Tables, tr: Trace, now: Time, id: Id) returns (vid: Id)
    requires Folded(t, u, tr, now) && id in u.items && id !in t.items
    ensures vid in tr.task && vid in t.visits && tr.task[vid] in TaskIds(u, KindOf(t.visits[vid]))
    ensures u.items[id].kind == KindName(KindOf(t.visits[vid])) && u.items[id].sourceType == u.items[id].kind
    ensures u.items[id].sourceId == tr.task[vid]
  {
    hide HomeTaskOf, CampusTaskOf, MoveLog;
    vid :| vid in tr.item && tr.item[vid] == id;
    assert MovedOnce(t, u, tr, vid, now);
  }

  lemma ItemsRestored(t: Tables, u: Tables, tr: Trace, now: Time, items: map<Id, WorkItem>)
    requires Folded(t, u, tr, now)
    requires var home, campus := TasksOf(t, tr, Home), TasksOf(t, tr, Campus);
      items == map id | id in u.items && !SourceGone(u.items[id], Home, home)
        && !SourceGone(u.items[id], Campus, campus)
               :: u.items[id]
    ensures var home, campus := TasksOf(t, tr, Home), TasksOf(t, tr, Campus);
      items == t.items <==>
        forall id :: id in t.items ==> !SourceGone(t.items[id], Home, home) && !SourceGone(t.items[id], Campus, campus)
  {
    var home, campus := TasksOf(t, tr, Home), TasksOf(t, tr, Campus);
    forall id | id in u.items && id !in t.items
      ensures SourceGone(u.items[id], Home, home) || SourceGone(u.items[id], Campus, campus)
    {
      var vid := NewItem(t, u, tr, now, id);
      assert tr.task[vid] in TasksOf(t, tr, KindOf(t.visits[vid]));
    }
    assert Extends(t.items, tr.item.Values, u.items);
    hide Folded, TasksOf, SourceGone;
    if items == t.items {
      forall id | id in t.items
        ensures !SourceGone(t.items[id], Home, home) && !SourceGone(t.items[id], Campus, campus) {
        assert id in items;
      }
    }
  }

  const OLD_VISIT := Visit(1, 1, "home", None, "completed", None, 0, 0)

  /** A student with a legacy visit to his home, one task of each kind, and a work item of a home visit that was
      deleted: it names the task id given out next. */
  function Dangling(): Tables {
    Tables(map[1 := Student("", "", "", "", "", "", None, None, None, "contacted")], map[1 := OLD_VISIT],
           map[1 := HomeTask(1, 1, "completed", "", "", "", "", "", "", None, None, None, "", 0, 0, "")],
           map[1 := CampusTask(1, 1, Some(1), "arrived", "", "", "", "", "", "", None, "", 0, 0, "")],
           map[1 := WorkItem(1, "home_visit", "completed", None, None, "medium", None, "home_visit", 2, 1, 0, 0, "")],
           map[1 := Enrollment(Some(1), Some(1), "")], map[1 := "active"],
           map[1 := Log("", None, "", "", Prose(""), Text(""), "", 0)])
  }

  /** The rows the fold gives the visit. */
  const DANGLING_TRACE := Trace(map[1 := 2], map[], map[1 := 2])

  /** An older work item that already names the task id the fold is given, one past the largest, is deleted with
      the task. */
  lemma DanglingItemIsLost(now: Time) returns (u: Tables, v: Tables)
    ensures var t := Dangling();
      && (forall id :: id in t.home ==> id < 2) && NoEarlierLog(t)
      && Folded(t, u, DANGLING_TRACE, now) && Restored(u.(visits := map[]), v)
      && 1 in t.items && 1 !in v.items && v != t
  {
    hide Dangling, Movable, GetsItem, MoveVisit, Folded, Restored, NoEarlierLog;
    var t := Dangling();
    DanglingMovable();
    u := MoveVisit(t, t, 1, 2, 2, 2, now);
    DanglingFolded(t, u, now);
    v := DanglingRestored(t, u, now);
  }

  lemma DanglingMovable()
    ensures Movable(Dangling(), 1) && !GetsItem(Dangling(), 1) && forall id :: id in Dangling().home ==> id < 2
  {
  }

  lemma DanglingFolded(t: Tables, u: Tables, now: Time)
    requires t == Dangling() && Movable(t, 1) && !GetsItem(t, 1) && u == MoveVisit(t, t, 1, 2, 2, 2, now)
    ensures Folded(t, u, DANGLING_TRACE, now) && NoEarlierLog(t)
  {
    assert TasksOf(t, DANGLING_TRACE, Home) == {2} && TasksOf(t, DANGLING_TRACE, Campus) == {};
    assert MovedOnce(t, u, DANGLING_TRACE, 1, now);
    assert DANGLING_TRACE.log.Values == {2} by { assert DANGLING_TRACE.log[1] == 2; }
    assert DANGLING_TRACE.item.Values == {};
  }

  lemma DanglingRestored(t: Tables, u: Tables, now: Time) returns (v: Tables)
    requires t == Dangling() && Movable(t, 1) && !GetsItem(t, 1) && u == MoveVisit(t, t, 1, 2, 2, 2, now)
    ensures Restored(u.(visits := map[]), v) && 1 in t.items && 1 !in v.items
  {
    hide Undone, TasksUndone, MoveVisit, Movable, GetsItem, Dangling, MyLogs, AllMoves, Named;
    DanglingEntries(t, u, now);
    var dropped := u.(visits := map[]);
    v := Undone(dropped, {2}, {}).(visits := map[1 := OLD_VISIT]);
    UndoneIsUndone(dropped, {2}, {}, v);
    OldVisitBack(dropped, v.visits);
    hide VisitsBack, SourceGone;
    assert RestoredBy(dropped, {2}, v);
  }

  lemma OldVisitBack(u: Tables, visits: map<Id, Visit>)
    requires u.visits == map[] && visits == map[1 := OLD_VISIT] && AllMoves(u.logs, {2})
    requires u.logs[2].note.visitId == 1 && u.logs[2].note.visit == OLD_VISIT
    ensures VisitsBack(u, {2}, visits)
  {
    assert (set l | l in {2} :: u.logs[l].note.visitId) == {1};
  }

  /** The one entry names the new task and the visit, and the older item counts as the task's. */
  lemma DanglingEntries(t: Tables, u: Tables, now: Time)
    requires t == Dangling() && Movable(t, 1) && !GetsItem(t, 1) && u == MoveVisit(t, t, 1, 2, 2, 2, now)
    ensures MyLogs(u.logs) == {2} && AllMoves(u.logs, {2})
    ensures Named(u.logs, {2}, Home) == {2} && Named(u.logs, {2}, Campus) == {}
    ensures u.logs[2].note.visitId == 1 && u.logs[2].note.visit == OLD_VISIT
    ensures 1 in t.items && 1 in u.items && SourceGone(u.items[1], Home, {2})
  {
    assert u.logs[2] == MoveLog(t, 1, 2, now) && u.logs[1] == t.logs[1];
    assert Mine(u.logs[2]) && !Mine(u.logs[1]);
  }

  function Undone(u: Tables, home: set<Id>, campus: set<Id>): Tables {
    u.(home := map id | id in u.home && id !in home :: u.home[id],
       campus := map id | id in u.campus && id !in campus ::
         u.campus[id].(homeVisitTaskId := Unlink(u.campus[id].homeVisitTaskId, home)),
       enrollments := map id | id in u.enrollments ::
         u.enrollments[id].(homeVisitTaskId := Unlink(u.enrollments[id].homeVisitTaskId, home),
                            campusVisitTaskId := Unlink(u.enrollments[id].campusVisitTaskId, campus)),
       items := map id | id in u.items && !SourceGone(u.items[id], Home, home)
         && !SourceGone(u.items[id], Campus, campus) :: u.items[id],
       logs := map l | l in u.logs && !Mine(u.logs[l]) :: u.logs[l])
  }

  lemma UndoneIsUndone(u: Tables, home: set<Id>, campus: set<Id>, v: Tables)
    requires v == Undone(u, home, campus).(visits := v.visits)
    ensures TasksUndone(u, home, campus, v)
    ensures v.logs == (map l | l in u.logs && !Mine(u.logs[l]) :: u.logs[l])
    ensures forall id :: id in v.items <==>
      id in u.items && !SourceGone(u.items[id], Home, home) && !SourceGone(u.items[id], Campus, campus)
  {
  }

  // ---------------------------------------------------------------- one visit more

  /** The inserts for one visit. */
  function MoveVisit(u: Tables, t: Tables, vid: Id, taskId: Id, itemId: Id, logId: Id, now: Time): Tables
    requires Movable(t, vid)
  {
    var v := t.visits[vid];
    var s := t.students[v.studentId];
    u.(home := if KindOf(v) == Home then u.home[taskId := HomeTaskOf(v, s)] else u.home,
       campus := if KindOf(v) == Campus then u.campus[taskId := CampusTaskOf(v, s)] else u.campus,
       items := if GetsItem(t, vid) then u.items[itemId := ItemOf(t, vid, taskId, now)] else u.items,
       logs := u.logs[logId := MoveLog(t, vid, taskId, now)])
  }

  ghost function TraceOneMore(t: Tables, tr: Trace, vid: Id, taskId: Id, itemId: Id, logId: Id): Trace
    requires Movable(t, vid)
  {
    Trace(tr.task[vid := taskId], if GetsItem(t, vid) then tr.item[vid := itemId] else tr.item, tr.log[vid := logId])
  }

  lemma ValuesOneMore(m: map<Id, Id>, k: Id, x: Id)
    requires k !in m
    ensures m[k := x].Values == m.Values + {x}
  {
    assert forall j :: j in m ==> m[k := x][j] == m[j];
    assert m[k := x][k] == x;
  }

  lemma TasksOneMore(t: Tables, tr: Trace, next: Trace, vid: Id, taskId: Id, k: Kind)
    requires vid in t.visits && vid !in tr.task && next.task == tr.task[vid := taskId]
    ensures TasksOf(t, next, k) ==
      if KindOf(t.visits[vid]) == k then TasksOf(t, tr, k) + {taskId} else TasksOf(t, tr, k)
  {
    assert forall w :: w in tr.task ==> next.task[w] == tr.task[w];
    assert next.task[vid] == taskId;
  }

  lemma MovedStays(t: Tables, u: Tables, tr: Trace, w: Tables, next: Trace, vid: Id, now: Time)
    requires vid in tr.task && vid in tr.log && MovedOnce(t, u, tr, vid, now)
    requires vid in next.task && vid in next.log && next.task[vid] == tr.task[vid] && next.log[vid] == tr.log[vid]
    requires (vid in next.item <==> vid in tr.item) && (vid in tr.item ==> next.item[vid] == tr.item[vid])
    requires forall id :: id in u.home ==> id in w.home && w.home[id] == u.home[id]
    requires forall id :: id in u.campus ==> id in w.campus && w.campus[id] == u.campus[id]
    requires forall id :: id in u.items ==> id in w.items && w.items[id] == u.items[id]
    requires forall id :: id in u.logs ==> id in w.logs && w.logs[id] == u.logs[id]
    ensures MovedOnce(t, w, next, vid, now)
  {
  }

  lemma NewVisitMoved(t: Tables, u: Tables, tr: Trace, vid: Id, taskId: Id, itemId: Id, logId: Id, now: Time)
    requires Movable(t, vid) && vid !in tr.item
    ensures MovedOnce(t, MoveVisit(u, t, vid, taskId, itemId, logId, now),
                      TraceOneMore(t, tr, vid, taskId, itemId, logId), vid, now)
  {
    hide HomeTaskOf, CampusTaskOf, ItemOf, MoveLog, GetsItem;
  }

  lemma ExtendsOneMore<T>(before: map<Id, T>, added: set<Id>, after: map<Id, T>, id: Id, row: T)
    requires Extends(before, added, after) && id !in after
    ensures Extends(before, added + {id}, after[id := row])
  {
  }

  lemma TaskTablesOneMore(t: Tables, u: Tables, tr: Trace, vid: Id, taskId: Id, itemId: Id, logId: Id, now: Time)
    requires Extends(t.home, TasksOf(t, tr, Home), u.home) && Extends(t.campus, TasksOf(t, tr, Campus), u.campus)
    requires Movable(t, vid) && vid !in tr.task && taskId !in TaskIds(u, KindOf(t.visits[vid]))
    ensures var w := MoveVisit(u, t, vid, taskId, itemId, logId, now);
      var next := TraceOneMore(t, tr, vid, taskId, itemId, logId);
      Extends(t.home, TasksOf(t, next, Home), w.home) && Extends(t.campus, TasksOf(t, next, Campus), w.campus)
  {
    hide HomeTaskOf, CampusTaskOf, ItemOf, MoveLog, GetsItem, Extends;
    var next := TraceOneMore(t, tr, vid, taskId, itemId, logId);
    TasksOneMore(t, tr, next, vid, taskId, Home);
    TasksOneMore(t, tr, next, vid, taskId, Campus);
    hide TasksOf;
    var s := t.students[t.visits[vid].studentId];
    if KindOf(t.visits[vid]) == Home {
      ExtendsOneMore(t.home, TasksOf(t, tr, Home), u.home, taskId, HomeTaskOf(t.visits[vid], s));
    } else {
      ExtendsOneMore(t.campus, TasksOf(t, tr, Campus), u.campus, taskId, CampusTaskOf(t.visits[vid], s));
    }
  }

  lemma OtherTablesOneMore(t: Tables, u: Tables, tr: Trace, vid: Id, taskId: Id, itemId: Id, logId: Id, now: Time)
    requires Extends(t.items, tr.item.Values, u.items) && Extends(t.logs, tr.log.Values, u.logs)
    requires Movable(t, vid) && vid !in tr.item && vid !in tr.log && itemId !in u.items && logId !in u.logs
    ensures var w := MoveVisit(u, t, vid, taskId, itemId, logId, now);
      var next := TraceOneMore(t, tr, vid, taskId, itemId, logId);
      Extends(t.items, next.item.Values, w.items) && Extends(t.logs, next.log.Values, w.logs)
  {
    hide HomeTaskOf, CampusTaskOf, ItemOf, MoveLog, GetsItem, Extends;
    ValuesOneMore(tr.log, vid, logId);
    ValuesOneMore(tr.item, vid, itemId);
    hide Movable;
    ExtendsOneMore(t.logs, tr.log.Values, u.logs, logId, MoveLog(t, vid, taskId, now));
    if GetsItem(t, vid) {
      ExtendsOneMore(t.items, tr.item.Values, u.items, itemId, ItemOf(t, vid, taskId, now));
    }
  }

  lemma StillThere(u: Tables, t: Tables, vid: Id, taskId: Id, itemId: Id, logId: Id, now: Time)
    requires Movable(t, vid) && taskId !in TaskIds(u, KindOf(t.visits[vid])) && itemId !in u.items && logId !in u.logs
    ensures var w := MoveVisit(u, t, vid, taskId, itemId, logId, now);
      && (forall id :: id in u.home ==> id in w.home && w.home[id] == u.home[id])
      && (forall id :: id in u.campus ==> id in w.campus && w.campus[id] == u.campus[id])
      && (forall id :: id in u.items ==> id in w.items && w.items[id] == u.items[id])
      && (forall id :: id in u.logs ==> id in w.logs && w.logs[id] == u.logs[id])
  {
    hide HomeTaskOf, CampusTaskOf, ItemOf, MoveLog, GetsItem;
  }

  lemma FoldOneMore(t: Tables, u: Tables, tr: Trace, vid: Id, taskId: Id, itemId: Id, logId: Id, now: Time)
    requires Folded(t, u, tr, now) && Movable(t, vid) && vid !in tr.task
    requires taskId !in TaskIds(u, KindOf(t.visits[vid])) && itemId !in u.items && logId !in u.logs
    ensures Folded(t, MoveVisit(u, t, vid, taskId, itemId, logId, now),
                   TraceOneMore(t, tr, vid, taskId, itemId, logId), now)
  {
    hide HomeTaskOf, CampusTaskOf, ItemOf, MoveLog, GetsItem, MovedOnce, Extends, TasksOf;
    var w := MoveVisit(u, t, vid, taskId, itemId, logId, now);
    var next := TraceOneMore(t, tr, vid, taskId, itemId, logId);
    TaskTablesOneMore(t, u, tr, vid, taskId, itemId, logId, now);
    OtherTablesOneMore(t, u, tr, vid, taskId, itemId, logId, now);
    assert forall x :: x in tr.task ==> MovedOnce(t, u, tr, x, now);
    StillThere(u, t, vid, taskId, itemId, logId, now);
    hide MoveVisit, Folded;
    NewVisitMoved(t, u, tr, vid, taskId, itemId, logId, now);
    forall x | x in next.task ensures MovedOnce(t, w, next, x, now) {
      if x != vid {
        assert MovedOnce(t, u, tr, x, now);
        MovedStays(t, u, tr, w, next, x, now);
      }
    }
  }

  // ---------------------------------------------------------------- one entry more

  /** Deletes the tasks of two sets with their work items, and nulls the links to them. */
  function UndoTasks(v: Tables, home: set<Id>, campus: set<Id>): Tables {
    v.(home := map id | id in v.home && id !in home :: v.home[id],
       campus := map id | id in v.campus && id !in campus ::
                   v.campus[id].(homeVisitTaskId := Unlink(v.campus[id].homeVisitTaskId, home)),
       enrollments := map id | id in v.enrollments ::
                   v.enrollments[id].(homeVisitTaskId := Unlink(v.enrollments[id].homeVisitTaskId, home),
                                      campusVisitTaskId := Unlink(v.enrollments[id].campusVisitTaskId, campus)),
       items := map id | id in v.items && !SourceGone(v.items[id], Home, home)
         && !SourceGone(v.items[id], Campus, campus)
                   :: v.items[id])
  }

  lemma UnlinkTwice(link: Option<Id>, a: set<Id>, b: set<Id>)
    ensures Unlink(Unlink(link, a), b) == Unlink(link, a + b)
  {
  }

  lemma UndoMoreLinks(u: Tables, home: set<Id>, campus: set<Id>, v: Tables, h: set<Id>, c: set<Id>)
    requires TasksUndone(u, home, campus, v)
    ensures var w := UndoTasks(v, h, c);
      w.campus == (map id | id in u.campus && id !in campus + c ::
                     u.campus[id].(homeVisitTaskId := Unlink(u.campus[id].homeVisitTaskId, home + h)))
  {
    forall id | id in u.campus
      ensures Unlink(Unlink(u.campus[id].homeVisitTaskId, home), h) == Unlink(u.campus[id].homeVisitTaskId, home + h)
    {
      UnlinkTwice(u.campus[id].homeVisitTaskId, home, h);
    }
    hide Unlink;
  }

  lemma UndoMoreEnrollments(u: Tables, home: set<Id>, campus: set<Id>, v: Tables, h: set<Id>, c: set<Id>)
    requires TasksUndone(u, home, campus, v)
    ensures UndoTasks(v, h, c).enrollments == (map id | id in u.enrollments ::
      u.enrollments[id].(
        homeVisitTaskId := Unlink(u.enrollments[id].homeVisitTaskId, home + h),
        campusVisitTaskId := Unlink(u.enrollments[id].campusVisitTaskId, campus + c)))
  {
    forall id | id in u.enrollments
      ensures Unlink(Unlink(u.enrollments[id].homeVisitTaskId, home), h)
        == Unlink(u.enrollments[id].homeVisitTaskId, home + h)
      ensures Unlink(Unlink(u.enrollments[id].campusVisitTaskId, campus), c)
        == Unlink(u.enrollments[id].campusVisitTaskId, campus + c)
    {
      UnlinkTwice(u.enrollments[id].homeVisitTaskId, home, h);
      UnlinkTwice(u.enrollments[id].campusVisitTaskId, campus, c);
    }
    hide Unlink;
  }

  lemma UndoMoreItems(u: Tables, home: set<Id>, campus: set<Id>, v: Tables, h: set<Id>, c: set<Id>)
    requires TasksUndone(u, home, campus, v)
    ensures UndoTasks(v, h, c).items ==
      (map id | id in u.items && !SourceGone(u.items[id], Home, home + h)
       && !SourceGone(u.items[id], Campus, campus + c) :: u.items[id])
  {
    forall id | id in u.items
      ensures SourceGone(u.items[id], Home, home + h) <==>
        SourceGone(u.items[id], Home, home) || SourceGone(u.items[id], Home, h)
      ensures SourceGone(u.items[id], Campus, campus + c) <==>
        SourceGone(u.items[id], Campus, campus) || SourceGone(u.items[id], Campus, c)
    {
    }
    hide SourceGone;
  }

  lemma UndoMoreTasks(u: Tables, home: set<Id>, campus: set<Id>, v: Tables, h: set<Id>, c: set<Id>)
    requires TasksUndone(u, home, campus, v)
    ensures TasksUndone(u, home + h, campus + c, UndoTasks(v, h, c))
  {
    UndoMoreLinks(u, home, campus, v, h, c);
    UndoMoreEnrollments(u, home, campus, v, h, c);
    UndoMoreItems(u, home, campus, v, h, c);
    hide Unlink, SourceGone;
    assert UndoTasks(v, h, c).home == (map id | id in u.home && id !in home + h :: u.home[id]);
  }

  lemma NamedOneMore(logs: map<Id, Log>, ids: set<Id>, l: Id, k: Kind)
    requires AllMoves(logs, ids + {l})
    ensures Named(logs, ids + {l}, k) ==
      Named(logs, ids, k) + if logs[l].note.kind == k then {logs[l].note.taskId} else {}
  {
    if logs[l].note.kind == k {
      assert l in ids + {l};
    }
  }

  lemma VisitsBackOneMore(u: Tables, ids: set<Id>, visits: map<Id, Visit>, l: Id)
    requires AllMoves(u.logs, ids + {l}) && AllMoves(u.logs, ids) && VisitsBack(u, ids, visits)
    requires u.logs[l].note.visitId !in visits
    ensures VisitsBack(u, ids + {l}, visits[u.logs[l].note.visitId := u.logs[l].note.visit])
  {
    var more := ids + {l};
    assert (set k | k in more :: u.logs[k].note.visitId)
        == (set k | k in ids :: u.logs[k].note.visitId) + {u.logs[l].note.visitId} by {
      assert l in more;
    }
    forall k | k in ids ensures u.logs[k].note.visitId != u.logs[l].note.visitId {
      assert u.logs[k].note.visitId in visits;
    }
  }

  /** The statements restore runs for one entry. */
  function UndoMove(v: Tables, note: Note): Tables
    requires note.Moved?
  {
    UndoTasks(v, if note.kind == Home then {note.taskId} else {}, if note.kind == Campus then {note.taskId} else {})
    .(visits := v.visits[note.visitId := note.visit])
  }

  lemma RestoreOneMore(u: Tables, ids: set<Id>, v: Tables, l: Id)
    requires AllMoves(u.logs, ids) && l in u.logs && u.logs[l].note.Moved? && RestoredBy(u, ids, v)
    requires u.logs[l].note.visitId !in v.visits
    ensures AllMoves(u.logs, ids + {l}) && RestoredBy(u, ids + {l}, UndoMove(v, u.logs[l].note))
  {
    var note := u.logs[l].note;
    assert AllMoves(u.logs, ids + {l});
    VisitsBackOneMore(u, ids, v.visits, l);
    NamedOneMore(u.logs, ids, l, Home);
    NamedOneMore(u.logs, ids, l, Campus);
    var h, c := (if note.kind == Home then {note.taskId} else {}), (if note.kind == Campus then {note.taskId} else {});
    UndoMoreTasks(u, Named(u.logs, ids, Home), Named(u.logs, ids, Campus), v, h, c);
    hide UndoTasks, Named;
    StillUndone(u, Named(u.logs, ids + {l}, Home), Named(u.logs, ids + {l}, Campus), UndoTasks(v, h, c),
                UndoMove(v, note));
  }

  lemma StillUndone(u: Tables, home: set<Id>, campus: set<Id>, v: Tables, w: Tables)
    requires TasksUndone(u, home, campus, v) && w == v.(visits := w.visits)
    ensures TasksUndone(u, home, campus, w)
  {
  }

  /** The remembered visits can be inserted: no two entries, and no row, share an id. */
  ghost predicate Insertable(u: Tables, ids: set<Id>)
    requires AllMoves(u.logs, ids)
  {
    && (forall l :: l in ids ==> u.logs[l].note.visitId !in u.visits)
    && (forall l, k :: l in ids && k in ids && l != k ==> u.logs[l].note.visitId != u.logs[k].note.visitId)
  }

  // ---------------------------------------------------------------- the migration

  datatype Report = Report(homeTasks: int, campusTasks: int, items: int, skipped: int)

  /** The moved visits whose task nobody employed could be given. */
  function Skipped(t: Tables, moved: set<Id>): set<Id> {
    set vid | vid in moved && Movable(t, vid) && StillToDo(t, vid) && !GetsItem(t, vid)
  }

  ghost predicate Counted(t: Tables, u: Tables, moved: set<Id>, report: Report) {
    && |u.home| + |u.campus| == |t.home| + |t.campus| + |moved| && |u.logs| == |t.logs| + |moved|
    && report.skipped == |Skipped(t, moved)|
    && report.homeTasks == |u.home| - |t.home| && report.campusTasks == |u.campus| - |t.campus|
    && report.items == |u.items| - |t.items|
  }

  class Connection {
    var students: map<Id, Student>
    var visits: map<Id, Visit>
    var home: map<Id, HomeTask>
    var campus: map<Id, CampusTask>
    var items: map<Id, WorkItem>
    var enrollments: map<Id, Enrollment>
    var employment: map<Id, string>
    var logs: map<Id, Log>

    function Now(): Tables
      reads this
    {
      Tables(students, visits, home, campus, items, enrollments, employment, logs)
    }

    method Commit(u: Tables)
      modifies this
      ensures Now() == u
    {
      students, visits, home, campus := u.students, u.visits, u.home, u.campus;
      items, enrollments, employment, logs := u.items, u.enrollments, u.employment, u.logs;
    }

    /** fold_legacy_visits: one transaction, rolled back when a visit cannot be moved or a new work item
        would break the unique source of another. */
    method Fold(now: Time) returns (result: Result<Report, string>, ghost tr: Trace)
      modifies this
      ensures result.Ok? ==> Folded(old(Now()), Now(), tr, now) && tr.task.Keys == old(visits).Keys
      ensures result.Ok? ==> Counted(old(Now()), Now(), old(visits).Keys, result.value)
      ensures result.Err? ==> Now() == old(Now())
      ensures result.Ok? ==> AllMovable(old(Now()))
      ensures AllMovable(old(Now())) && SourcesExist(old(Now())) ==> result.Ok?
    {
      var u;
      u, result, tr := FoldAll(Now(), now);
      if result.Ok? {
        Commit(u);
      }
    }

    /** restore_legacy_visits, into whatever visits table there is. */
    method Restore() returns (result: Result<nat, string>)
      modifies this
      ensures result.Ok? <==> AllMoves(old(logs), MyLogs(old(logs))) && Insertable(old(Now()), MyLogs(old(logs)))
      ensures result.Ok? ==> Restored(old(Now()), Now()) && result.value == |MyLogs(old(logs))|
      ensures result.Err? ==> Now() == old(Now())
    {
      var u := Now();
      var v := u;
      var mine := MyLogs(u.logs);
      var rest := mine;
      ghost var done: set<Id> := {};
      hide TasksUndone, Named, UndoTasks, VisitsBack, Insertable;
      NothingRestoredYet(u);
      while rest != {}
        invariant Now() == u && rest <= mine && done == mine - rest
        invariant AllMoves(u.logs, done) && Insertable(u, done) && RestoredBy(u, done, v)
      {
        var l :| l in rest;
        if !u.logs[l].note.Moved? {
          return Err("note is not a moved visit");
        }
        if u.logs[l].note.visitId in v.visits {
          ClashingVisit(u, done, v, l, mine);
          return Err("visit id already used");
        }
        RestoreOneMore(u, done, v, l);
        InsertableOneMore(u, done, v, l);
        v := UndoMove(v, u.logs[l].note);
        rest, done := rest - {l}, done + {l};
      }
      assert done == mine;
      StillRestored(u, mine, v, v.(logs := map l | l in u.logs && !Mine(u.logs[l]) :: u.logs[l]));
      v := v.(logs := map l | l in u.logs && !Mine(u.logs[l]) :: u.logs[l]);
      Commit(v);
      return Ok(|mine|);
    }
  }

  ghost predicate AllMovable(t: Tables) {
    forall vid :: vid in t.visits ==> Movable(t, vid)
  }

  function TaskIds(t: Tables, k: Kind): set<Id> {
    if k == Home then t.home.Keys else t.campus.Keys
  }

  /** Every visit work item names a task that exists. */
  ghost predicate SourcesExist(t: Tables) {
    forall id, k: Kind :: id in t.items && t.items[id].kind == KindName(k) && t.items[id].sourceType == KindName(k)
      ==> t.items[id].sourceId in TaskIds(t, k)
  }

  function CountOne(report: Report, kind: Kind, gets: bool, due: bool): Report {
    Report(report.homeTasks + (if kind == Home then 1 else 0), report.campusTasks + (if kind == Campus then 1 else 0),
           report.items + (if gets then 1 else 0), report.skipped + (if due && !gets then 1 else 0))
  }

  lemma SizesOneMore(t: Tables, u: Tables, vid: Id, taskId: Id, itemId: Id, logId: Id, now: Time)
    requires Movable(t, vid)
    requires taskId !in TaskIds(u, KindOf(t.visits[vid])) && itemId !in u.items && logId !in u.logs
    ensures var w := MoveVisit(u, t, vid, taskId, itemId, logId, now);
      && |w.home| == |u.home| + (if KindOf(t.visits[vid]) == Home then 1 else 0)
      && |w.campus| == |u.campus| + (if KindOf(t.visits[vid]) == Campus then 1 else 0)
      && |w.items| == |u.items| + (if GetsItem(t, vid) then 1 else 0)
      && |w.logs| == |u.logs| + 1
  {
    hide HomeTaskOf, CampusTaskOf, ItemOf, MoveLog, GetsItem, StillToDo;
  }

  lemma SkippedOneMore(t: Tables, moved: set<Id>, vid: Id)
    requires Movable(t, vid) && vid !in moved
    ensures |Skipped(t, moved + {vid})| == |Skipped(t, moved)| + if StillToDo(t, vid) && !GetsItem(t, vid) then 1 else 0
  {
    hide GetsItem, StillToDo;
    assert Skipped(t, moved + {vid})
        == Skipped(t, moved) + if StillToDo(t, vid) && !GetsItem(t, vid) then {vid} else {};
  }

  lemma CountedOneMore(t: Tables, u: Tables, moved: set<Id>, report: Report, vid: Id, taskId: Id, itemId: Id,
                       logId: Id, now: Time)
    requires Counted(t, u, moved, report) && Movable(t, vid) && vid !in moved
    requires taskId !in TaskIds(u, KindOf(t.visits[vid])) && itemId !in u.items && logId !in u.logs
    ensures Counted(t, MoveVisit(u, t, vid, taskId, itemId, logId, now), moved + {vid},
                    CountOne(report, KindOf(t.visits[vid]), GetsItem(t, vid), StillToDo(t, vid)))
  {
    SizesOneMore(t, u, vid, taskId, itemId, logId, now);
    SkippedOneMore(t, moved, vid);
    hide MoveVisit, TaskIds, GetsItem, StillToDo, Movable, Skipped;
  }

  /** One turn of the fold's loop. */
  method MoveOne(t: Tables, u: Tables, report: Report, ghost tr: Trace, vid: Id, now: Time)
    returns (moved: bool, w: Tables, more: Report, ghost next: Trace)
    requires Folded(t, u, tr, now) && Counted(t, u, tr.task.Keys, report) && vid in t.visits && vid !in tr.task
    ensures moved ==> Movable(t, vid) && Folded(t, w, next, now) && Counted(t, w, next.task.Keys, more)
    ensures moved ==> next.task.Keys == tr.task.Keys + {vid}
    ensures Movable(t, vid) && SourcesExist(t) ==> moved
  {
    hide Folded, HomeTaskOf, CampusTaskOf, ItemOf, MoveLog, GetsItem, StillToDo, Movable, Counted, CountOne, SourceGone,
         SourcesExist, MoveVisit;
    moved, w, more, next := false, u, report, tr;
    if !Movable(t, vid) {
      return;
    }
    var kind := KindOf(t.visits[vid]);
    var taskId := FreshId(TaskIds(u, kind));
    var itemId := FreshId(u.items.Keys);
    var logId := FreshId(u.logs.Keys);
    if GetsItem(t, vid) && exists id :: id in u.items && SourceGone(u.items[id], kind, {taskId}) {
      if SourcesExist(t) {
        FreshSource(t, u, tr, now, kind, taskId);
      }
      return;
    }
    FoldOneMore(t, u, tr, vid, taskId, itemId, logId, now);
    CountedOneMore(t, u, tr.task.Keys, report, vid, taskId, itemId, logId, now);
    moved := true;
    next := TraceOneMore(t, tr, vid, taskId, itemId, logId);
    assert next.task.Keys == tr.task.Keys + {vid};
    w := MoveVisit(u, t, vid, taskId, itemId, logId, now);
    more := CountOne(report, kind, GetsItem(t, vid), StillToDo(t, vid));
  }

  method FoldAll(t: Tables, now: Time) returns (u: Tables, result: Result<Report, string>, ghost tr: Trace)
    ensures result.Ok? ==> Folded(t, u, tr, now) && tr.task.Keys == t.visits.Keys
    ensures result.Ok? ==> Counted(t, u, t.visits.Keys, result.value) && AllMovable(t)
    ensures AllMovable(t) && SourcesExist(t) ==> result.Ok?
  {
    hide Folded, Counted, Movable, SourcesExist, Skipped, Extends;
    u := t;
    var report := Report(0, 0, 0, 0);
    tr := Trace(map[], map[], map[]);
    var rest := t.visits.Keys;
    assert tr.task.Keys == {};
    NothingFoldedYet(t, now);
    while rest != {}
      invariant rest <= t.visits.Keys && tr.task.Keys == t.visits.Keys - rest
      invariant Folded(t, u, tr, now) && Counted(t, u, tr.task.Keys, report)
      invariant forall vid :: vid in tr.task ==> Movable(t, vid)
    {
      var vid :| vid in rest;
      var moved, w, more, next := MoveOne(t, u, report, tr, vid, now);
      if !moved {
        return t, Err("visit cannot be moved"), tr;
      }
      assert next.task.Keys == t.visits.Keys - (rest - {vid});
      u, report, tr := w, more, next;
      rest := rest - {vid};
    }
    assert tr.task.Keys == t.visits.Keys;
    return u, Ok(report), tr;
  }

  /** When every visit work item names an existing task, none names a fresh one. */
  lemma FreshSource(t: Tables, u: Tables, tr: Trace, now: Time, k: Kind, taskId: Id)
    requires Folded(t, u, tr, now) && taskId !in TaskIds(u, k) && SourcesExist(t)
    ensures !exists id :: id in u.items && SourceGone(u.items[id], k, {taskId})
  {
    hide MovedOnce;
    assert forall id :: id in TaskIds(t, k) ==> id in TaskIds(u, k);
    assert forall id :: id in t.items ==> u.items[id] == t.items[id];
    hide Folded;
    forall id | id in u.items ensures !SourceGone(u.items[id], k, {taskId}) {
      if id in t.items {
        assert SourceGone(t.items[id], k, {t.items[id].sourceId}) ==> t.items[id].sourceId in TaskIds(t, k);
      } else {
        var vid := NewItem(t, u, tr, now, id);
      }
    }
  }

  lemma NothingFoldedYet(t: Tables, now: Time)
    ensures Folded(t, t, Trace(map[], map[], map[]), now) && Counted(t, t, {}, Report(0, 0, 0, 0))
  {
    hide MovedOnce, Movable, StillToDo, GetsItem;
    var tr := Trace(map[], map[], map[]);
    assert TasksOf(t, tr, Home) == {} && TasksOf(t, tr, Campus) == {};
    assert tr.item.Values == {} && tr.log.Values == {};
  }

  lemma ClashingVisit(u: Tables, done: set<Id>, v: Tables, l: Id, mine: set<Id>)
    requires AllMoves(u.logs, done) && VisitsBack(u, done, v.visits) && l !in done && l in mine && done <= mine
    requires l in u.logs && u.logs[l].note.Moved? && u.logs[l].note.visitId in v.visits
    ensures AllMoves(u.logs, mine) ==> !Insertable(u, mine)
  {
    if u.logs[l].note.visitId !in u.visits {
      var k :| k in done && u.logs[k].note.visitId == u.logs[l].note.visitId;
    }
  }

  lemma InsertableOneMore(u: Tables, done: set<Id>, v: Tables, l: Id)
    requires AllMoves(u.logs, done) && VisitsBack(u, done, v.visits) && Insertable(u, done)
    requires l in u.logs && u.logs[l].note.Moved? && u.logs[l].note.visitId !in v.visits
    ensures AllMoves(u.logs, done + {l}) && Insertable(u, done + {l})
  {
    forall k | k in done ensures u.logs[k].note.visitId != u.logs[l].note.visitId {
      assert u.logs[k].note.visitId in (set j | j in done :: u.logs[j].note.visitId);
    }
  }

  lemma StillRestored(u: Tables, ids: set<Id>, v: Tables, w: Tables)
    requires AllMoves(u.logs, ids) && RestoredBy(u, ids, v) && w == v.(logs := w.logs)
    ensures RestoredBy(u, ids, w)
  {
  }

  /** Every link of the old rows names an existing row. */
  ghost predicate LinksValid(t: Tables) {
    && SourcesExist(t)
    && (forall id :: id in t.enrollments ==>
          (t.enrollments[id].homeVisitTaskId.Some? ==> t.enrollments[id].homeVisitTaskId.value in t.home)
          && (t.enrollments[id].campusVisitTaskId.Some? ==> t.enrollments[id].campusVisitTaskId.value in t.campus))
    && (forall id :: id in t.campus && t.campus[id].homeVisitTaskId.Some? ==>
        t.campus[id].homeVisitTaskId.value in t.home)
  }

  lemma LinksGiveSources(t: Tables)
    requires LinksValid(t)
    ensures SourcesExist(t)
  {
  }

  lemma ValidLinksNameNoNewTask(t: Tables, u: Tables, tr: Trace, now: Time)
    requires Folded(t, u, tr, now) && LinksValid(t)
    ensures TasksUnnamed(t, TasksOf(t, tr, Home), TasksOf(t, tr, Campus))
  {
    hide MovedOnce, TasksOf;
    var home, campus := TasksOf(t, tr, Home), TasksOf(t, tr, Campus);
    assert home !! t.home.Keys && campus !! t.campus.Keys;
    hide Folded;
    forall id | id in t.items
      ensures !SourceGone(t.items[id], Home, home) && !SourceGone(t.items[id], Campus, campus)
    {
      assert SourceGone(t.items[id], Home, {t.items[id].sourceId}) ==> t.items[id].sourceId in TaskIds(t, Home);
      assert SourceGone(t.items[id], Campus, {t.items[id].sourceId}) ==> t.items[id].sourceId in TaskIds(t, Campus);
    }
  }

  lemma EntriesApart(t: Tables, u: Tables, tr: Trace, now: Time, l: Id, k: Id)
    requires Folded(t, u, tr, now) && l in tr.log.Values && k in tr.log.Values && l != k
    ensures l in u.logs && u.logs[l].note.Moved? && k in u.logs && u.logs[k].note.Moved?
    ensures u.logs[l].note.visitId != u.logs[k].note.visitId
  {
    var vl :| vl in tr.log && tr.log[vl] == l;
    var vk :| vk in tr.log && tr.log[vk] == k;
    assert vl in tr.task && vk in tr.task;
    assert MovedOnce(t, u, tr, vl, now) && MovedOnce(t, u, tr, vk, now);
    hide Folded, MovedOnce, TaskStatus;
  }

  lemma RestorableAfterFold(t: Tables, u: Tables, tr: Trace, now: Time)
    requires Folded(t, u, tr, now) && NoEarlierLog(t)
    ensures AllMoves(u.logs, MyLogs(u.logs)) && Insertable(u.(visits := map[]), MyLogs(u.logs))
  {
    hide Folded, MyLogs, Named, TasksOf, Mine, NoEarlierLog;
    EntriesAreTheTrace(t, u, tr, now);
    forall l, k | l in MyLogs(u.logs) && k in MyLogs(u.logs) && l != k
      ensures u.logs[l].note.visitId != u.logs[k].note.visitId
    {
      EntriesApart(t, u, tr, now, l, k);
    }
  }

  /** Upgrade (which ends by dropping the visits table) then downgrade, on data whose links are valid. */
  method UpgradeDowngrade(c: Connection, now: Time) returns (ok: bool)
    requires NoEarlierLog(c.Now()) && LinksValid(c.Now())
    modifies c
    ensures ok <==> AllMovable(old(c.Now()))
    ensures c.Now() == old(c.Now())
  {
    hide Folded, Restored, LinksValid, TasksUnnamed, Insertable, NoEarlierLog, MyLogs, AllMoves, Counted, Movable;
    ghost var t := c.Now();
    assert SourcesExist(t) by { LinksGiveSources(t); }
    var folded, tr := c.Fold(now);
    if folded.Err? {
      return false;
    }
    ghost var u := c.Now();
    c.visits := map[];
    assert c.Now() == u.(visits := map[]);
    RestorableAfterFold(t, u, tr, now);
    ValidLinksNameNoNewTask(t, u, tr, now);
    var restored := c.Restore();
    RestoreUndoesFold(t, u, tr, c.Now(), now);
    return true;
  }

  lemma NothingUndoneYet(u: Tables)
    ensures TasksUndone(u, {}, {}, u)
  {
    assert u.home == (map id | id in u.home && id !in {} :: u.home[id]);
    forall id | id in u.campus
      ensures u.campus[id] == u.campus[id].(homeVisitTaskId := Unlink(u.campus[id].homeVisitTaskId, {}))
    {
    }
    forall id | id in u.enrollments
      ensures u.enrollments[id] == u.enrollments[id].(homeVisitTaskId := Unlink(u.enrollments[id].homeVisitTaskId, {}),
                                              campusVisitTaskId := Unlink(u.enrollments[id].campusVisitTaskId, {}))
    {
    }
  }

  lemma NothingRestoredYet(u: Tables)
    ensures AllMoves(u.logs, {}) && RestoredBy(u, {}, u) && Insertable(u, {})
  {
    assert Named(u.logs, {}, Home) == {} && Named(u.logs, {}, Campus) == {};
    hide Named, TasksUndone;
    NothingUndoneYet(u);
  }
}
