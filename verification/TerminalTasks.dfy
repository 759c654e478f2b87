/**
 Closing the tasks of terminal students, and reopening them from the log
 (app/migration_data/terminal_tasks_20261020.py). Tables are maps from row id to row; the columns the
 migration neither reads nor writes are one field, `other`. Timestamps and the JSON note are kept as
 values, so isoformat/fromisoformat and dumps/loads are the identity.
 */
module TerminalTasks {
  import opened Common
  import opened StatusPolicy

  type Id = nat
  type Time = int

  const ACTION := "自动关闭待办"
  const BATCH := "alembic-20261020_01"
  const OPERATOR := "系统迁移"
  const CLOSED_KINDS: set<string> := {"scheduled_follow_up", "home_visit", "campus_visit"}
  const ACTIVE: set<string> := {"open", "blocked_suspension", "blocked_handover"}
  const CHUNK := 500

  datatype Student = Student(caseNo: Option<string>, status: string)
  datatype FollowUp = FollowUp(studentId: Id, isCompleted: bool, other: string)
  datatype Visit = Visit(studentId: Id, status: string, result: Option<string>, updatedAt: Time, other: string)
  datatype WorkItem = WorkItem(
    studentId: Id, kind: string, status: string, owner: Option<Id>, completedAt: Option<Time>,
    handoverBatch: Option<Id>, version: int, updatedAt: Time, other: string)
  datatype Enrollment = Enrollment(homeVisit: Option<Id>, campusVisit: Option<Id>)

  datatype VisitKind = HomeVisit | CampusVisit

  /** The undo data of one student: previous values of the rows the migration touches. */
  datatype VisitUndo = VisitUndo(status: string, updatedAt: Time)
  datatype ItemUndo = ItemUndo(
    status: string, owner: Option<Id>, completedAt: Option<Time>, handoverBatch: Option<Id>,
    version: int, updatedAt: Time)
  datatype Rows = Rows(
    followUps: set<Id>, home: map<Id, VisitUndo>, campus: map<Id, VisitUndo>, items: map<Id, ItemUndo>)

  datatype Note = Text(text: string) | Undo(rows: Rows)
  datatype Content = Prose(text: string) | Closing(status: string, followUps: nat, home: nat, campus: nat, items: nat)
  datatype Log = Log(
    operatorName: string, targetStudent: Option<Id>, caseNo: string, action: string, content: Content,
    note: Note, batchId: string, createdAt: Time)

  datatype Tables = Tables(
    students: map<Id, Student>, followUps: map<Id, FollowUp>, home: map<Id, Visit>, campus: map<Id, Visit>,
    items: map<Id, WorkItem>, enrollments: map<Id, Enrollment>, logs: map<Id, Log>)

  // ---------------------------------------------------------------- what close selects

  predicate Terminal(students: map<Id, Student>, sid: Id) {
    sid in students && students[sid].status in FROZEN_TERMINAL_STATUSES
  }

  function VisitTable(t: Tables, k: VisitKind): map<Id, Visit> {
    if k == HomeVisit then t.home else t.campus
  }

  function OpenStatuses(k: VisitKind): set<string> {
    if k == HomeVisit then {"pending", "confirmed", "scheduled", "postponed"}
    else {"pending", "scheduled", "rescheduled"}
  }

  /** The visits an enrollment record names. */
  function Enrolling(t: Tables, k: VisitKind): set<Id> {
    if k == HomeVisit
    then set e | e in t.enrollments && t.enrollments[e].homeVisit.Some? :: t.enrollments[e].homeVisit.value
    else set e | e in t.enrollments && t.enrollments[e].campusVisit.Some? :: t.enrollments[e].campusVisit.value
  }

  /** An open visit that did not enrol the student, by its own result or by an enrollment record. */
  predicate VisitToClose(v: Visit, id: Id, open: set<string>, enrolling: set<Id>) {
    v.status in open && v.result != Some("enrolled") && id !in enrolling
  }

  predicate ItemToClose(w: WorkItem) {
    w.kind in CLOSED_KINDS && w.status in ACTIVE
  }

  /** The rows of a given set of students that close selects. */
  function FollowUpsOf(followUps: map<Id, FollowUp>, sids: set<Id>): set<Id> {
    set id | id in followUps && followUps[id].studentId in sids && !followUps[id].isCompleted
  }

  function VisitsOf(t: Tables, k: VisitKind, sids: set<Id>): set<Id> {
    var visits := VisitTable(t, k);
    set id | id in visits && visits[id].studentId in sids
      && VisitToClose(visits[id], id, OpenStatuses(k), Enrolling(t, k))
  }

  function ItemsOf(items: map<Id, WorkItem>, sids: set<Id>): set<Id> {
    set id | id in items && items[id].studentId in sids && ItemToClose(items[id])
  }

  function TerminalStudents(t: Tables): set<Id> {
    set sid | sid in t.students && t.students[sid].status in FROZEN_TERMINAL_STATUSES
  }

  function UndoVisit(v: Visit): VisitUndo {
    VisitUndo(v.status, v.updatedAt)
  }

  function UndoItem(w: WorkItem): ItemUndo {
    ItemUndo(w.status, w.owner, w.completedAt, w.handoverBatch, w.version, w.updatedAt)
  }

  function VisitUndos(t: Tables, k: VisitKind, sid: Id): map<Id, VisitUndo> {
    map id | id in VisitsOf(t, k, {sid}) :: UndoVisit(VisitTable(t, k)[id])
  }

  function ItemUndos(items: map<Id, WorkItem>, sid: Id): map<Id, ItemUndo> {
    map id | id in ItemsOf(items, {sid}) :: UndoItem(items[id])
  }

  /** What the log of one student must remember. */
  function RowsOf(t: Tables, sid: Id): Rows {
    Rows(FollowUpsOf(t.followUps, {sid}),
         VisitUndos(t, HomeVisit, sid),
         VisitUndos(t, CampusVisit, sid),
         ItemUndos(t.items, sid))
  }

  const NO_ROWS := Rows({}, map[], map[], map[])

  function TouchedStudents(t: Tables): set<Id> {
    set sid | sid in TerminalStudents(t) && RowsOf(t, sid) != NO_ROWS
  }

  // ---------------------------------------------------------------- what close writes

  function CloseVisit(v: Visit, now: Time): Visit {
    v.(status := "cancelled", updatedAt := now)
  }

  function CloseItem(w: WorkItem, now: Time): WorkItem {
    w.(status := "cancelled", owner := None, completedAt := None, handoverBatch := None,
       version := w.version + 1, updatedAt := now)
  }

  function CloseFollowUps(followUps: map<Id, FollowUp>, chosen: set<Id>): map<Id, FollowUp> {
    map id | id in followUps :: if id in chosen then followUps[id].(isCompleted := true) else followUps[id]
  }

  function CloseVisits(visits: map<Id, Visit>, chosen: set<Id>, now: Time): map<Id, Visit> {
    map id | id in visits :: if id in chosen then CloseVisit(visits[id], now) else visits[id]
  }

  function CloseItems(items: map<Id, WorkItem>, chosen: set<Id>, now: Time): map<Id, WorkItem> {
    map id | id in items :: if id in chosen then CloseItem(items[id], now) else items[id]
  }

  function ClosingLog(t: Tables, sid: Id, now: Time): Log
    requires sid in t.students
  {
    var s := t.students[sid];
    var r := RowsOf(t, sid);
    Log(OPERATOR, Some(sid), if s.caseNo.Some? then s.caseNo.value else "", ACTION,
        Closing(if s.status == "enrolled" then "已报名" else "无效", |r.followUps|, |r.home|, |r.campus|, |r.items|),
        Undo(r), BATCH, now)
  }

  predicate Mine(l: Log) {
    l.action == ACTION && l.batchId == BATCH
  }

  /** The log table gained one entry per student of `sids`, and nothing else. */
  ghost predicate Logged(t: Tables, sids: set<Id>, logs: map<Id, Log>, now: Time) {
    && sids <= t.students.Keys
    && t.logs.Keys <= logs.Keys
    && (forall l :: l in t.logs ==> logs[l] == t.logs[l])
    && (forall l {:trigger ClosingEntry(t, sids, logs[l], now)} :: l in logs && l !in t.logs ==>
        ClosingEntry(t, sids, logs[l], now))
    && (forall sid {:trigger LoggedOnce(t, logs, sid)} :: sid in sids ==> LoggedOnce(t, logs, sid))
  }

  ghost predicate ClosingEntry(t: Tables, sids: set<Id>, entry: Log, now: Time) {
    exists sid :: sid in sids && sid in t.students && entry == ClosingLog(t, sid, now)
  }

  ghost predicate LoggedOnce(t: Tables, logs: map<Id, Log>, sid: Id) {
    exists l :: l in logs && l !in t.logs && logs[l].targetStudent == Some(sid)
      && forall k :: k in logs && k !in t.logs && logs[k].targetStudent == Some(sid) ==> k == l
  }

  /** The whole effect of close on the rows of the students in `sids`. */
  ghost predicate ClosedFor(t: Tables, sids: set<Id>, u: Tables, now: Time) {
    && u.students == t.students && u.enrollments == t.enrollments
    && u.followUps == CloseFollowUps(t.followUps, FollowUpsOf(t.followUps, sids))
    && (forall k: VisitKind :: VisitTable(u, k) == CloseVisits(VisitTable(t, k), VisitsOf(t, k, sids), now))
    && u.items == CloseItems(t.items, ItemsOf(t.items, sids), now)
    && Logged(t, sids, u.logs, now)
  }

  ghost predicate Closed(t: Tables, u: Tables, now: Time) {
    ClosedFor(t, TouchedStudents(t), u, now)
  }

  // ---------------------------------------------------------------- what reopen writes

  function RestoreVisit(v: Visit, u: VisitUndo): Visit {
    v.(status := u.status, updatedAt := u.updatedAt)
  }

  function RestoreVisits(visits: map<Id, Visit>, undo: map<Id, VisitUndo>): map<Id, Visit> {
    map id | id in visits ::
      if id in undo then RestoreVisit(visits[id], undo[id]) else visits[id]
  }

  function RestoreItem(w: WorkItem, u: ItemUndo): WorkItem {
    w.(status := u.status, owner := u.owner, completedAt := u.completedAt, handoverBatch := u.handoverBatch,
       version := u.version, updatedAt := u.updatedAt)
  }

  function RestoreItems(items: map<Id, WorkItem>, undo: map<Id, ItemUndo>): map<Id, WorkItem> {
    map id | id in items :: if id in undo then RestoreItem(items[id], undo[id]) else items[id]
  }

  function RestoreFollowUps(followUps: map<Id, FollowUp>, chosen: set<Id>): map<Id, FollowUp> {
    map id | id in followUps :: if id in chosen then followUps[id].(isCompleted := false) else followUps[id]
  }

  function VisitPart(r: Rows, k: VisitKind): map<Id, VisitUndo> {
    if k == HomeVisit then r.home else r.campus
  }

  /** After some entries are undone, a visit some entry names has the values one of those entries gives
      it; any other visit is unchanged. */
  ghost predicate VisitsFrom(before: map<Id, Visit>, after: map<Id, Visit>, k: VisitKind, rows: set<Rows>) {
    after.Keys == before.Keys && forall id :: id in before ==> VisitFrom(before[id], after[id], id, k, rows)
  }

  ghost predicate VisitFrom(before: Visit, after: Visit, id: Id, k: VisitKind, rows: set<Rows>) {
    if exists r :: r in rows && id in VisitPart(r, k)
    then exists r :: r in rows && id in VisitPart(r, k) && after == RestoreVisit(before, VisitPart(r, k)[id])
    else after == before
  }

  ghost predicate ItemsFrom(before: map<Id, WorkItem>, after: map<Id, WorkItem>, rows: set<Rows>) {
    after.Keys == before.Keys && forall id :: id in before ==> ItemFrom(before[id], after[id], id, rows)
  }

  ghost predicate ItemFrom(before: WorkItem, after: WorkItem, id: Id, rows: set<Rows>) {
    if exists r :: r in rows && id in r.items
    then exists r :: r in rows && id in r.items && after == RestoreItem(before, r.items[id])
    else after == before
  }

  ghost predicate FollowUpsFrom(before: map<Id, FollowUp>, after: map<Id, FollowUp>, rows: set<Rows>) {
    && after.Keys == before.Keys
    && forall id :: id in before ==>
         after[id] ==
           if exists r :: r in rows && id in r.followUps then before[id].(isCompleted := false) else before[id]
  }

  ghost predicate ReopenedBy(t: Tables, rows: set<Rows>, u: Tables) {
    && u.students == t.students && u.enrollments == t.enrollments
    && FollowUpsFrom(t.followUps, u.followUps, rows)
    && (forall k: VisitKind :: VisitsFrom(VisitTable(t, k), VisitTable(u, k), k, rows))
    && ItemsFrom(t.items, u.items, rows)
  }

  function MyLogs(logs: map<Id, Log>): set<Id> {
    set l | l in logs && Mine(logs[l])
  }

  ghost predicate AllUndo(logs: map<Id, Log>, ids: set<Id>) {
    forall l :: l in ids ==> l in logs && logs[l].note.Undo?
  }

  ghost function RowsIn(logs: map<Id, Log>, ids: set<Id>): set<Rows>
    requires AllUndo(logs, ids)
  {
    set l | l in ids :: logs[l].note.rows
  }

  ghost predicate Reopened(t: Tables, u: Tables) {
    && AllUndo(t.logs, MyLogs(t.logs))
    && ReopenedBy(t, RowsIn(t.logs, MyLogs(t.logs)), u)
    && u.logs == map l | l in t.logs && !Mine(t.logs[l]) :: t.logs[l]
  }

  /** Reopen deletes the log entries with both the action and the batch of close, and no others. */
  lemma OnlyItsEntriesLeave(t: Tables, u: Tables, l: Id)
    requires Reopened(t, u)
    ensures l in u.logs <==>
      l in t.logs && (t.logs[l].action != "自动关闭待办" || t.logs[l].batchId != "alembic-20261020_01")
    ensures l in u.logs ==> u.logs[l] == t.logs[l]
  {
    hide ReopenedBy, AllUndo;
  }

  // ---------------------------------------------------------------- reopen undoes close

  ghost predicate NoEarlierLog(t: Tables) {
    forall l :: l in t.logs ==> !Mine(t.logs[l])
  }

  ghost function RowSet(t: Tables, sids: set<Id>): set<Rows> {
    set sid | sid in sids :: RowsOf(t, sid)
  }

  /** The entries reopen reads are exactly the undo data of the touched students. */
  lemma EntriesAreRows(t: Tables, sids: set<Id>, logs: map<Id, Log>, now: Time)
    requires NoEarlierLog(t) && Logged(t, sids, logs, now)
    ensures AllUndo(logs, MyLogs(logs)) && RowsIn(logs, MyLogs(logs)) == RowSet(t, sids)
  {
    forall l | l in MyLogs(logs)
      ensures logs[l].note.Undo? && logs[l].note.rows in RowSet(t, sids)
    {
      assert l !in t.logs;
      var sid := EntryOwner(t, sids, logs, now, l);
      assert RowsOf(t, sid) in RowSet(t, sids);
    }
    forall r | r in RowSet(t, sids) ensures r in RowsIn(logs, MyLogs(logs)) {
      var sid :| sid in sids && r == RowsOf(t, sid);
      assert LoggedOnce(t, logs, sid);
      var l :| l in logs && l !in t.logs && logs[l].targetStudent == Some(sid);
      var owner := EntryOwner(t, sids, logs, now, l);
      assert l in MyLogs(logs) && logs[l].note.rows == r;
    }
  }

  /** Each entry close wrote remembers the rows of one student. */
  lemma EntryOwner(t: Tables, sids: set<Id>, logs: map<Id, Log>, now: Time, l: Id) returns (sid: Id)
    requires Logged(t, sids, logs, now) && l in logs && l !in t.logs
    ensures sid in sids && logs[l].targetStudent == Some(sid) && logs[l].note == Undo(RowsOf(t, sid)) && Mine(logs[l])
  {
    assert ClosingEntry(t, sids, logs[l], now);
    sid :| sid in sids && sid in t.students && logs[l] == ClosingLog(t, sid, now);
  }

  lemma FollowUpsRestored(t: Tables, sids: set<Id>, after: map<Id, FollowUp>)
    requires FollowUpsFrom(CloseFollowUps(t.followUps, FollowUpsOf(t.followUps, sids)), after, RowSet(t, sids))
    ensures after == t.followUps
  {
    forall id | id in t.followUps ensures after[id] == t.followUps[id] {
      if id in FollowUpsOf(t.followUps, sids) {
        assert RowsOf(t, t.followUps[id].studentId) in RowSet(t, sids);
      }
    }
  }

  lemma VisitsRestored(t: Tables, k: VisitKind, sids: set<Id>, now: Time, after: map<Id, Visit>)
    requires VisitsFrom(CloseVisits(VisitTable(t, k), VisitsOf(t, k, sids), now), after, k, RowSet(t, sids))
    ensures after == VisitTable(t, k)
  {
    hide ItemToClose, VisitToClose;
    var before := VisitTable(t, k);
    var closed := CloseVisits(before, VisitsOf(t, k, sids), now);
    var rows := RowSet(t, sids);
    forall id | id in before ensures after[id] == before[id] {
      if id in VisitsOf(t, k, sids) {
        var own := RowsOf(t, before[id].studentId);
        assert own in rows && id in VisitPart(own, k);
      }
      if exists r :: r in rows && id in VisitPart(r, k) {
        var r :| r in rows && id in VisitPart(r, k) && after[id] == RestoreVisit(closed[id], VisitPart(r, k)[id]);
        var sid :| sid in sids && r == RowsOf(t, sid);
        assert VisitPart(r, k) == VisitUndos(t, k, sid);
      }
    }
  }

  lemma ItemsRestored(t: Tables, sids: set<Id>, now: Time, after: map<Id, WorkItem>)
    requires ItemsFrom(CloseItems(t.items, ItemsOf(t.items, sids), now), after, RowSet(t, sids))
    ensures after == t.items
  {
    hide ItemToClose, VisitToClose;
    var closed := CloseItems(t.items, ItemsOf(t.items, sids), now);
    var rows := RowSet(t, sids);
    forall id | id in t.items ensures after[id] == t.items[id] {
      if id in ItemsOf(t.items, sids) {
        var own := RowsOf(t, t.items[id].studentId);
        assert own in rows && id in own.items;
      }
      if exists r :: r in rows && id in r.items {
        var r :| r in rows && id in r.items && after[id] == RestoreItem(closed[id], r.items[id]);
        var sid :| sid in sids && r == RowsOf(t, sid);
        assert r.items == ItemUndos(t.items, sid);
      }
    }
  }

  /** The downgrade after the upgrade is the identity on every table exactly when the database held no
      earlier log of this action and batch. */
  lemma ReopenUndoesClose(t: Tables, u: Tables, v: Tables, now: Time)
    requires Closed(t, u, now) && Reopened(u, v)
    ensures v == t <==> NoEarlierLog(t)
  {
    var sids := TouchedStudents(t);
    if NoEarlierLog(t) {
      EntriesAreRows(t, sids, u.logs, now);
      FollowUpsRestored(t, sids, v.followUps);
      ItemsRestored(t, sids, now, v.items);
      assert v.home == t.home by {
        assert VisitsFrom(VisitTable(u, HomeVisit), VisitTable(v, HomeVisit), HomeVisit, RowSet(t, sids));
        VisitsRestored(t, HomeVisit, sids, now, v.home);
      }
      assert v.campus == t.campus by {
        assert VisitsFrom(VisitTable(u, CampusVisit), VisitTable(v, CampusVisit), CampusVisit, RowSet(t, sids));
        VisitsRestored(t, CampusVisit, sids, now, v.campus);
      }
      assert v.logs == t.logs by { LogsRestored(t, sids, u.logs, v.logs, now); }
    } else {
      var l :| l in t.logs && Mine(t.logs[l]);
      assert u.logs[l] == t.logs[l] && l !in v.logs;
    }
  }

  lemma LogsRestored(t: Tables, sids: set<Id>, logs: map<Id, Log>, after: map<Id, Log>, now: Time)
    requires NoEarlierLog(t) && Logged(t, sids, logs, now)
    requires after == map l | l in logs && !Mine(logs[l]) :: logs[l]
    ensures after == t.logs
  {
    forall l | l in logs ensures Mine(logs[l]) <==> l !in t.logs {
      if l !in t.logs {
        assert ClosingEntry(t, sids, logs[l], now);
      }
    }
  }

  /** A student who is not done, with one row in every table and an earlier entry of the batch that remembers his
      follow-up as open. */
  function EarlierEntry(): Tables {
    var entry := Log(OPERATOR, Some(1), "", ACTION, Closing("无效", 1, 0, 0, 0), Undo(Rows({1}, map[], map[], map[])),
                     BATCH, 0);
    Tables(map[1 := Student(None, "contacted")], map[1 := FollowUp(1, true, "")],
           map[1 := Visit(1, "completed", None, 0, "")], map[1 := Visit(1, "arrived", None, 0, "")],
           map[1 := WorkItem(1, "home_visit", "completed", None, None, None, 1, 0, "")],
           map[1 := Enrollment(Some(1), Some(1))], map[2 := entry])
  }

  /** Such an entry is lost, and the follow-up is open again, although close touched nothing. */
  lemma EarlierEntryIsUndoneToo(now: Time) returns (v: Tables)
    ensures var t := EarlierEntry();
      && Closed(t, t, now) && Reopened(t, v) && !NoEarlierLog(t)
      && 2 in t.logs && 2 !in v.logs && 1 in v.followUps && !v.followUps[1].isCompleted && v != t
  {
    hide Closed;
    var t := EarlierEntry();
    NobodyTouched(t, now);
    assert MyLogs(t.logs) == {2} by { assert Mine(t.logs[2]); }
    assert RowsIn(t.logs, {2}) == {Rows({1}, map[], map[], map[])};
    v := t.(followUps := t.followUps[1 := FollowUp(1, false, "")],
            logs := map l | l in t.logs && !Mine(t.logs[l]) :: t.logs[l]);
    OnlyFollowUpReopened(t, v);
  }

  lemma OnlyFollowUpReopened(t: Tables, v: Tables)
    requires t.followUps == map[1 := FollowUp(1, true, "")]
    requires v == t.(followUps := t.followUps[1 := FollowUp(1, false, "")], logs := v.logs)
    ensures ReopenedBy(t, {Rows({1}, map[], map[], map[])}, v)
  {
    var rows := {Rows({1}, map[], map[], map[])};
    assert FollowUpsFrom(t.followUps, v.followUps, rows) by {
      assert Rows({1}, map[], map[], map[]) in rows;
    }
    forall k: VisitKind ensures VisitsFrom(VisitTable(t, k), VisitTable(v, k), k, rows) {
    }
  }

  lemma NobodyTouched(t: Tables, now: Time)
    requires forall sid :: sid in t.students ==> !Terminal(t.students, sid)
    ensures Closed(t, t, now)
  {
    assert TerminalStudents(t) == {};
    assert TouchedStudents(t) == {};
    NothingClosedYet(t, now);
  }

  // ---------------------------------------------------------------- what close achieves

  /** A student whose tasks close does not log has nothing it would select. */
  lemma UntouchedHasNothing(t: Tables, sid: Id)
    requires Terminal(t.students, sid) && sid !in TouchedStudents(t)
    ensures FollowUpsOf(t.followUps, {sid}) == {} && ItemsOf(t.items, {sid}) == {}
    ensures forall k: VisitKind :: VisitsOf(t, k, {sid}) == {}
  {
    hide ItemToClose, VisitToClose;
    assert RowsOf(t, sid) == NO_ROWS;
    forall id ensures id !in ItemsOf(t.items, {sid}) {
      assert id !in ItemUndos(t.items, sid);
    }
    forall k: VisitKind ensures VisitsOf(t, k, {sid}) == {} {
      assert VisitUndos(t, k, sid) == VisitPart(RowsOf(t, sid), k) == map[];
      forall id ensures id !in VisitsOf(t, k, {sid}) {
        assert id !in VisitUndos(t, k, sid);
      }
    }
  }

  /** So selecting for the touched students is selecting for all terminal ones. */
  lemma TouchedCoverTerminal(t: Tables)
    ensures FollowUpsOf(t.followUps, TouchedStudents(t)) == FollowUpsOf(t.followUps, TerminalStudents(t))
    ensures ItemsOf(t.items, TouchedStudents(t)) == ItemsOf(t.items, TerminalStudents(t))
    ensures forall k: VisitKind :: VisitsOf(t, k, TouchedStudents(t)) == VisitsOf(t, k, TerminalStudents(t))
  {
    hide ItemToClose, VisitToClose;
    forall sid | sid in TerminalStudents(t) && sid !in TouchedStudents(t)
      ensures FollowUpsOf(t.followUps, {sid}) == {} && ItemsOf(t.items, {sid}) == {}
      ensures forall k: VisitKind :: VisitsOf(t, k, {sid}) == {}
    {
      UntouchedHasNothing(t, sid);
    }
    forall id | id in FollowUpsOf(t.followUps, TerminalStudents(t))
      ensures id in FollowUpsOf(t.followUps, TouchedStudents(t)) {
      assert id in FollowUpsOf(t.followUps, {t.followUps[id].studentId});
    }
    forall id | id in ItemsOf(t.items, TerminalStudents(t)) ensures id in ItemsOf(t.items, TouchedStudents(t)) {
      assert id in ItemsOf(t.items, {t.items[id].studentId});
    }
    forall k: VisitKind ensures VisitsOf(t, k, TouchedStudents(t)) == VisitsOf(t, k, TerminalStudents(t)) {
      forall id | id in VisitsOf(t, k, TerminalStudents(t)) ensures id in VisitsOf(t, k, TouchedStudents(t)) {
        assert id in VisitsOf(t, k, {VisitTable(t, k)[id].studentId});
      }
    }
  }

  /** No task of a terminal student is left: no open follow-up, no active follow-up or visit work item,
      and a visit still open is one that enrolled the student. */
  ghost predicate NothingLeftOpen(t: Tables) {
    && (forall id :: id in t.followUps && Terminal(t.students, t.followUps[id].studentId) ==>
        t.followUps[id].isCompleted)
    && (forall id :: id in t.items && Terminal(t.students, t.items[id].studentId) && t.items[id].kind in CLOSED_KINDS
          ==> t.items[id].status !in ACTIVE)
    && (forall k: VisitKind, id :: id in VisitTable(t, k) && Terminal(t.students, VisitTable(t, k)[id].studentId)
          && VisitTable(t, k)[id].status in OpenStatuses(k)
          ==> VisitTable(t, k)[id].result == Some("enrolled") || id in Enrolling(t, k))
  }

  lemma VisitsLeftOpenEnrolled(t: Tables, u: Tables, now: Time, k: VisitKind, id: Id)
    requires u.students == t.students && u.enrollments == t.enrollments
    requires VisitTable(u, k) == CloseVisits(VisitTable(t, k), VisitsOf(t, k, TerminalStudents(t)), now)
    requires id in VisitTable(u, k) && Terminal(u.students, VisitTable(u, k)[id].studentId)
    requires VisitTable(u, k)[id].status in OpenStatuses(k)
    ensures VisitTable(u, k)[id].result == Some("enrolled") || id in Enrolling(u, k)
  {
    assert id !in VisitsOf(t, k, TerminalStudents(t));
  }

  lemma FollowUpsCompleted(t: Tables, u: Tables)
    requires u.students == t.students
    requires u.followUps == CloseFollowUps(t.followUps, FollowUpsOf(t.followUps, TerminalStudents(t)))
    ensures forall id :: id in u.followUps && Terminal(u.students, u.followUps[id].studentId) ==>
      u.followUps[id].isCompleted
  {
  }

  lemma ItemsCancelled(t: Tables, u: Tables, now: Time)
    requires u.students == t.students
    requires u.items == CloseItems(t.items, ItemsOf(t.items, TerminalStudents(t)), now)
    ensures forall id ::
      id in u.items && Terminal(u.students, u.items[id].studentId) && u.items[id].kind in CLOSED_KINDS ==>
        u.items[id].status !in ACTIVE
  {
  }

  lemma CloseLeavesNothingOpen(t: Tables, u: Tables, now: Time)
    requires Closed(t, u, now)
    ensures NothingLeftOpen(u)
  {
    TouchedCoverTerminal(t);
    FollowUpsCompleted(t, u);
    ItemsCancelled(t, u, now);
    forall k: VisitKind, id | id in VisitTable(u, k) && Terminal(u.students, VisitTable(u, k)[id].studentId)
                              && VisitTable(u, k)[id].status in OpenStatuses(k)
      ensures VisitTable(u, k)[id].result == Some("enrolled") || id in Enrolling(u, k)
    {
      VisitsLeftOpenEnrolled(t, u, now, k, id);
    }
  }

  /** The student is enrolled or invalid by the live policy. */
  predicate IsDone(t: Tables, sid: Id) {
    sid in t.students && TerminalStatus(t.students[sid].status)
  }

  /** Exactly the follow-ups left to do of students who are done are completed, and nothing else of them changes. */
  lemma CompletedFollowUps(t: Tables, u: Tables, now: Time, id: Id)
    requires Closed(t, u, now) && id in t.followUps
    ensures var f := t.followUps[id];
      id in u.followUps && u.followUps[id] == FollowUp(f.studentId, f.isCompleted || IsDone(t, f.studentId), f.other)
  {
    TouchedCoverTerminal(t);
    if t.followUps[id].studentId in t.students {
      FrozenListIsThePolicy(t.students[t.followUps[id].studentId].status);
    }
  }

  /** Exactly the open visits of students who are done are cancelled, but for those that enrolled them; the time of
      the change is the only other column written. */
  lemma CancelledVisits(t: Tables, u: Tables, now: Time, k: VisitKind, id: Id)
    requires Closed(t, u, now) && id in VisitTable(t, k)
    ensures var v := VisitTable(t, k)[id];
      id in VisitTable(u, k)
      && VisitTable(u, k)[id] ==
        if IsDone(t, v.studentId)
          && (v.status in {"pending", "scheduled"} || (k == HomeVisit && v.status in {"confirmed", "postponed"})
              || (k == CampusVisit && v.status == "rescheduled"))
          && v.result != Some("enrolled")
          && (forall e :: e in t.enrollments ==> !NamesVisit(t.enrollments[e], k, id))
        then Visit(v.studentId, "cancelled", v.result, now, v.other)
        else v
  {
    TouchedCoverTerminal(t);
    var v := VisitTable(t, k)[id];
    if v.studentId in t.students {
      FrozenListIsThePolicy(t.students[v.studentId].status);
    }
    assert VisitTable(u, k) == CloseVisits(VisitTable(t, k), VisitsOf(t, k, TerminalStudents(t)), now);
    EnrollingMeans(t, k, id);
    hide Enrolling, Closed, ClosedFor, TouchedStudents;
  }

  predicate NamesVisit(e: Enrollment, k: VisitKind, id: Id) {
    (if k == HomeVisit then e.homeVisit else e.campusVisit) == Some(id)
  }

  lemma EnrollingMeans(t: Tables, k: VisitKind, id: Id)
    ensures id in Enrolling(t, k) <==> (exists e :: e in t.enrollments && NamesVisit(t.enrollments[e], k, id))
  {
    if e :| e in t.enrollments && NamesVisit(t.enrollments[e], k, id) {
      assert id == (if k == HomeVisit then t.enrollments[e].homeVisit else t.enrollments[e].campusVisit).value;
    }
  }

  /** Exactly the active follow-up and visit items of students who are done are cancelled: nobody owns them, no
      batch holds them, they were not completed, and they are one version further. */
  lemma CancelledItems(t: Tables, u: Tables, now: Time, id: Id)
    requires Closed(t, u, now) && id in t.items
    ensures var w := t.items[id];
      id in u.items
      && u.items[id] ==
        if IsDone(t, w.studentId) && w.status in {"open", "blocked_suspension", "blocked_handover"}
          && w.kind in {"scheduled_follow_up", "home_visit", "campus_visit"}
        then WorkItem(w.studentId, w.kind, "cancelled", None, None, None, w.version + 1, now, w.other)
        else w
  {
    TouchedCoverTerminal(t);
    if t.items[id].studentId in t.students {
      FrozenListIsThePolicy(t.students[t.items[id].studentId].status);
    }
  }

  /** The entry of a touched student says who wrote it, for whom, when, and how many rows of each kind it closed. */
  lemma WrittenEntry(t: Tables, u: Tables, now: Time, l: Id) returns (sid: Id)
    requires Closed(t, u, now) && l in u.logs && l !in t.logs
    ensures IsDone(t, sid) && u.logs[l].targetStudent == Some(sid) && u.logs[l].note.Undo?
    ensures var r := u.logs[l].note.rows; var caseNo := t.students[sid].caseNo;
      u.logs[l] == Log("系统迁移", Some(sid), if caseNo.Some? then caseNo.value else "", "自动关闭待办",
                       Closing(if t.students[sid].status == "enrolled" then "已报名" else "无效",
                               |r.followUps|, |r.home|, |r.campus|, |r.items|),
                       Undo(r), "alembic-20261020_01", now)
    ensures RemembersExactly(t, u, sid, u.logs[l].note.rows)
  {
    assert ClosingEntry(t, TouchedStudents(t), u.logs[l], now);
    sid :| sid in TouchedStudents(t) && sid in t.students && u.logs[l] == ClosingLog(t, sid, now);
    FrozenListIsThePolicy(t.students[sid].status);
    RowsAreChanges(t, u, now, sid);
  }

  /** The undo data is the student's rows that differ, each with the values it had. */
  ghost predicate RemembersExactly(t: Tables, u: Tables, sid: Id, r: Rows) {
    && RemembersFollowUps(t, u, sid, r.followUps) && RemembersItems(t, u, sid, r.items)
    && forall k: VisitKind :: RemembersVisits(VisitTable(t, k), VisitTable(u, k), sid, VisitPart(r, k))
  }

  ghost predicate RemembersFollowUps(t: Tables, u: Tables, sid: Id, ids: set<Id>) {
    forall id :: id in ids <==>
      id in t.followUps && id in u.followUps && t.followUps[id].studentId == sid && u.followUps[id] != t.followUps[id]
  }

  ghost predicate RemembersVisits(before: map<Id, Visit>, after: map<Id, Visit>, sid: Id, undo: map<Id, VisitUndo>) {
    && (forall id :: id in undo <==>
          id in before && id in after && before[id].studentId == sid && after[id].status != before[id].status)
    && (forall id :: id in undo && id in before ==> undo[id] == VisitUndo(before[id].status, before[id].updatedAt))
  }

  ghost predicate RemembersItems(t: Tables, u: Tables, sid: Id, undo: map<Id, ItemUndo>) {
    && (forall id :: id in undo <==>
          id in t.items && id in u.items && t.items[id].studentId == sid && u.items[id] != t.items[id])
    && (forall id :: id in undo && id in t.items ==>
          var w := t.items[id];
          undo[id] == ItemUndo(w.status, w.owner, w.completedAt, w.handoverBatch, w.version, w.updatedAt))
  }

  lemma RowsAreChanges(t: Tables, u: Tables, now: Time, sid: Id)
    requires Closed(t, u, now) && sid in TouchedStudents(t)
    ensures RemembersExactly(t, u, sid, RowsOf(t, sid))
  {
    TouchedCoverTerminal(t);
    assert sid in TerminalStudents(t);
    FollowUpsAreChanges(t, u, sid);
    ItemsAreChanges(t, u, now, sid);
    forall k: VisitKind
      ensures RemembersVisits(VisitTable(t, k), VisitTable(u, k), sid, VisitPart(RowsOf(t, sid), k))
    {
      VisitsAreChanges(t, u, now, k, sid);
      assert VisitPart(RowsOf(t, sid), k) == VisitUndos(t, k, sid);
    }
    hide RemembersFollowUps, RemembersVisits, RemembersItems;
  }

  lemma FollowUpsAreChanges(t: Tables, u: Tables, sid: Id)
    requires u.followUps == CloseFollowUps(t.followUps, FollowUpsOf(t.followUps, TerminalStudents(t)))
    requires sid in TerminalStudents(t)
    ensures RemembersFollowUps(t, u, sid, FollowUpsOf(t.followUps, {sid}))
  {
  }

  lemma VisitsAreChanges(t: Tables, u: Tables, now: Time, k: VisitKind, sid: Id)
    requires VisitTable(u, k) == CloseVisits(VisitTable(t, k), VisitsOf(t, k, TerminalStudents(t)), now)
    requires sid in TerminalStudents(t)
    ensures RemembersVisits(VisitTable(t, k), VisitTable(u, k), sid, VisitUndos(t, k, sid))
  {
    hide Enrolling, VisitTable;
  }

  lemma ItemsAreChanges(t: Tables, u: Tables, now: Time, sid: Id)
    requires u.items == CloseItems(t.items, ItemsOf(t.items, TerminalStudents(t)), now) && sid in TerminalStudents(t)
    ensures RemembersItems(t, u, sid, ItemUndos(t.items, sid))
  {
  }

  /** Rows of students who are not terminal, work items of other kinds and earlier logs are untouched. */
  lemma OthersUntouched(t: Tables, u: Tables, now: Time)
    requires Closed(t, u, now)
    ensures forall id :: id in t.followUps && !Terminal(t.students, t.followUps[id].studentId)
              ==> id in u.followUps && u.followUps[id] == t.followUps[id]
    ensures forall k: VisitKind, id :: id in VisitTable(t, k) && !Terminal(t.students, VisitTable(t, k)[id].studentId)
              ==> id in VisitTable(u, k) && VisitTable(u, k)[id] == VisitTable(t, k)[id]
    ensures forall id ::
      id in t.items && (!Terminal(t.students, t.items[id].studentId) || t.items[id].kind !in CLOSED_KINDS) ==>
        id in u.items && u.items[id] == t.items[id]
    ensures forall l :: l in t.logs ==> l in u.logs && u.logs[l] == t.logs[l]
    ensures u.students == t.students && u.enrollments == t.enrollments
  {
    forall k: VisitKind, id | id in VisitTable(t, k) && !Terminal(t.students, VisitTable(t, k)[id].studentId)
      ensures id in VisitTable(u, k) && VisitTable(u, k)[id] == VisitTable(t, k)[id]
    {
      assert id !in VisitsOf(t, k, TouchedStudents(t));
      assert VisitTable(u, k) == CloseVisits(VisitTable(t, k), VisitsOf(t, k, TouchedStudents(t)), now);
    }
  }

  lemma NothingOpenNothingTouched(t: Tables)
    requires NothingLeftOpen(t)
    ensures TouchedStudents(t) == {}
  {
    forall sid | sid in TerminalStudents(t) ensures RowsOf(t, sid) == NO_ROWS {
      assert FollowUpsOf(t.followUps, {sid}) == {};
      assert ItemsOf(t.items, {sid}) == {};
      forall k: VisitKind ensures VisitsOf(t, k, {sid}) == {} {
        forall id ensures id !in VisitsOf(t, k, {sid}) {
        }
      }
      assert VisitUndos(t, HomeVisit, sid) == map[] && VisitUndos(t, CampusVisit, sid) == map[];
    }
  }

  lemma NobodyTouchedNothingWritten(t: Tables, u: Tables, now: Time)
    requires TouchedStudents(t) == {} && Closed(t, u, now)
    ensures u == t
  {
    forall k: VisitKind ensures VisitTable(u, k) == VisitTable(t, k) {
      assert VisitsOf(t, k, {}) == {};
      assert CloseVisits(VisitTable(t, k), {}, now) == VisitTable(t, k);
    }
    assert VisitTable(u, HomeVisit) == VisitTable(t, HomeVisit)
      && VisitTable(u, CampusVisit) == VisitTable(t, CampusVisit);
    assert u.followUps == t.followUps && u.items == t.items;
    forall l | l in u.logs ensures l in t.logs {
      if l !in t.logs {
        var sid := EntryOwner(t, TouchedStudents(t), u.logs, now, l);
      }
    }
    assert u.logs == t.logs;
  }

  /** A second close finds nothing, so it writes nothing, not even a log. */
  lemma SecondCloseWritesNothing(t: Tables, u: Tables, v: Tables, now: Time, later: Time)
    requires Closed(t, u, now) && Closed(u, v, later)
    ensures v == u
  {
    CloseLeavesNothingOpen(t, u, now);
    NothingOpenNothingTouched(u);
    NobodyTouchedNothingWritten(u, v, later);
  }

  // ---------------------------------------------------------------- filling the buckets

  /** Row ids already put into a bucket. */
  datatype Picked = Picked(followUps: set<Id>, home: set<Id>, campus: set<Id>, items: set<Id>)

  ghost function Selected(t: Tables, sids: set<Id>): Picked {
    Picked(FollowUpsOf(t.followUps, sids), VisitsOf(t, HomeVisit, sids), VisitsOf(t, CampusVisit, sids),
           ItemsOf(t.items, sids))
  }

  /** The bucket of one student after the picked rows. */
  ghost function Part(t: Tables, p: Picked, sid: Id): Rows {
    Rows(set id | id in p.followUps && id in t.followUps && t.followUps[id].studentId == sid,
         map id | id in p.home && id in t.home && t.home[id].studentId == sid :: UndoVisit(t.home[id]),
         map id | id in p.campus && id in t.campus && t.campus[id].studentId == sid :: UndoVisit(t.campus[id]),
         map id | id in p.items && id in t.items && t.items[id].studentId == sid :: UndoItem(t.items[id]))
  }

  ghost predicate Bucketed(t: Tables, touched: map<Id, Rows>, p: Picked) {
    forall sid: Id :: (sid in touched <==> Part(t, p, sid) != NO_ROWS)
      && (sid in touched ==> touched[sid] == Part(t, p, sid))
  }

  function Bucket(touched: map<Id, Rows>, sid: Id): Rows {
    if sid in touched then touched[sid] else NO_ROWS
  }

  lemma PutBucket(t: Tables, touched: map<Id, Rows>, p: Picked, q: Picked, sid: Id, r: Rows)
    requires Bucketed(t, touched, p)
    requires r == Part(t, q, sid) != NO_ROWS
    requires forall s: Id :: s != sid ==> Part(t, q, s) == Part(t, p, s)
    ensures Bucketed(t, touched[sid := r], q)
  {
  }

  lemma PutFollowUp(t: Tables, touched: map<Id, Rows>, p: Picked, id: Id)
    requires Bucketed(t, touched, p) && id in t.followUps
    ensures var sid := t.followUps[id].studentId; var r := Bucket(touched, sid);
      Bucketed(t, touched[sid := r.(followUps := r.followUps + {id})], p.(followUps := p.followUps + {id}))
  {
    var sid := t.followUps[id].studentId;
    var q := p.(followUps := p.followUps + {id});
    var r := Bucket(touched, sid);
    assert Part(t, q, sid).followUps == Part(t, p, sid).followUps + {id};
    forall s: Id | s != sid ensures Part(t, q, s) == Part(t, p, s) {
      assert Part(t, q, s).followUps == Part(t, p, s).followUps;
    }
    PutBucket(t, touched, p, q, sid, r.(followUps := r.followUps + {id}));
  }

  lemma BucketIsPart(t: Tables, touched: map<Id, Rows>, p: Picked, sid: Id)
    requires Bucketed(t, touched, p)
    ensures Bucket(touched, sid) == Part(t, p, sid)
  {
  }

  lemma PutHome(t: Tables, touched: map<Id, Rows>, p: Picked, id: Id)
    requires Bucketed(t, touched, p) && id in t.home
    ensures var sid := t.home[id].studentId; var r := Bucket(touched, sid);
      Bucketed(t, touched[sid := r.(home := r.home[id := UndoVisit(t.home[id])])], p.(home := p.home + {id}))
  {
    hide Bucketed, Bucket, UndoVisit;
    var sid := t.home[id].studentId;
    var q := p.(home := p.home + {id});
    var r := Bucket(touched, sid);
    BucketIsPart(t, touched, p, sid);
    assert Part(t, q, sid).home == Part(t, p, sid).home[id := UndoVisit(t.home[id])];
    forall s: Id | s != sid ensures Part(t, q, s) == Part(t, p, s) {
      assert Part(t, q, s).home == Part(t, p, s).home;
    }
    assert id in Part(t, q, sid).home;
    PutBucket(t, touched, p, q, sid, r.(home := r.home[id := UndoVisit(t.home[id])]));
  }

  lemma PutCampus(t: Tables, touched: map<Id, Rows>, p: Picked, id: Id)
    requires Bucketed(t, touched, p) && id in t.campus
    ensures var sid := t.campus[id].studentId; var r := Bucket(touched, sid);
      Bucketed(t, touched[sid := r.(campus := r.campus[id := UndoVisit(t.campus[id])])], p.(campus := p.campus + {id}))
  {
    hide Bucketed, Bucket, UndoVisit;
    var sid := t.campus[id].studentId;
    var q := p.(campus := p.campus + {id});
    var r := Bucket(touched, sid);
    BucketIsPart(t, touched, p, sid);
    assert Part(t, q, sid).campus == Part(t, p, sid).campus[id := UndoVisit(t.campus[id])];
    forall s: Id | s != sid ensures Part(t, q, s) == Part(t, p, s) {
      assert Part(t, q, s).campus == Part(t, p, s).campus;
    }
    assert id in Part(t, q, sid).campus;
    PutBucket(t, touched, p, q, sid, r.(campus := r.campus[id := UndoVisit(t.campus[id])]));
  }

  lemma PutItem(t: Tables, touched: map<Id, Rows>, p: Picked, id: Id)
    requires Bucketed(t, touched, p) && id in t.items
    ensures var sid := t.items[id].studentId; var r := Bucket(touched, sid);
      Bucketed(t, touched[sid := r.(items := r.items[id := UndoItem(t.items[id])])], p.(items := p.items + {id}))
  {
    hide Bucketed, Bucket, UndoItem;
    var sid := t.items[id].studentId;
    var q := p.(items := p.items + {id});
    var r := Bucket(touched, sid);
    BucketIsPart(t, touched, p, sid);
    assert Part(t, q, sid).items == Part(t, p, sid).items[id := UndoItem(t.items[id])];
    forall s: Id | s != sid ensures Part(t, q, s) == Part(t, p, s) {
      assert Part(t, q, s).items == Part(t, p, s).items;
    }
    assert id in Part(t, q, sid).items;
    PutBucket(t, touched, p, q, sid, r.(items := r.items[id := UndoItem(t.items[id])]));
  }

  /** Once every selected row of the terminal students is picked, the buckets are their undo data. */
  lemma BucketsComplete(t: Tables, touched: map<Id, Rows>)
    requires Bucketed(t, touched, Selected(t, TerminalStudents(t)))
    ensures touched == map sid | sid in TouchedStudents(t) :: RowsOf(t, sid)
  {
    var p := Selected(t, TerminalStudents(t));
    forall sid: Id ensures Part(t, p, sid) == if sid in TerminalStudents(t) then RowsOf(t, sid) else NO_ROWS {
      PartOfSelected(t, sid);
    }
  }

  lemma PartOfSelected(t: Tables, sid: Id)
    ensures Part(t, Selected(t, TerminalStudents(t)), sid) ==
      if sid in TerminalStudents(t) then RowsOf(t, sid) else NO_ROWS
  {
    hide ItemToClose, VisitToClose;
    var part := Part(t, Selected(t, TerminalStudents(t)), sid);
    if sid in TerminalStudents(t) {
      assert part.followUps == FollowUpsOf(t.followUps, {sid});
      assert part.home == VisitUndos(t, HomeVisit, sid);
      assert part.campus == VisitUndos(t, CampusVisit, sid);
      assert part.items == ItemUndos(t.items, sid);
    } else {
      assert part.home == map[] && part.campus == map[] && part.items == map[];
    }
  }

  // ---------------------------------------------------------------- one student at a time

  /** Closing the rows of one more student extends what was closed for the students before. */
  lemma CloseVisitsOneMore(t: Tables, k: VisitKind, sids: set<Id>, sid: Id, now: Time)
    requires sid !in sids
    ensures var once := CloseVisits(VisitTable(t, k), VisitsOf(t, k, sids), now);
      CloseVisits(once, VisitPart(RowsOf(t, sid), k).Keys, now)
        == CloseVisits(VisitTable(t, k), VisitsOf(t, k, sids + {sid}), now)
  {
    hide VisitToClose, CloseVisit, VisitTable;
    assert VisitPart(RowsOf(t, sid), k).Keys == VisitsOf(t, k, {sid});
    assert VisitsOf(t, k, sids + {sid}) == VisitsOf(t, k, sids) + VisitsOf(t, k, {sid});
    assert VisitsOf(t, k, sids) !! VisitsOf(t, k, {sid});
  }

  lemma CloseOneMore(t: Tables, sids: set<Id>, sid: Id, now: Time)
    requires sid !in sids
    ensures CloseFollowUps(CloseFollowUps(t.followUps, FollowUpsOf(t.followUps, sids)), RowsOf(t, sid).followUps)
         == CloseFollowUps(t.followUps, FollowUpsOf(t.followUps, sids + {sid}))
    ensures forall k: VisitKind ::
         CloseVisits(CloseVisits(VisitTable(t, k), VisitsOf(t, k, sids), now), VisitPart(RowsOf(t, sid), k).Keys, now)
         == CloseVisits(VisitTable(t, k), VisitsOf(t, k, sids + {sid}), now)
    ensures CloseItems(CloseItems(t.items, ItemsOf(t.items, sids), now), RowsOf(t, sid).items.Keys, now)
         == CloseItems(t.items, ItemsOf(t.items, sids + {sid}), now)
  {
    hide ItemToClose, CloseItem, CloseVisits, VisitsOf, VisitTable, VisitPart;
    assert FollowUpsOf(t.followUps, sids + {sid}) == FollowUpsOf(t.followUps, sids) + FollowUpsOf(t.followUps, {sid});
    assert ItemsOf(t.items, sids + {sid}) == ItemsOf(t.items, sids) + ItemsOf(t.items, {sid});
    forall k: VisitKind {
      CloseVisitsOneMore(t, k, sids, sid, now);
    }
  }

  lemma LoggedOneMore(t: Tables, logs: map<Id, Log>, s: Id, sid: Id, l: Id, entry: Log)
    requires l !in logs && l !in t.logs && entry.targetStudent == Some(sid)
    requires if s == sid then forall k :: k in logs && k !in t.logs ==> logs[k].targetStudent != Some(sid)
             else LoggedOnce(t, logs, s)
    ensures LoggedOnce(t, logs[l := entry], s)
  {
    var more := logs[l := entry];
    if s == sid {
      assert more[l].targetStudent == Some(sid);
    } else {
      var k :| k in logs && k !in t.logs && logs[k].targetStudent == Some(s)
        && forall j :: j in logs && j !in t.logs && logs[j].targetStudent == Some(s) ==> j == k;
      assert more[k] == logs[k];
    }
  }

  lemma NoEntryYet(t: Tables, sids: set<Id>, logs: map<Id, Log>, now: Time, sid: Id)
    requires Logged(t, sids, logs, now) && sid !in sids
    ensures forall k :: k in logs && k !in t.logs ==> logs[k].targetStudent != Some(sid)
  {
    forall k | k in logs && k !in t.logs ensures logs[k].targetStudent != Some(sid) {
      assert ClosingEntry(t, sids, logs[k], now);
    }
  }

  lemma EntryForMore(t: Tables, sids: set<Id>, more: set<Id>, entry: Log, now: Time)
    requires ClosingEntry(t, sids, entry, now) && sids <= more
    ensures ClosingEntry(t, more, entry, now)
  {
    var s :| s in sids && s in t.students && entry == ClosingLog(t, s, now);
    assert s in more;
  }

  lemma EntryOf(t: Tables, sid: Id, entry: Log, now: Time)
    requires sid in t.students && entry == ClosingLog(t, sid, now)
    ensures ClosingEntry(t, {sid}, entry, now)
  {
    assert sid in {sid};
  }

  lemma LogOneMoreOnce(t: Tables, sids: set<Id>, logs: map<Id, Log>, now: Time, sid: Id, l: Id, entry: Log)
    requires Logged(t, sids, logs, now) && sid !in sids && l !in logs && entry.targetStudent == Some(sid)
    ensures forall s :: s in sids + {sid} ==> LoggedOnce(t, logs[l := entry], s)
  {
    NoEntryYet(t, sids, logs, now, sid);
    forall s | s in sids + {sid} ensures LoggedOnce(t, logs[l := entry], s) {
      LoggedOneMore(t, logs, s, sid, l, entry);
    }
  }

  lemma LogOneMore(t: Tables, sids: set<Id>, logs: map<Id, Log>, now: Time, sid: Id, l: Id, entry: Log)
    requires Logged(t, sids, logs, now) && sid !in sids && sid in t.students && l !in logs
    requires entry.targetStudent == Some(sid) && ClosingEntry(t, {sid}, entry, now)
    ensures Logged(t, sids + {sid}, logs[l := entry], now)
  {
    hide ClosingEntry, LoggedOnce;
    LogOneMoreOnce(t, sids, logs, now, sid, l, entry);
    var more := logs[l := entry];
    forall k | k in more && k !in t.logs ensures ClosingEntry(t, sids + {sid}, more[k], now) {
      EntryForMore(t, if k == l then {sid} else sids, sids + {sid}, more[k], now);
    }
  }

  // ---------------------------------------------------------------- undoing one entry more

  lemma FollowUpsOneMore(before: map<Id, FollowUp>, after: map<Id, FollowUp>, rows: set<Rows>, r: Rows)
    requires FollowUpsFrom(before, after, rows)
    ensures FollowUpsFrom(before, RestoreFollowUps(after, r.followUps), rows + {r})
  {
    var more := rows + {r};
    assert r in more && forall w :: w in rows ==> w in more;
  }

  lemma VisitsOneMore(before: map<Id, Visit>, after: map<Id, Visit>, k: VisitKind, rows: set<Rows>, r: Rows)
    requires VisitsFrom(before, after, k, rows)
    ensures VisitsFrom(before, RestoreVisits(after, VisitPart(r, k)), k, rows + {r})
  {
    hide VisitFrom, RestoreVisit, VisitPart;
    forall id | id in before {
      VisitOneMore(before[id], after[id], id, k, rows, r);
    }
  }

  lemma VisitOneMore(before: Visit, after: Visit, id: Id, k: VisitKind, rows: set<Rows>, r: Rows)
    requires VisitFrom(before, after, id, k, rows)
    ensures var next := if id in VisitPart(r, k) then RestoreVisit(after, VisitPart(r, k)[id]) else after;
      VisitFrom(before, next, id, k, rows + {r})
  {
    assert r in rows + {r} && forall w :: w in rows ==> w in rows + {r};
  }

  lemma ItemsOneMore(before: map<Id, WorkItem>, after: map<Id, WorkItem>, rows: set<Rows>, r: Rows)
    requires ItemsFrom(before, after, rows)
    ensures ItemsFrom(before, RestoreItems(after, r.items), rows + {r})
  {
    hide ItemFrom, RestoreItem;
    forall id | id in before {
      ItemOneMore(before[id], after[id], id, rows, r);
    }
  }

  lemma ItemOneMore(before: WorkItem, after: WorkItem, id: Id, rows: set<Rows>, r: Rows)
    requires ItemFrom(before, after, id, rows)
    ensures ItemFrom(before, if id in r.items then RestoreItem(after, r.items[id]) else after, id, rows + {r})
  {
    assert r in rows + {r} && forall w :: w in rows ==> w in rows + {r};
  }

  // ---------------------------------------------------------------- the migration

  datatype Report = Report(students: nat, followUps: nat, home: nat, campus: nat, items: nat)

  /** The counters close reports, for the students logged so far. */
  ghost function ReportOf(t: Tables, sids: set<Id>): Report {
    Report(|sids|, |FollowUpsOf(t.followUps, sids)|, |VisitsOf(t, HomeVisit, sids)|, |VisitsOf(t, CampusVisit, sids)|,
           |ItemsOf(t.items, sids)|)
  }

  function Changed<T(==)>(before: map<Id, T>, after: map<Id, T>): set<Id> {
    set id | id in before && id in after && after[id] != before[id]
  }

  /** The report counts the students with a row that changed, and the changed rows of each table. */
  lemma ReportIsTrue(t: Tables, u: Tables, now: Time)
    requires Closed(t, u, now)
    ensures ReportOf(t, TouchedStudents(t)) == Report(
      |StudentsChanged(t, u)|, |Changed(t.followUps, u.followUps)|,
      |set id | id in t.home && id in u.home && u.home[id].status != t.home[id].status|,
      |set id | id in t.campus && id in u.campus && u.campus[id].status != t.campus[id].status|,
      |Changed(t.items, u.items)|)
  {
    TouchedCoverTerminal(t);
    FollowUpsChanged(t, u, now);
    ItemsChanged(t, u, now);
    VisitsChanged(t, u, now, HomeVisit);
    VisitsChanged(t, u, now, CampusVisit);
    TouchedAreChanged(t, u, now);
    hide Closed, Changed, FollowUpsOf, VisitsOf, ItemsOf, TouchedStudents, TerminalStudents, StudentsChanged;
  }

  /** Students with a follow-up, visit or item that close changed. */
  ghost function StudentsChanged(t: Tables, u: Tables): set<Id> {
    set sid | sid in t.students
      && ((exists id :: id in Changed(t.followUps, u.followUps) && t.followUps[id].studentId == sid)
          || (exists k: VisitKind, id :: id in VisitTable(t, k) && id in VisitTable(u, k)
                && VisitTable(u, k)[id].status != VisitTable(t, k)[id].status && VisitTable(t, k)[id].studentId == sid)
          || (exists id :: id in Changed(t.items, u.items) && t.items[id].studentId == sid))
  }

  lemma TouchedAreChanged(t: Tables, u: Tables, now: Time)
    requires Closed(t, u, now)
    ensures StudentsChanged(t, u) == TouchedStudents(t)
  {
    FollowUpsChanged(t, u, now);
    ItemsChanged(t, u, now);
    VisitsChanged(t, u, now, HomeVisit);
    VisitsChanged(t, u, now, CampusVisit);
    forall sid | sid in TouchedStudents(t) ensures sid in StudentsChanged(t, u) {
      TouchedHasChange(t, u, now, sid);
    }
    hide Closed, Changed;
    forall sid | sid in StudentsChanged(t, u) ensures sid in TouchedStudents(t) {
      ChangeIsTouched(t, u, now, sid);
    }
  }

  lemma TouchedHasChange(t: Tables, u: Tables, now: Time, sid: Id)
    requires Closed(t, u, now) && sid in TouchedStudents(t)
    ensures sid in StudentsChanged(t, u)
  {
    RowsAreChanges(t, u, now, sid);
    var r := RowsOf(t, sid);
    assert r != NO_ROWS && sid in t.students;
    assert RemembersVisits(VisitTable(t, HomeVisit), VisitTable(u, HomeVisit), sid, VisitPart(r, HomeVisit));
    assert RemembersVisits(VisitTable(t, CampusVisit), VisitTable(u, CampusVisit), sid, VisitPart(r, CampusVisit));
    hide Closed, RowsOf, TouchedStudents;
    if r.followUps != {} {
      var id :| id in r.followUps;
      assert id in Changed(t.followUps, u.followUps);
    } else if r.items != map[] {
      var id :| id in r.items;
      assert id in Changed(t.items, u.items);
    } else if r.home != map[] {
      var id :| id in r.home;
      assert id in VisitTable(t, HomeVisit);
    } else {
      var id :| id in r.campus;
      assert id in VisitTable(t, CampusVisit);
    }
  }

  lemma ChangeIsTouched(t: Tables, u: Tables, now: Time, sid: Id)
    requires Closed(t, u, now) && sid in StudentsChanged(t, u)
    ensures sid in TouchedStudents(t)
  {
    FollowUpsChanged(t, u, now);
    ItemsChanged(t, u, now);
    hide Closed, Changed, TouchedStudents;
    if id :| id in Changed(t.followUps, u.followUps) && t.followUps[id].studentId == sid {
      assert id in FollowUpsOf(t.followUps, TouchedStudents(t));
    } else if id :| id in Changed(t.items, u.items) && t.items[id].studentId == sid {
      assert id in ItemsOf(t.items, TouchedStudents(t));
    } else {
      var k: VisitKind, id :| id in VisitTable(t, k) && id in VisitTable(u, k)
        && VisitTable(u, k)[id].status != VisitTable(t, k)[id].status && VisitTable(t, k)[id].studentId == sid;
      VisitsChanged(t, u, now, k);
      assert id in VisitsOf(t, k, TouchedStudents(t));
    }
  }

  lemma FollowUpsChanged(t: Tables, u: Tables, now: Time)
    requires Closed(t, u, now)
    ensures Changed(t.followUps, u.followUps) == FollowUpsOf(t.followUps, TouchedStudents(t))
  {
    hide TouchedStudents;
  }

  lemma ItemsChanged(t: Tables, u: Tables, now: Time)
    requires Closed(t, u, now)
    ensures Changed(t.items, u.items) == ItemsOf(t.items, TouchedStudents(t))
  {
    hide TouchedStudents;
  }

  lemma VisitsChanged(t: Tables, u: Tables, now: Time, k: VisitKind)
    requires Closed(t, u, now)
    ensures (set id | id in VisitTable(t, k) && id in VisitTable(u, k)
              && VisitTable(u, k)[id].status != VisitTable(t, k)[id].status) == VisitsOf(t, k, TouchedStudents(t))
  {
    assert VisitTable(u, k) == CloseVisits(VisitTable(t, k), VisitsOf(t, k, TouchedStudents(t)), now);
    hide TouchedStudents, Closed, Enrolling;
  }

  lemma CountOneMore(a: set<Id>, b: set<Id>, c: set<Id>)
    requires c == a + b && a !! b
    ensures |c| == |a| + |b|
  {
  }

  lemma FollowUpCount(t: Tables, sids: set<Id>, sid: Id)
    requires sid !in sids
    ensures |FollowUpsOf(t.followUps, sids + {sid})| == |FollowUpsOf(t.followUps, sids)| + |RowsOf(t, sid).followUps|
  {
    hide ItemToClose, VisitToClose;
    CountOneMore(FollowUpsOf(t.followUps, sids), FollowUpsOf(t.followUps, {sid}),
                 FollowUpsOf(t.followUps, sids + {sid}));
  }

  lemma VisitCount(t: Tables, k: VisitKind, sids: set<Id>, sid: Id)
    requires sid !in sids
    ensures |VisitsOf(t, k, sids + {sid})| == |VisitsOf(t, k, sids)| + |VisitUndos(t, k, sid)|
  {
    hide ItemToClose, VisitToClose;
    assert VisitUndos(t, k, sid).Keys == VisitsOf(t, k, {sid});
    CountOneMore(VisitsOf(t, k, sids), VisitsOf(t, k, {sid}), VisitsOf(t, k, sids + {sid}));
  }

  lemma ItemCount(t: Tables, sids: set<Id>, sid: Id)
    requires sid !in sids
    ensures |ItemsOf(t.items, sids + {sid})| == |ItemsOf(t.items, sids)| + |ItemUndos(t.items, sid)|
  {
    hide ItemToClose, VisitToClose, UndoItem;
    assert ItemUndos(t.items, sid).Keys == ItemsOf(t.items, {sid});
    CountOneMore(ItemsOf(t.items, sids), ItemsOf(t.items, {sid}), ItemsOf(t.items, sids + {sid}));
  }

  function CountRows(report: Report, r: Rows): Report {
    Report(report.students + 1, report.followUps + |r.followUps|, report.home + |r.home|,
           report.campus + |r.campus|, report.items + |r.items|)
  }

  lemma ReportOneMore(t: Tables, sids: set<Id>, sid: Id)
    requires sid !in sids
    ensures ReportOf(t, sids + {sid}) == CountRows(ReportOf(t, sids), RowsOf(t, sid))
  {
    FollowUpCount(t, sids, sid);
    VisitCount(t, HomeVisit, sids, sid);
    VisitCount(t, CampusVisit, sids, sid);
    ItemCount(t, sids, sid);
  }

  // ---- the selects of close, row by row

  method PickFollowUps(t: Tables, chunk: set<Id>, before: map<Id, Rows>, ghost p: Picked)
    returns (touched: map<Id, Rows>)
    requires Bucketed(t, before, p)
    ensures Bucketed(t, touched, p.(followUps := p.followUps + FollowUpsOf(t.followUps, chunk)))
  {
    touched := before;
    ghost var q := p;
    var rest := FollowUpsOf(t.followUps, chunk);
    while rest != {}
      invariant rest <= FollowUpsOf(t.followUps, chunk) && Bucketed(t, touched, q)
      invariant q == p.(followUps := p.followUps + (FollowUpsOf(t.followUps, chunk) - rest))
    {
      var id :| id in rest;
      var sid := t.followUps[id].studentId;
      var r := Bucket(touched, sid);
      PutFollowUp(t, touched, q, id);
      touched := touched[sid := r.(followUps := r.followUps + {id})];
      q, rest := q.(followUps := q.followUps + {id}), rest - {id};
    }
  }

  ghost function PickedVisits(p: Picked, k: VisitKind, ids: set<Id>): Picked {
    if k == HomeVisit then p.(home := p.home + ids) else p.(campus := p.campus + ids)
  }

  method PickVisits(t: Tables, k: VisitKind, chunk: set<Id>, before: map<Id, Rows>, ghost p: Picked)
    returns (touched: map<Id, Rows>)
    requires Bucketed(t, before, p)
    ensures Bucketed(t, touched, PickedVisits(p, k, VisitsOf(t, k, chunk)))
  {
    touched := before;
    ghost var q := p;
    var chosen := VisitsOf(t, k, chunk);
    var rest := chosen;
    assert q == PickedVisits(p, k, chosen - rest);
    while rest != {}
      invariant rest <= chosen && Bucketed(t, touched, q) && q == PickedVisits(p, k, chosen - rest)
    {
      var id :| id in rest;
      var sid := VisitTable(t, k)[id].studentId;
      var r := Bucket(touched, sid);
      if k == HomeVisit {
        PutHome(t, touched, q, id);
        touched := touched[sid := r.(home := r.home[id := UndoVisit(t.home[id])])];
        q := q.(home := q.home + {id});
      } else {
        PutCampus(t, touched, q, id);
        touched := touched[sid := r.(campus := r.campus[id := UndoVisit(t.campus[id])])];
        q := q.(campus := q.campus + {id});
      }
      assert chosen - (rest - {id}) == (chosen - rest) + {id};
      rest := rest - {id};
      assert q == PickedVisits(p, k, chosen - rest);
    }
    assert chosen - rest == chosen;
  }

  method PickItems(t: Tables, chunk: set<Id>, before: map<Id, Rows>, ghost p: Picked) returns (touched: map<Id, Rows>)
    requires Bucketed(t, before, p)
    ensures Bucketed(t, touched, p.(items := p.items + ItemsOf(t.items, chunk)))
  {
    touched := before;
    ghost var q := p;
    var chosen := ItemsOf(t.items, chunk);
    var rest := chosen;
    while rest != {}
      invariant rest <= chosen && Bucketed(t, touched, q) && q == p.(items := p.items + (chosen - rest))
    {
      var id :| id in rest;
      var sid := t.items[id].studentId;
      var r := Bucket(touched, sid);
      PutItem(t, touched, q, id);
      touched := touched[sid := r.(items := r.items[id := UndoItem(t.items[id])])];
      assert chosen - (rest - {id}) == (chosen - rest) + {id};
      q, rest := q.(items := q.items + {id}), rest - {id};
    }
    assert chosen - rest == chosen;
  }

  lemma SelectedUnion(t: Tables, sids: set<Id>, chunk: set<Id>)
    ensures Selected(t, sids + chunk) == (
      var p := Selected(t, sids);
      Picked(p.followUps + FollowUpsOf(t.followUps, chunk), p.home + VisitsOf(t, HomeVisit, chunk),
             p.campus + VisitsOf(t, CampusVisit, chunk), p.items + ItemsOf(t.items, chunk)))
  {
  }

  /** The rows of one chunk of students, put into their buckets. */
  method PickChunk(t: Tables, chunk: set<Id>, before: map<Id, Rows>, ghost sids: set<Id>)
    returns (touched: map<Id, Rows>)
    requires Bucketed(t, before, Selected(t, sids))
    ensures Bucketed(t, touched, Selected(t, sids + chunk))
  {
    ghost var p := Selected(t, sids);
    SelectedUnion(t, sids, chunk);
    touched := PickFollowUps(t, chunk, before, p);
    p := p.(followUps := p.followUps + FollowUpsOf(t.followUps, chunk));
    touched := PickVisits(t, HomeVisit, chunk, touched, p);
    p := PickedVisits(p, HomeVisit, VisitsOf(t, HomeVisit, chunk));
    touched := PickVisits(t, CampusVisit, chunk, touched, p);
    p := PickedVisits(p, CampusVisit, VisitsOf(t, CampusVisit, chunk));
    touched := PickItems(t, chunk, touched, p);
  }

  function Slice(ids: seq<Id>, from: nat, to: nat): set<Id>
    requires from <= to <= |ids|
  {
    set i | from <= i < to :: ids[i]
  }

  lemma SlicesJoin(ids: seq<Id>, mid: nat, to: nat)
    requires mid <= to <= |ids|
    ensures Slice(ids, 0, mid) + Slice(ids, mid, to) == Slice(ids, 0, to)
  {
  }

  lemma WholeSlice(ids: seq<Id>, s: set<Id>)
    requires forall x :: x in ids <==> x in s
    ensures Slice(ids, 0, |ids|) == s
  {
    forall x | x in s ensures x in Slice(ids, 0, |ids|) {
      assert x in ids;
    }
  }

  lemma NothingSelected(t: Tables, ids: seq<Id>)
    ensures Bucketed(t, map[], Selected(t, Slice(ids, 0, 0)))
  {
    assert Selected(t, Slice(ids, 0, 0)) == Picked({}, {}, {}, {});
  }

  /** The first half of close: chunk by chunk, remember what each terminal student will lose. */
  method Gather(t: Tables) returns (touched: map<Id, Rows>)
    ensures touched == map sid | sid in TouchedStudents(t) :: RowsOf(t, sid)
  {
    hide Selected, Bucketed, TouchedStudents, RowsOf, Slice, TerminalStudents;
    var ids := Listing(TerminalStudents(t));
    touched := map[];
    var at := 0;
    NothingSelected(t, ids);
    while at < |ids|
      invariant 0 <= at <= |ids|
      invariant Bucketed(t, touched, Selected(t, Slice(ids, 0, at)))
    {
      var end := if at + CHUNK < |ids| then at + CHUNK else |ids|;
      touched := PickChunk(t, Slice(ids, at, end), touched, Slice(ids, 0, at));
      SlicesJoin(ids, at, end);
      at := end;
    }
    WholeSlice(ids, TerminalStudents(t));
    BucketsComplete(t, touched);
  }

  /** The updates and the log entry of one student extend what was closed for the students before. */
  lemma StudentClosed(t: Tables, done: set<Id>, u: Tables, sid: Id, now: Time, l: Id, entry: Log, v: Tables)
    requires ClosedFor(t, done, u, now) && sid !in done && sid in t.students
    requires entry == ClosingLog(t, sid, now) && l !in u.logs
    requires var rows := RowsOf(t, sid);
      v == u.(followUps := CloseFollowUps(u.followUps, rows.followUps),
              home := CloseVisits(u.home, rows.home.Keys, now),
              campus := CloseVisits(u.campus, rows.campus.Keys, now),
              items := CloseItems(u.items, rows.items.Keys, now),
              logs := u.logs[l := entry])
    ensures ClosedFor(t, done + {sid}, v, now)
  {
    EntryOf(t, sid, entry, now);
    LogOneMore(t, done, u.logs, now, sid, l, entry);
    CloseOneMore(t, done, sid, now);
    hide Logged, RowsOf, ClosingLog, CloseFollowUps, CloseVisits, CloseItems;
    forall k: VisitKind
      ensures VisitTable(v, k) == CloseVisits(VisitTable(t, k), VisitsOf(t, k, done + {sid}), now)
    {
      assert VisitTable(v, k) == CloseVisits(VisitTable(u, k), VisitPart(RowsOf(t, sid), k).Keys, now);
    }
  }

  class Connection {
    var students: map<Id, Student>
    var followUps: map<Id, FollowUp>
    var home: map<Id, Visit>
    var campus: map<Id, Visit>
    var items: map<Id, WorkItem>
    var enrollments: map<Id, Enrollment>
    var logs: map<Id, Log>

    function Now(): Tables
      reads this
    {
      Tables(students, followUps, home, campus, items, enrollments, logs)
    }

    constructor (t: Tables)
      ensures Now() == t
    {
      students, followUps, home, campus := t.students, t.followUps, t.home, t.campus;
      items, enrollments, logs := t.items, t.enrollments, t.logs;
    }

    /** close_terminal_students_tasks */
    method Close(now: Time) returns (report: Report)
      modifies this
      ensures Closed(old(Now()), Now(), now)
      ensures report == ReportOf(old(Now()), TouchedStudents(old(Now())))
    {
      hide ReportOf, RowsOf, ClosedFor;
      var touched := Gather(Now());
      assert touched.Keys == TouchedStudents(Now());
      report := CloseTouched(touched, now, Now());
    }

    /** The second half of close: student by student, update the rows and write the log. */
    method CloseTouched(touched: map<Id, Rows>, now: Time, ghost t: Tables) returns (report: Report)
      requires Now() == t && touched.Keys <= TerminalStudents(t)
      requires forall sid :: sid in touched ==> touched[sid] == RowsOf(t, sid)
      modifies this
      ensures ClosedFor(t, touched.Keys, Now(), now) && report == ReportOf(t, touched.Keys)
    {
      hide ReportOf, RowsOf, ClosedFor, CountRows, TerminalStudents;
      report := Report(0, 0, 0, 0, 0);
      var rest := touched.Keys;
      ghost var done: set<Id> := {};
      NothingClosedYet(t, now);
      while rest != {}
        invariant rest <= touched.Keys && done !! rest && done + rest == touched.Keys
        invariant ClosedFor(t, done, Now(), now) && report == ReportOf(t, done)
      {
        var sid :| sid in rest;
        rest := rest - {sid};
        ReportOneMore(t, done, sid);
        report := CountRows(report, touched[sid]);
        CloseStudent(sid, touched[sid], now, t, done);
        done := done + {sid};
      }
      assert done == touched.Keys;
    }

    /** The updates and the log entry of one student. */
    method CloseStudent(sid: Id, rows: Rows, now: Time, ghost t: Tables, ghost done: set<Id>)
      requires ClosedFor(t, done, Now(), now) && sid !in done
      requires sid in TerminalStudents(t) && rows == RowsOf(t, sid)
      modifies this
      ensures ClosedFor(t, done + {sid}, Now(), now)
    {
      followUps := CloseFollowUps(followUps, rows.followUps);
      home := CloseVisits(home, rows.home.Keys, now);
      campus := CloseVisits(campus, rows.campus.Keys, now);
      items := CloseItems(items, rows.items.Keys, now);
      var s := students[sid];
      var entry := Log(OPERATOR, Some(sid), if s.caseNo.Some? then s.caseNo.value else "", ACTION,
                       Closing(if s.status == "enrolled" then "已报名" else "无效",
                               |rows.followUps|, |rows.home|, |rows.campus|, |rows.items|),
                       Undo(rows), BATCH, now);
      var l := FreshId(logs.Keys);
      logs := logs[l := entry];
      StudentClosed(t, done, old(Now()), sid, now, l, entry, Now());
    }

    /** reopen_terminal_students_tasks; an entry of this batch whose note is not undo data raises, and the
        transaction is rolled back. */
    method Reopen() returns (result: Result<nat, string>)
      modifies this
      ensures result.Ok? <==> AllUndo(old(logs), MyLogs(old(logs)))
      ensures result.Ok? ==> Reopened(old(Now()), Now()) && result.value == |MyLogs(old(logs))|
      ensures result.Err? ==> Now() == old(Now())
    {
      hide ReopenedBy, RestoreRows, AllUndo, Reopening, Reopened, MyLogs;
      ghost var t := Now();
      var mine := MyLogs(logs);
      var rest := mine;
      var u := Now();
      ghost var done: set<Id> := {};
      NothingReopenedYet(t);
      MineAreLogs(logs);
      while rest != {}
        invariant rest <= mine && forall l :: l in mine <==> l in rest || l in done
        invariant Reopening(t, done, u) && Now() == t
      {
        var l :| l in rest;
        if !logs[l].note.Undo? {
          NotUndo(logs, mine, l);
          return Err("note is not undo data");
        }
        ReopenOneMore(t, done, u, l);
        u := RestoreRows(u, logs[l].note.rows);
        rest, done := rest - {l}, done + {l};
      }
      assert done == mine;
      followUps, home, campus, items := u.followUps, u.home, u.campus, u.items;
      logs := map l | l in logs && !Mine(logs[l]) :: logs[l];
      ReopenedRows(t, u, Now());
      return Ok(|mine|);
    }
  }

  lemma MineAreLogs(logs: map<Id, Log>)
    ensures MyLogs(logs) <= logs.Keys
  {
  }

  lemma NotUndo(logs: map<Id, Log>, ids: set<Id>, l: Id)
    requires l in ids && l in logs && !logs[l].note.Undo?
    ensures !AllUndo(logs, ids)
  {
  }

  /** The rows of some entries are restored. */
  ghost predicate Reopening(t: Tables, done: set<Id>, u: Tables) {
    AllUndo(t.logs, done) && ReopenedBy(t, RowsIn(t.logs, done), u)
  }

  /** The updates one undo entry performs. */
  function RestoreRows(t: Tables, r: Rows): Tables {
    t.(followUps := RestoreFollowUps(t.followUps, r.followUps), home := RestoreVisits(t.home, r.home),
       campus := RestoreVisits(t.campus, r.campus), items := RestoreItems(t.items, r.items))
  }

  lemma NothingReopenedYet(t: Tables)
    ensures Reopening(t, {}, t)
  {
  }

  lemma ReopenedRows(t: Tables, u: Tables, v: Tables)
    requires Reopening(t, MyLogs(t.logs), u)
    requires v == t.(followUps := u.followUps, home := u.home, campus := u.campus, items := u.items, logs := v.logs)
    requires v.logs == map l | l in t.logs && !Mine(t.logs[l]) :: t.logs[l]
    ensures AllUndo(t.logs, MyLogs(t.logs)) && Reopened(t, v)
  {
    var rows := RowsIn(t.logs, MyLogs(t.logs));
    forall k: VisitKind ensures VisitsFrom(VisitTable(t, k), VisitTable(v, k), k, rows) {
      assert VisitTable(v, k) == VisitTable(u, k);
    }
  }

  lemma ReopenOneMore(t: Tables, done: set<Id>, u: Tables, l: Id)
    requires Reopening(t, done, u) && l in t.logs && t.logs[l].note.Undo?
    ensures Reopening(t, done + {l}, RestoreRows(u, t.logs[l].note.rows))
  {
    hide FollowUpsFrom, VisitsFrom, ItemsFrom;
    var rows, r := RowsIn(t.logs, done), t.logs[l].note.rows;
    assert RowsIn(t.logs, done + {l}) == rows + {r};
    FollowUpsOneMore(t.followUps, u.followUps, rows, r);
    ItemsOneMore(t.items, u.items, rows, r);
    forall k: VisitKind
      ensures VisitsFrom(VisitTable(t, k), VisitTable(RestoreRows(u, r), k), k, rows + {r})
    {
      VisitsOneMore(VisitTable(t, k), VisitTable(u, k), k, rows, r);
    }
  }

  lemma NothingClosedYet(t: Tables, now: Time)
    ensures ClosedFor(t, {}, t, now) && ReportOf(t, {}) == Report(0, 0, 0, 0, 0)
  {
    assert FollowUpsOf(t.followUps, {}) == {} && ItemsOf(t.items, {}) == {};
    assert CloseFollowUps(t.followUps, {}) == t.followUps && CloseItems(t.items, {}, now) == t.items;
    forall k: VisitKind ensures VisitsOf(t, k, {}) == {} && CloseVisits(VisitTable(t, k), {}, now) == VisitTable(t, k) {
    }
  }

  /** Upgrade then downgrade, as one migration run performs them: every table is back to its old value
      exactly when no earlier log of this batch was there. */
  method UpgradeDowngrade(c: Connection, now: Time) returns (result: Result<nat, string>)
    modifies c
    ensures NoEarlierLog(old(c.Now())) ==> result == Ok(|TouchedStudents(old(c.Now()))|)
    ensures result.Ok? ==> (c.Now() == old(c.Now()) <==> NoEarlierLog(old(c.Now())))
  {
    ghost var t := c.Now();
    var report := c.Close(now);
    ghost var u := c.Now();
    if NoEarlierLog(t) {
      EntriesAreRows(t, TouchedStudents(t), u.logs, now);
      OneEntryEach(t, TouchedStudents(t), u.logs, now);
    }
    result := c.Reopen();
    if result.Ok? {
      ReopenUndoesClose(t, u, c.Now(), now);
    }
  }

  lemma {:induction false} OneEntryEach(t: Tables, sids: set<Id>, logs: map<Id, Log>, now: Time)
    requires NoEarlierLog(t) && Logged(t, sids, logs, now)
    ensures |MyLogs(logs)| == |sids|
    decreases sids
  {
    if sids == {} {
      forall l ensures l !in MyLogs(logs) {
        if l in MyLogs(logs) {
          var sid := EntryOwner(t, sids, logs, now, l);
        }
      }
      assert MyLogs(logs) == {};
    } else {
      hide Logged, LoggedOnce, RowsOf;
      var sid :| sid in sids;
      var l := OnlyEntry(t, sids, logs, now, sid);
      var fewer := map k | k in logs && k != l :: logs[k];
      FewerEntries(t, sids, logs, now, sid, l, fewer);
      OneEntryEach(t, sids - {sid}, fewer, now);
      assert MyLogs(logs) == MyLogs(fewer) + {l};
    }
  }

  lemma OnlyEntry(t: Tables, sids: set<Id>, logs: map<Id, Log>, now: Time, sid: Id) returns (l: Id)
    requires Logged(t, sids, logs, now) && sid in sids
    ensures l in logs && l !in t.logs && logs[l].targetStudent == Some(sid) && Mine(logs[l])
    ensures forall k :: k in logs && k !in t.logs && logs[k].targetStudent == Some(sid) ==> k == l
  {
    assert LoggedOnce(t, logs, sid);
    l :| l in logs && l !in t.logs && logs[l].targetStudent == Some(sid)
      && forall k :: k in logs && k !in t.logs && logs[k].targetStudent == Some(sid) ==> k == l;
    var owner := EntryOwner(t, sids, logs, now, l);
  }

  lemma FewerEntries(t: Tables, sids: set<Id>, logs: map<Id, Log>, now: Time, sid: Id, l: Id, fewer: map<Id, Log>)
    requires Logged(t, sids, logs, now) && sid in sids && l in logs && l !in t.logs
    requires forall k :: k in logs && k !in t.logs && logs[k].targetStudent == Some(sid) ==> k == l
    requires logs[l].targetStudent == Some(sid) && fewer == map k | k in logs && k != l :: logs[k]
    ensures Logged(t, sids - {sid}, fewer, now)
  {
    forall k | k in fewer && k !in t.logs ensures ClosingEntry(t, sids - {sid}, fewer[k], now) {
      assert ClosingEntry(t, sids, logs[k], now);
      StillAnEntry(t, sids, logs[k], now, sid);
    }
    forall s | s in sids - {sid} ensures LoggedOnce(t, fewer, s) {
      assert LoggedOnce(t, logs, s);
      StillLoggedOnce(t, logs, s, l, fewer);
    }
  }

  lemma StillAnEntry(t: Tables, sids: set<Id>, entry: Log, now: Time, sid: Id)
    requires ClosingEntry(t, sids, entry, now) && entry.targetStudent != Some(sid)
    ensures ClosingEntry(t, sids - {sid}, entry, now)
  {
    var s :| s in sids && s in t.students && entry == ClosingLog(t, s, now);
    assert s in sids - {sid};
  }

  lemma StillLoggedOnce(t: Tables, logs: map<Id, Log>, s: Id, l: Id, fewer: map<Id, Log>)
    requires LoggedOnce(t, logs, s) && l in logs && logs[l].targetStudent != Some(s)
    requires fewer == map k | k in logs && k != l :: logs[k]
    ensures LoggedOnce(t, fewer, s)
  {
    var k :| k in logs && k !in t.logs && logs[k].targetStudent == Some(s)
      && forall j :: j in logs && j !in t.logs && logs[j].targetStudent == Some(s) ==> j == k;
    assert k in fewer && fewer[k] == logs[k];
  }
}
