/**
 Deleting students with everything that belongs to them (app/student_delete.py), statement by statement, under
 foreign keys that the database checks after each one. A row is the student it belongs to and the rows its
 other foreign keys name; keys to users and handover batches are not modelled, nothing here deletes those.
 */
module StudentDelete {
  import opened Common

  type Id = nat

  datatype Table =
      HandoverItems | WorkItems | EnrollmentRecords | CampusVisits | HomeVisits | Assignments
    | DialLogs | Notes | FollowUps | LeadViews | EnrollmentReports | GroupMemberships

  datatype Ref = Ref(table: Table, id: Id)
  datatype Row = Row(student: Id, links: set<Ref>)
  datatype Log = Log(student: Option<Id>, action: string)
  datatype Database = Database(students: set<Id>, rows: map<Ref, Row>, logs: seq<Log>)

  /** RELATED_MODELS, in the order of the deletes. */
  const RELATED: seq<Table> :=
    [HandoverItems, WorkItems, EnrollmentRecords, CampusVisits, HomeVisits, Assignments, DialLogs, Notes, FollowUps,
     LeadViews]

  /** The foreign keys between these tables, by the schema. */
  predicate MayLink(child: Table, parent: Table) {
    || (child == HandoverItems && parent == Assignments)
    || (child == EnrollmentRecords && parent in {HomeVisits, CampusVisits})
    || (child == CampusVisits && parent == HomeVisits)
    || (child == Assignments && parent == Assignments)
    || (child == EnrollmentReports && parent == EnrollmentRecords)
  }

  ghost predicate Typed(db: Database) {
    forall k, l :: k in db.rows && l in db.rows[k].links ==> MayLink(k.table, l.table)
  }

  /** Every foreign key names a row. */
  ghost predicate Valid(db: Database) {
    && (forall k :: k in db.rows ==> db.rows[k].student in db.students)
    && (forall k, l :: k in db.rows && l in db.rows[k].links ==> l in db.rows)
  }

  // ---------------------------------------------------------------- the statements

  function DeleteRows(db: Database, table: Table, ids: set<Id>): Database {
    db.(rows := map k | k in db.rows && !(k.table == table && db.rows[k].student in ids) :: db.rows[k])
  }

  /** Deleting the students themselves takes along, by ON DELETE CASCADE, whatever rows they still have. */
  function DeleteStudents(db: Database, ids: set<Id>): Database {
    db.(students := db.students - ids, rows := map k | k in db.rows && db.rows[k].student !in ids :: db.rows[k])
  }

  /** The deletes of a list of tables and then of the students; the first that leaves a foreign key without
      its row raises. */
  ghost function Cascade(db: Database, order: seq<Table>, ids: set<Id>): Option<Database>
    decreases |order|
  {
    if order == [] then
      if Valid(DeleteStudents(db, ids)) then Some(DeleteStudents(db, ids)) else None
    else if Valid(DeleteRows(db, order[0], ids)) then Cascade(DeleteRows(db, order[0], ids), order[1..], ids)
    else None
  }

  /** No row of another student names a row of a deleted one. */
  ghost predicate NobodyElseNames(db: Database, ids: set<Id>) {
    forall k, l :: k in db.rows && l in db.rows[k].links && l in db.rows && db.rows[l].student in ids ==>
      db.rows[k].student in ids
  }

  /** No enrollment report names a record of a deleted student. */
  ghost predicate NoReportNames(db: Database, ids: set<Id>) {
    forall k, l :: k in db.rows && l in db.rows[k].links && l in db.rows && db.rows[l].student in ids ==>
      k.table != EnrollmentReports
  }

  /** Nobody else names the rows of the deleted, and no report, whosever it is, a record of theirs. */
  ghost predicate Deletable(db: Database, ids: set<Id>) {
    NobodyElseNames(db, ids) && NoReportNames(db, ids)
  }

  // ---------------------------------------------------------------- which orders work

  /** Every table with a key to another comes before it. */
  ghost predicate ChildFirst(order: seq<Table>) {
    forall child, j :: 0 <= j < |order| && child in RELATED && child != order[j] && MayLink(child, order[j]) ==>
      child in order[..j]
  }

  /** The rows left when some tables have been cleared of the students. */
  function Remaining(db: Database, done: seq<Table>, ids: set<Id>): Database {
    db.(rows := map k | k in db.rows && !(k.table in done && db.rows[k].student in ids) :: db.rows[k])
  }

  lemma RemainingOneMore(db: Database, done: seq<Table>, table: Table, ids: set<Id>)
    ensures DeleteRows(Remaining(db, done, ids), table, ids) == Remaining(db, done + [table], ids)
  {
    var a, b := DeleteRows(Remaining(db, done, ids), table, ids), Remaining(db, done + [table], ids);
    assert a.rows.Keys == b.rows.Keys;
  }

  lemma RemainingNone(db: Database, ids: set<Id>)
    ensures Remaining(db, [], ids) == db
  {
    assert Remaining(db, [], ids).rows == db.rows;
  }

  lemma ChildCleared(order: seq<Table>, n: nat, child: Table, parent: Table)
    requires ChildFirst(order) && n <= |order| && child in RELATED && MayLink(child, parent) && parent in order[..n]
    ensures child in order[..n]
  {
    var j :| 0 <= j < n && order[..n][j] == parent;
    if child != parent {
      assert order[j] == parent && child in order[..j];
      assert forall i :: 0 <= i < j ==> order[..j][i] == order[..n][i];
    }
  }

  /** Between two statements of a child-first order, every foreign key is valid when nothing else stands in
      the way. */
  lemma RemainingIsValid(db: Database, order: seq<Table>, n: nat, ids: set<Id>)
    requires Valid(db) && Typed(db) && Deletable(db, ids) && ChildFirst(order) && n <= |order|
    ensures Valid(Remaining(db, order[..n], ids))
  {
    hide ChildFirst, MayLink;
    var rest := Remaining(db, order[..n], ids);
    forall k, l | k in rest.rows && l in rest.rows[k].links ensures l in rest.rows {
      assert MayLink(k.table, l.table);
      if l.table in order[..n] && db.rows[l].student in ids {
        LinkingTableIsRelated(k.table, l.table);
        ChildCleared(order, n, k.table, l.table);
      }
    }
  }

  lemma LinkingTableIsRelated(child: Table, parent: Table)
    requires MayLink(child, parent)
    ensures parent in RELATED && (child == EnrollmentReports || child in RELATED)
  {
    assert RELATED[0] == HandoverItems && RELATED[2] == EnrollmentRecords && RELATED[3] == CampusVisits;
    assert RELATED[4] == HomeVisits && RELATED[5] == Assignments;
  }

  lemma LastStatementIsValid(db: Database, order: seq<Table>, ids: set<Id>)
    requires Valid(db) && Typed(db) && Deletable(db, ids) && forall t :: t in RELATED ==> t in order
    ensures DeleteStudents(Remaining(db, order, ids), ids) == DeleteStudents(db, ids)
    ensures Valid(DeleteStudents(db, ids))
  {
    assert DeleteStudents(Remaining(db, order, ids), ids).rows == DeleteStudents(db, ids).rows;
  }

  /** With a child-first order every statement of the cascade is valid, and the students are gone. */
  lemma {:induction false} ChildFirstSucceeds(db: Database, order: seq<Table>, n: nat, ids: set<Id>)
    requires Valid(db) && Typed(db) && Deletable(db, ids) && ChildFirst(order) && n <= |order|
    requires forall t :: t in RELATED ==> t in order
    ensures Cascade(Remaining(db, order[..n], ids), order[n..], ids) == Some(DeleteStudents(db, ids))
    decreases |order| - n
  {
    hide Valid, Typed, Deletable, ChildFirst, DeleteStudents, DeleteRows, Remaining;
    if n == |order| {
      assert order[..n] == order && order[n..] == [];
      LastStatementIsValid(db, order, ids);
    } else {
      RemainingIsValid(db, order, n + 1, ids);
      RemainingOneMore(db, order[..n], order[n], ids);
      assert order[..n] + [order[n]] == order[..n + 1];
      assert order[n..][0] == order[n] && order[n..][1..] == order[n + 1..];
      ChildFirstSucceeds(db, order, n + 1, ids);
    }
  }

  /** A cascade that succeeds was valid after every statement. */
  lemma {:induction false} SuccessMeansValid(db: Database, order: seq<Table>, n: nat, m: nat, ids: set<Id>)
    requires n < m <= |order| && Cascade(Remaining(db, order[..n], ids), order[n..], ids).Some?
    ensures Valid(Remaining(db, order[..m], ids))
    decreases m - n
  {
    hide Valid, DeleteStudents, DeleteRows, Remaining;
    RemainingOneMore(db, order[..n], order[n], ids);
    assert order[..n] + [order[n]] == order[..n + 1];
    assert order[n..][0] == order[n] && order[n..][1..] == order[n + 1..];
    if n + 1 < m {
      SuccessMeansValid(db, order, n + 1, m, ids);
    }
  }

  lemma SuccessMeansDeletable(db: Database, order: seq<Table>, ids: set<Id>)
    requires Valid(db) && Typed(db) && Cascade(db, order, ids).Some?
    requires (forall t :: t in RELATED ==> t in order) && EnrollmentReports !in order
    ensures Deletable(db, ids)
  {
    hide Cascade, MayLink, Remaining, DeleteRows;
    forall k, l | k in db.rows && l in db.rows[k].links && l in db.rows && db.rows[l].student in ids
      ensures db.rows[k].student in ids && k.table != EnrollmentReports
    {
      LinkingTableIsRelated(k.table, l.table);
      LinkIsCleared(db, order, ids, k, l);
    }
  }

  /** Once the table a key names is cleared, the row with the key must be gone too. */
  lemma LinkIsCleared(db: Database, order: seq<Table>, ids: set<Id>, k: Ref, l: Ref)
    requires Cascade(db, order, ids).Some? && l.table in order
    requires k in db.rows && l in db.rows[k].links && l in db.rows && db.rows[l].student in ids
    ensures db.rows[k].student in ids && k.table in order
  {
    hide Cascade, MayLink, DeleteRows, Valid;
    RemainingNone(db, ids);
    var j :| 0 <= j < |order| && order[j] == l.table;
    assert order[..0] == [] && order[0..] == order;
    SuccessMeansValid(db, order, 0, j + 1, ids);
    var done := order[..j + 1];
    assert done[j] == l.table;
    assert k.table in done ==> k.table in order by {
      assert forall i :: 0 <= i < |done| ==> done[i] == order[i];
    }
    var rest := Remaining(db, done, ids);
    assert l !in rest.rows;
    if db.rows[k].student !in ids || k.table !in done {
      StaysInRemaining(db, done, ids, k);
      ValidLink(rest, k, l);
    }
  }

  lemma ValidLink(db: Database, k: Ref, l: Ref)
    requires Valid(db) && k in db.rows && l in db.rows[k].links
    ensures l in db.rows
  {
  }

  lemma StaysInRemaining(db: Database, done: seq<Table>, ids: set<Id>, k: Ref)
    requires k in db.rows && (db.rows[k].student !in ids || k.table !in done)
    ensures k in Remaining(db, done, ids).rows && Remaining(db, done, ids).rows[k] == db.rows[k]
  {
  }

  lemma RelatedIsChildFirst()
    ensures ChildFirst(RELATED) && EnrollmentReports !in RELATED
  {
    assert RELATED[..4][2] == EnrollmentRecords && RELATED[..4] <= RELATED;
    assert RELATED[..5][2] == EnrollmentRecords && RELATED[..5][3] == CampusVisits;
    assert RELATED[..6][0] == HandoverItems;
  }

  /** On a valid database the delete runs through exactly when the students are deletable, and then leaves the
      other students with exactly the rows they had. */
  lemma CascadeRunsExactlyWhenDeletable(db: Database, ids: set<Id>)
    requires Valid(db) && Typed(db)
    ensures Cascade(db, RELATED, ids).Some? <==> Deletable(db, ids)
    ensures Deletable(db, ids) ==> Cascade(db, RELATED, ids) == Some(DeleteStudents(db, ids))
  {
    RelatedIsChildFirst();
    hide *;
    if Deletable(db, ids) {
      RemainingNone(db, ids);
      assert RELATED[..0] == [] && RELATED[0..] == RELATED;
      ChildFirstSucceeds(db, RELATED, 0, ids);
    }
    if Cascade(db, RELATED, ids).Some? {
      SuccessMeansDeletable(db, RELATED, ids);
    }
  }

  /** Two rows of one student, one naming the other. */
  function LinkedPair(child: Table, parent: Table): Database {
    Database({1}, map[Ref(child, 1) := Row(1, {Ref(parent, 2)}), Ref(parent, 2) := Row(1, {})], [])
  }

  lemma LinkedPairRows(child: Table, parent: Table)
    ensures LinkedPair(child, parent).students == {1}
    ensures LinkedPair(child, parent).rows.Keys == {Ref(child, 1), Ref(parent, 2)}
    ensures LinkedPair(child, parent).rows[Ref(child, 1)] == Row(1, {Ref(parent, 2)})
    ensures LinkedPair(child, parent).rows[Ref(parent, 2)] == Row(1, {})
  {
    assert Ref(child, 1) != Ref(parent, 2);
  }

  lemma LinkedPairIsDeletable(child: Table, parent: Table)
    requires MayLink(child, parent) && child != EnrollmentReports
    ensures Valid(LinkedPair(child, parent)) && Typed(LinkedPair(child, parent))
      && Deletable(LinkedPair(child, parent), {1})
  {
    hide LinkedPair, MayLink;
    LinkedPairRows(child, parent);
    var db := LinkedPair(child, parent);
    forall k, l | k in db.rows && l in db.rows[k].links ensures k == Ref(child, 1) && l == Ref(parent, 2) {
    }
  }

  /** The order of the deletes matters, although the source says it does not: of the orders that clear the ten
      tables, exactly those that put each table before the ones it has keys to delete every deletable student
      of every valid database. */
  lemma OrderMustBeChildFirst(order: seq<Table>)
    requires forall t :: t in order <==> t in RELATED
    ensures ChildFirst(order) <==>
      forall db, ids :: Valid(db) && Typed(db) && Deletable(db, ids) ==> Cascade(db, order, ids).Some?
  {
    if ChildFirst(order) {
      forall db, ids | Valid(db) && Typed(db) && Deletable(db, ids) ensures Cascade(db, order, ids).Some? {
        SucceedsInOrder(db, order, ids);
      }
    } else {
      var child, j :| 0 <= j < |order| && child in RELATED && child != order[j] && MayLink(child, order[j])
        && child !in order[..j];
      RelatedIsChildFirst();
      LinkedPairIsDeletable(child, order[j]);
      ParentFirstFails(order, child, j);
    }
  }

  lemma SucceedsInOrder(db: Database, order: seq<Table>, ids: set<Id>)
    requires Valid(db) && Typed(db) && Deletable(db, ids) && ChildFirst(order) && forall t :: t in RELATED ==>
      t in order
    ensures Cascade(db, order, ids) == Some(DeleteStudents(db, ids))
  {
    hide *;
    RemainingNone(db, ids);
    assert order[..0] == [] && order[0..] == order;
    ChildFirstSucceeds(db, order, 0, ids);
  }

  /** Clearing the table a key names before the table that has the key breaks the key. */
  lemma ParentFirstFails(order: seq<Table>, child: Table, j: nat)
    requires j < |order| && child !in order[..j] && child != order[j]
    ensures Cascade(LinkedPair(child, order[j]), order, {1}).None?
  {
    hide Cascade, LinkedPair;
    var db := LinkedPair(child, order[j]);
    LinkedPairRows(child, order[j]);
    RemainingNone(db, {1});
    assert order[..0] == [] && order[0..] == order;
    var done := order[..j + 1];
    assert done[j] == order[j];
    assert forall i :: 0 <= i < j ==> order[..j][i] == done[i];
    var rest := Remaining(db, done, {1});
    assert child !in done;
    assert Ref(child, 1) in rest.rows && Ref(order[j], 2) !in rest.rows;
    assert Ref(order[j], 2) in rest.rows[Ref(child, 1)].links;
    assert !Valid(rest);
    if Cascade(db, order, {1}).Some? {
      SuccessMeansValid(db, order, 0, j + 1, {1});
    }
  }

  // ---------------------------------------------------------------- what is left

  lemma {:induction false} EveryOrderEndsAlike(db: Database, order: seq<Table>, ids: set<Id>)
    ensures Cascade(db, order, ids).Some? ==> Cascade(db, order, ids) == Some(DeleteStudents(db, ids))
    ensures Cascade(db, order, ids).Some? ==> Valid(DeleteStudents(db, ids))
    decreases |order|
  {
    hide Valid;
    if order != [] {
      var next := DeleteRows(db, order[0], ids);
      EveryOrderEndsAlike(next, order[1..], ids);
      assert DeleteStudents(next, ids).rows == DeleteStudents(db, ids).rows;
    }
  }

  /** Whatever tables are cleared first and in whatever order: a cascade that runs through leaves no row of a
      deleted student in any table, every other student with exactly his rows, and every foreign key valid. */
  lemma NothingOfTheDeletedIsLeft(db: Database, order: seq<Table>, ids: set<Id>, after: Database)
    requires Valid(db) && Cascade(db, order, ids) == Some(after)
    ensures after.students == db.students - ids && after.logs == db.logs && Valid(after)
    ensures forall k :: k in after.rows ==> after.rows[k].student !in ids
    ensures forall k :: k in db.rows && db.rows[k].student !in ids ==> k in after.rows && after.rows[k] == db.rows[k]
    ensures after.rows.Keys <= db.rows.Keys
  {
    hide Cascade, Valid;
    EveryOrderEndsAlike(db, order, ids);
  }

  /** What the ten deletes leave to the ON DELETE CASCADE of the students: reports and group memberships. */
  lemma LeftToTheSchema(db: Database, ids: set<Id>, k: Ref)
    requires k in Remaining(db, RELATED, ids).rows && db.rows[k].student in ids
    ensures k.table in {EnrollmentReports, GroupMemberships}
  {
    assert forall i :: 0 <= i < |RELATED| ==> RELATED[i] in RELATED;
    EveryTable(k.table);
  }

  lemma EveryTable(table: Table)
    ensures table in RELATED || table in {EnrollmentReports, GroupMemberships}
  {
    assert RELATED[0] == HandoverItems && RELATED[1] == WorkItems && RELATED[2] == EnrollmentRecords;
    assert RELATED[3] == CampusVisits && RELATED[4] == HomeVisits && RELATED[5] == Assignments;
    assert RELATED[6] == DialLogs && RELATED[7] == Notes && RELATED[8] == FollowUps && RELATED[9] == LeadViews;
  }

  /** With the declared schema the ten deletes only ever refuse more. Deleting the students alone leaves the same
      database and runs exactly when nobody else names their rows; the ten deletes run exactly when, besides, no
      report names a record of theirs. */
  lemma TenDeletesOnlyRefuseMore(db: Database, ids: set<Id>)
    requires Valid(db) && Typed(db)
    ensures Cascade(db, [], ids).Some? <==> NobodyElseNames(db, ids)
    ensures Cascade(db, RELATED, ids).Some? <==> Cascade(db, [], ids).Some? && NoReportNames(db, ids)
    ensures Cascade(db, RELATED, ids).Some? ==> Cascade(db, [], ids) == Cascade(db, RELATED, ids)
  {
    hide MayLink, Cascade;
    CascadeEnd(db, ids);
    CascadeRunsExactlyWhenDeletable(db, ids);
    StudentsAloneExactly(db, ids);
  }

  /** A student whose enrollment report names his record can be deleted alone, and not by the ten deletes. */
  lemma ReportBlocksTheDeletes()
    ensures var db := LinkedPair(EnrollmentReports, EnrollmentRecords);
      Valid(db) && Typed(db) && Cascade(db, [], {1}).Some? && Cascade(db, RELATED, {1}).None?
  {
    hide Cascade, LinkedPair;
    LinkedPairRows(EnrollmentReports, EnrollmentRecords);
    var db := LinkedPair(EnrollmentReports, EnrollmentRecords);
    var report, record := Ref(EnrollmentReports, 1), Ref(EnrollmentRecords, 2);
    assert db.rows[report].links == {record} && db.rows[record].links == {};
    assert !NoReportNames(db, {1});
    TenDeletesOnlyRefuseMore(db, {1});
  }

  lemma StudentsAloneExactly(db: Database, ids: set<Id>)
    requires Valid(db)
    ensures Valid(DeleteStudents(db, ids)) <==> NobodyElseNames(db, ids)
  {
    var after := DeleteStudents(db, ids);
    if !NobodyElseNames(db, ids) {
      var k, l :| k in db.rows && l in db.rows[k].links && l in db.rows && db.rows[l].student in ids
        && db.rows[k].student !in ids;
      assert k in after.rows && l in after.rows[k].links && l !in after.rows;
    }
  }

  function LogsFor(students: seq<Id>, action: string): seq<Log> {
    seq(|students|, i requires 0 <= i < |students| => Log(Some(students[i]), action))
  }

  class Store {
    var students: set<Id>
    var rows: map<Ref, Row>
    var logs: seq<Log>

    ghost function Now(): Database
      reads this
    {
      Database(students, rows, logs)
    }

    /** One delete statement: the database refuses it when a foreign key would be left without its row. */
    method Execute(next: map<Ref, Row>, left: set<Id>) returns (ok: bool)
      modifies `rows, `students
      ensures ok <==> Valid(Database(left, next, logs))
      ensures ok ==> rows == next && students == left
      ensures !ok ==> rows == old(rows) && students == old(students)
    {
      var keys := next.Keys;
      var pending := keys;
      while pending != {}
        invariant pending <= keys
        invariant forall k :: k in keys - pending ==> next[k].student in left && next[k].links <= keys
      {
        var k :| k in pending;
        if next[k].student !in left || !(next[k].links <= keys) {
          assert !Valid(Database(left, next, logs)) by {
            if next[k].student in left {
              var l :| l in next[k].links && l !in keys;
            }
          }
          return false;
        }
        pending := pending - {k};
      }
      rows, students := next, left;
      return true;
    }

    /** delete_students_cascade: the logs, the ten deletes, the students; rolled back when one raises. */
    method DeleteCascade(doomed: seq<Id>, action: string) returns (result: Result<nat, string>)
      requires Valid(Now()) && Typed(Now())
      modifies this
      ensures result.Ok? <==> Deletable(old(Now()), Members(doomed))
      ensures result.Err? ==> Now() == old(Now())
      ensures result.Ok? ==> result.value == |doomed|
      ensures result.Ok? ==> var ids := Members(doomed);
        Now() == DeleteStudents(old(Now()), ids).(logs := old(logs) + LogsFor(doomed, action))
    {
      var ids := Members(doomed);
      ghost var t := Now();
      hide Valid, Typed, Deletable, Cascade, Remaining;
      if doomed == [] {
        NobodyToDelete(t, ids);
        return Ok(0);
      }
      var oldRows, oldStudents, oldLogs := rows, students, logs;
      logs := logs + LogsFor(doomed, action);
      RemainingNone(t, ids);
      CascadeRunsExactlyWhenDeletable(t, ids);
      assert RELATED[..0] == [] && RELATED[0..] == RELATED;
      for n := 0 to |RELATED|
        invariant logs == oldLogs + LogsFor(doomed, action) && students == t.students
        invariant Database(students, rows, oldLogs) == Remaining(t, RELATED[..n], ids)
        invariant Cascade(Remaining(t, RELATED[..n], ids), RELATED[n..], ids) == Cascade(t, RELATED, ids)
      {
        var table := RELATED[n];
        var next := map k | k in rows && !(k.table == table && rows[k].student in ids) :: rows[k];
        RemainingOneMore(t, RELATED[..n], table, ids);
        assert RELATED[..n] + [table] == RELATED[..n + 1];
        CascadeStep(Remaining(t, RELATED[..n], ids), RELATED[n..], ids);
        assert RELATED[n..][0] == table && RELATED[n..][1..] == RELATED[n + 1..];
        assert DeleteRows(Database(students, rows, oldLogs), table, ids) == Database(students, next, oldLogs);
        LogsDoNotMatter(Database(students, next, logs), oldLogs);
        var ok := Execute(next, students);
        if !ok {
          rows, students, logs := oldRows, oldStudents, oldLogs;
          return Err("FOREIGN KEY constraint failed");
        }
      }
      assert RELATED[|RELATED|..] == [];
      CascadeEnd(Remaining(t, RELATED[..|RELATED|], ids), ids);
      var last := map k | k in rows && rows[k].student !in ids :: rows[k];
      assert DeleteStudents(Database(students, rows, oldLogs), ids) == Database(students - ids, last, oldLogs);
      LogsDoNotMatter(Database(students - ids, last, logs), oldLogs);
      var ok := Execute(last, students - ids);
      if !ok {
        rows, students, logs := oldRows, oldStudents, oldLogs;
        return Err("FOREIGN KEY constraint failed");
      }
      return Ok(|doomed|);
    }
  }

  lemma CascadeStep(db: Database, order: seq<Table>, ids: set<Id>)
    requires order != []
    ensures Cascade(db, order, ids) ==
      if Valid(DeleteRows(db, order[0], ids)) then Cascade(DeleteRows(db, order[0], ids), order[1..], ids) else None
  {
  }

  lemma CascadeEnd(db: Database, ids: set<Id>)
    ensures Cascade(db, [], ids) == if Valid(DeleteStudents(db, ids)) then Some(DeleteStudents(db, ids)) else None
  {
  }

  lemma LogsDoNotMatter(db: Database, logs: seq<Log>)
    ensures Valid(db) <==> Valid(db.(logs := logs))
  {
  }

  lemma NobodyToDelete(db: Database, ids: set<Id>)
    requires ids == {}
    ensures Deletable(db, ids) && DeleteStudents(db, ids) == db
  {
    assert DeleteStudents(db, ids).rows == db.rows;
  }
}
