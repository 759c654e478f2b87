/** What the audit after the backfill accepts, told of the rows (app/migration_data/domain_backfill_20260711.py). */
module BackfillAudit {
  import opened Common
  import opened DomainBackfill
  import opened BackfillDue
  import opened StatusPolicy

  /** One active assignment a student at most. */
  ghost predicate OneActiveEach(t: Tables) {
    forall a, b | a in t.assignments && b in t.assignments && t.assignments[a].endedAt.None?
      && t.assignments[b].endedAt.None? && t.assignments[a].studentId == t.assignments[b].studentId :: a == b
  }

  /** Active assignments and the agents of the students are the same pairs. */
  ghost predicate Projected(t: Tables) {
    && (forall a :: a in t.assignments && t.assignments[a].endedAt.None? ==>
          t.assignments[a].studentId in t.students
          && t.students[t.assignments[a].studentId].assignedTo == Some(t.assignments[a].agentId))
    && (forall s :: s in t.students && t.students[s].assignedTo.Some? ==> HasActive(t, s))
  }

  ghost predicate HasActive(t: Tables, student: Id) {
    exists a :: a in t.assignments && t.assignments[a].endedAt.None? && t.assignments[a].studentId == student
  }

  /** An open item has an owner who is employed and active, and no two items have the same key. */
  ghost predicate ItemsHealthy(t: Tables) {
    && (forall i :: i in t.items && t.items[i].status == "open" ==>
          t.items[i].owner.Some? && t.items[i].owner.value in t.employment
          && t.employment[t.items[i].owner.value].status == "active")
    && (forall i, j :: i in t.items && j in t.items && t.items[i].key == t.items[j].key ==> i == j)
  }

  /** An invalid student has a code, and it is in the catalogue. */
  ghost predicate CodesCatalogued(t: Tables) {
    forall s :: s in t.students && IsLost(t.students[s]) ==>
      !AllSpaces(t.students[s].outcomeCode) && t.students[s].outcomeCode in t.outcomes
  }

  lemma AtMostOne<T>(s: set<T>)
    ensures |s| <= 1 <==> forall x, y :: x in s && y in s ==> x == y
  {
    if |s| <= 1 {
      forall x, y | x in s && y in s ensures x == y {
        assert |s - {x}| == |s| - 1;
      }
    } else {
      var x :| x in s;
      assert |s - {x}| == |s| - 1;
      var y :| y in s - {x};
    }
  }

  lemma InActiveRows(t: Tables, a: Id)
    ensures a in t.assignments && t.assignments[a].endedAt.None? ==>
      t.assignments[a].studentId in ActiveStudents(t) && a in ActiveRows(t.assignments, t.assignments[a].studentId)
  {
  }

  lemma DuplicatesCounted(t: Tables)
    ensures DuplicateActive(t) == {} <==> OneActiveEach(t)
  {
    if DuplicateActive(t) == {} {
      forall a, b | a in t.assignments && b in t.assignments && t.assignments[a].endedAt.None?
        && t.assignments[b].endedAt.None? && t.assignments[a].studentId == t.assignments[b].studentId
        ensures a == b
      {
        InActiveRows(t, a);
        InActiveRows(t, b);
        assert t.assignments[a].studentId !in DuplicateActive(t);
        AtMostOne(ActiveRows(t.assignments, t.assignments[a].studentId));
      }
    }
    if OneActiveEach(t) {
      forall s | s in ActiveStudents(t) ensures |ActiveRows(t.assignments, s)| <= 1 {
        AtMostOne(ActiveRows(t.assignments, s));
      }
    }
  }

  lemma AgentOfOne(t: Tables, a: Id)
    requires OneActiveEach(t) && a in t.assignments && t.assignments[a].endedAt.None?
    ensures ActiveAgent(t.assignments, t.assignments[a].studentId) == Some(t.assignments[a].agentId)
  {
    assert a in ActiveRows(t.assignments, t.assignments[a].studentId);
    assert Latest(ActiveRows(t.assignments, t.assignments[a].studentId)) == a;
  }

  lemma MismatchesCounted(t: Tables)
    requires OneActiveEach(t)
    ensures Mismatches(t) == {} <==> Projected(t)
  {
    forall a | a in t.assignments && t.assignments[a].endedAt.None?
      ensures t.assignments[a].studentId in ActiveStudents(t)
      ensures ActiveAgent(t.assignments, t.assignments[a].studentId) == Some(t.assignments[a].agentId)
    {
      InActiveRows(t, a);
      AgentOfOne(t, a);
    }
    forall s ensures HasActive(t, s) <==> ActiveAgent(t.assignments, s).Some? {
      ActiveMeans(t, s);
    }
    hide OneActiveEach, ActiveAgent;
    forall s | s in ActiveStudents(t) ensures HasActive(t, s) {
    }
    if Mismatches(t) == {} {
      forall s | s in t.students.Keys + ActiveStudents(t)
        ensures Projection(t, s) == ActiveAgent(t.assignments, s)
      {
        assert s !in Mismatches(t);
      }
    }
  }

  lemma ActiveMeans(t: Tables, s: Id)
    ensures HasActive(t, s) <==> ActiveAgent(t.assignments, s).Some?
  {
    assert forall a :: a in ActiveRows(t.assignments, s) <==>
      a in t.assignments && t.assignments[a].endedAt.None? && t.assignments[a].studentId == s;
  }

  lemma ItemsCounted(t: Tables)
    ensures OpenWithoutOwner(t) == {} && OpenOwnedByInactive(t) == {} && DuplicateKeys(t) == {} <==> ItemsHealthy(t)
  {
    if DuplicateKeys(t) == {} {
      forall i, j | i in t.items && j in t.items && t.items[i].key == t.items[j].key ensures i == j {
        assert t.items[i].key in ItemKeys(t.items) && t.items[i].key !in DuplicateKeys(t);
        assert {i, j} <= RowsOfKey(t, t.items[i].key);
        AtMostOne(RowsOfKey(t, t.items[i].key));
      }
    }
    forall k | k in ItemKeys(t.items)
      ensures (forall i, j :: i in t.items && j in t.items && t.items[i].key == t.items[j].key ==> i == j) ==>
        |RowsOfKey(t, k)| <= 1
    {
      AtMostOne(RowsOfKey(t, k));
    }
    hide RowsOfKey, ItemKeys;
    if OpenWithoutOwner(t) == {} && OpenOwnedByInactive(t) == {} {
      forall i | i in t.items && t.items[i].status == "open"
        ensures t.items[i].owner.Some? && OwnerActive(t, t.items[i].owner.value)
      {
        assert i !in OpenWithoutOwner(t) && i !in OpenOwnedByInactive(t);
      }
    }
  }

  lemma UncataloguedMeans(t: Tables, s: Id)
    requires s in t.students
    ensures Uncatalogued(t, s) <==>
      IsLost(t.students[s]) && (AllSpaces(t.students[s].outcomeCode) || t.students[s].outcomeCode !in t.outcomes)
  {
    StatusTexts(t.students[s].status);
    BlankMeans(t.students[s].outcomeCode);
    hide IsInvalid, Blank, AllSpaces, Strip, CanonicalOfText;
  }

  lemma CodesCounted(t: Tables)
    ensures UncataloguedReasons(t) == {} <==> CodesCatalogued(t)
  {
    forall s | s in t.students
      ensures Uncatalogued(t, s) <==>
        IsLost(t.students[s])
        && (AllSpaces(t.students[s].outcomeCode) || t.students[s].outcomeCode !in t.outcomes)
    {
      UncataloguedMeans(t, s);
    }
    hide Uncatalogued, AllSpaces, IsLost;
    if UncataloguedReasons(t) == {} {
      forall s | s in t.students ensures !Uncatalogued(t, s) {
        assert s !in UncataloguedReasons(t);
      }
    }
  }

  lemma UnemployedCounted(t: Tables)
    ensures Unemployed(t, t.users.Keys) == {} <==> forall x :: x in t.users ==> x in t.employment
  {
    if Unemployed(t, t.users.Keys) == {} {
      forall x | x in t.users ensures x in t.employment {
        assert x !in Unemployed(t, t.users.Keys);
      }
    }
  }

  lemma StudentsLinked(t: Tables)
    requires
      |set s | s in t.students && t.students[s].assignedTo.Some? && t.students[s].assignedTo.value !in t.users| == 0
    ensures forall s :: s in t.students ==> InUsers(t, t.students[s].assignedTo)
  {
    var missing := set s | s in t.students && t.students[s].assignedTo.Some?
      && t.students[s].assignedTo.value !in t.users;
    assert forall s :: s in t.students ==> s !in missing;
  }

  lemma FollowUpsLinked(t: Tables)
    requires |set f | f in t.followUps && t.followUps[f].studentId !in t.students| == 0
    requires |set f | f in t.followUps && t.followUps[f].agentId !in t.users| == 0
    ensures forall f :: f in t.followUps ==> t.followUps[f].studentId in t.students && t.followUps[f].agentId in t.users
  {
    var orphans := set f | f in t.followUps && t.followUps[f].studentId !in t.students;
    var strays := set f | f in t.followUps && t.followUps[f].agentId !in t.users;
    assert forall f :: f in t.followUps ==> f !in orphans && f !in strays;
  }

  lemma HomeLinked(t: Tables)
    requires |set h | h in t.home && t.home[h].studentId !in t.students| == 0
    requires |set h | h in t.home && t.home[h].creatorId !in t.users| == 0
    ensures forall h :: h in t.home ==> t.home[h].studentId in t.students && t.home[h].creatorId in t.users
  {
    var orphans := set h | h in t.home && t.home[h].studentId !in t.students;
    var strays := set h | h in t.home && t.home[h].creatorId !in t.users;
    assert forall h :: h in t.home ==> h !in orphans && h !in strays;
  }

  lemma CampusLinked(t: Tables)
    requires |set c | c in t.campus && t.campus[c].studentId !in t.students| == 0
    requires |set c | c in t.campus && t.campus[c].creatorId !in t.users| == 0
    ensures forall c :: c in t.campus ==> t.campus[c].studentId in t.students && t.campus[c].creatorId in t.users
  {
    var orphans := set c | c in t.campus && t.campus[c].studentId !in t.students;
    var strays := set c | c in t.campus && t.campus[c].creatorId !in t.users;
    assert forall c :: c in t.campus ==> c !in orphans && c !in strays;
  }

  lemma EnrollmentsLinked(t: Tables)
    requires |set e | e in t.enrollments && t.enrollments[e].studentId !in t.students| == 0
    requires |set e | e in t.enrollments && t.enrollments[e].attributedAgentId !in t.users| == 0
    ensures forall e :: e in t.enrollments ==>
      t.enrollments[e].studentId in t.students && t.enrollments[e].attributedAgentId in t.users
  {
    var orphans := set e | e in t.enrollments && t.enrollments[e].studentId !in t.students;
    var strays := set e | e in t.enrollments && t.enrollments[e].attributedAgentId !in t.users;
    assert forall e :: e in t.enrollments ==> e !in orphans && e !in strays;
  }

  lemma LegacyLinksCounted(t: Tables)
    ensures LegacyViolations(t) == 0 <==> LegacyLinked(t)
  {
    LegacyViolationsCount(t);
    if LegacyViolations(t) == 0 {
      StudentsLinked(t);
      FollowUpsLinked(t);
      HomeLinked(t);
      CampusLinked(t);
      EnrollmentsLinked(t);
    }
  }

  lemma DomainLinksCounted(t: Tables)
    ensures DomainViolations(t) == 0 <==> DomainLinked(t)
  {
    DomainViolationsCount(t);
    if DomainViolations(t) == 0 {
      var a := set u | u in t.employment && u !in t.users;
      var b := set e | e in t.events && t.events[e].userId !in t.users;
      var c := set a | a in t.assignments && t.assignments[a].studentId !in t.students;
      var d := set a | a in t.assignments && t.assignments[a].agentId !in t.users;
      var e := set i | i in t.items && t.items[i].studentId !in t.students;
      var f := set i | i in t.items && t.items[i].owner.Some? && t.items[i].owner.value !in t.users;
      var g := set i | i in t.items && t.items[i].creator.Some? && t.items[i].creator.value !in t.users;
      assert |a| == |b| == |c| == |d| == |e| == |f| == |g| == 0;
      assert forall x :: x in t.employment ==> x !in a;
      assert forall x :: x in t.events ==> x !in b;
      assert forall x :: x in t.assignments ==> x !in c && x !in d;
      assert forall x :: x in t.items ==> x !in e && x !in f && x !in g;
    }
  }

  /** The audit passes exactly on tables where everybody is employed, assignments are unique and agree with the
      students, open items have an active owner and keys are unique, invalid students have a catalogued code, and links
      name rows. */
  lemma AuditPassesExactly(t: Tables)
    ensures AuditOk(t) <==>
      (forall x :: x in t.users ==> x in t.employment) && OneActiveEach(t) && Projected(t) && ItemsHealthy(t)
      && CodesCatalogued(t) && LegacyLinked(t) && DomainLinked(t)
  {
    DuplicatesCounted(t);
    if OneActiveEach(t) {
      MismatchesCounted(t);
    }
    ItemsCounted(t);
    CodesCounted(t);
    LegacyLinksCounted(t);
    DomainLinksCounted(t);
    UnemployedCounted(t);
    hide DuplicateActive, OneActiveEach, Mismatches, Projected, OpenWithoutOwner, OpenOwnedByInactive, DuplicateKeys,
      ItemsHealthy, UncataloguedReasons, CodesCatalogued, LegacyViolations, DomainViolations, LegacyLinked,
      DomainLinked, Unemployed;
  }
}
