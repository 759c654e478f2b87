/**
 The repair of work-item owners (scripts/repair_work_item_owners.py) against the live audit it must satisfy
 (app/domain_consistency.py). Ids are positive, so Python's `or` over ids is the database's coalesce.
 */
module OwnerRepair {
  import opened Common
  import opened StatusPolicy
  import LegacyVisits

  type Id = x: nat | 0 < x witness 1
  type Time = int

  datatype EmploymentStatus = Active | Suspended | HandoverPending | Offboarded
  datatype WorkStatus = Open | BlockedSuspension | BlockedHandover | Completed | Cancelled
  datatype Student = Student(assignedTo: Option<Id>, status: string)
  datatype Item = Item(
    studentId: Id, kind: string, sourceType: string, sourceId: Id, owner: Option<Id>, creator: Option<Id>,
    status: WorkStatus, batch: Option<Id>, completedAt: Option<Time>, version: int, updatedAt: Time)
  datatype Tables = Tables(students: map<Id, Student>, items: map<Id, Item>, employment: map<Id, EmploymentStatus>)

  // ---------------------------------------------------------------- what the repair plans

  predicate IsActive(s: WorkStatus) {
    s in {Open, BlockedSuspension, BlockedHandover}
  }

  /** EXPECTED_STATUS */
  function ExpectedStatus(e: EmploymentStatus): Option<WorkStatus> {
    match e
    case Active => Some(Open)
    case Suspended => Some(BlockedSuspension)
    case HandoverPending => Some(BlockedHandover)
    case Offboarded => None
  }

  function Coalesce(a: Option<Id>, b: Option<Id>): Option<Id> {
    if a.Some? then a else b
  }

  /** Work items of leads and help requests are left to other code. */
  predicate IsSourceItem(w: Item) {
    !(w.kind == "lead_contact" && w.sourceType == "student") && !(w.kind == "help_request" && w.sourceType == "help")
  }

  predicate InScope(t: Tables, id: Id) {
    id in t.items && IsActive(t.items[id].status) && IsSourceItem(t.items[id]) && t.items[id].studentId in t.students
  }

  datatype Verdict = Leave | Change(owner: Option<Id>, status: WorkStatus) | OwnerUnavailable | OwnerOffboarded

  function Judge(t: Tables, id: Id): Verdict
    requires InScope(t, id)
  {
    var item := t.items[id];
    var student := t.students[item.studentId];
    if TerminalStatus(student.status) then Change(None, Cancelled)
    else
      var owner := Coalesce(Coalesce(student.assignedTo, item.owner), item.creator);
      if owner.None? || owner.value !in t.employment then OwnerUnavailable
      else
        var status := ExpectedStatus(t.employment[owner.value]);
        if status.None? then OwnerOffboarded
        else if item.owner == owner && item.status == status.value && item.batch.None? then Leave
        else Change(owner, status.value)
  }

  predicate Blocked(t: Tables, id: Id) {
    InScope(t, id) && Judge(t, id) in {OwnerUnavailable, OwnerOffboarded}
  }

  predicate Planned(t: Tables, id: Id) {
    InScope(t, id) && Judge(t, id).Change?
  }

  ghost predicate CanRepair(t: Tables) {
    forall id :: id in t.items ==> !Blocked(t, id)
  }

  function Changed(item: Item, verdict: Verdict, now: Time): Item
    requires verdict.Change?
  {
    item.(owner := verdict.owner, status := verdict.status, batch := None, completedAt := None,
          version := item.version + 1, updatedAt := now)
  }

  function RepairedItem(t: Tables, id: Id, now: Time): Item
    requires id in t.items
  {
    if Planned(t, id) then Changed(t.items[id], Judge(t, id), now) else t.items[id]
  }

  function Repaired(t: Tables, now: Time): Tables {
    t.(items := map id | id in t.items :: RepairedItem(t, id, now))
  }

  // ---------------------------------------------------------------- nothing is left to plan

  /** After the repair, the item of a terminal student is out of scope, and every other has the owner and the
      status a second plan would give it. */
  lemma NothingPlannedAgain(t: Tables, id: Id, now: Time)
    requires CanRepair(t) && id in t.items
    ensures !Planned(Repaired(t, now), id) && !Blocked(Repaired(t, now), id)
  {
    hide TerminalStatus;
    assert !Blocked(t, id);
  }

  /** The planned items, and no others, changed, each by exactly one version. */
  lemma ExactlyThePlannedChange(t: Tables, id: Id, now: Time)
    requires id in t.items
    ensures Repaired(t, now).items[id].version == t.items[id].version + if Planned(t, id) then 1 else 0
    ensures !Planned(t, id) <==> Repaired(t, now).items[id] == t.items[id]
    ensures Repaired(t, now).items[id] == t.items[id].(
      owner := Repaired(t, now).items[id].owner, status := Repaired(t, now).items[id].status,
      batch := Repaired(t, now).items[id].batch, completedAt := Repaired(t, now).items[id].completedAt,
      version := Repaired(t, now).items[id].version, updatedAt := Repaired(t, now).items[id].updatedAt)
  {
    hide TerminalStatus, IsSourceItem, IsActive;
  }

  /** The agent of the item's student, or else who has the item, or else who made it. */
  function RightfulOwner(t: Tables, item: Item): Option<Id>
    requires item.studentId in t.students
  {
    var agent := t.students[item.studentId].assignedTo;
    if agent.Some? then agent else if item.owner.Some? then item.owner else item.creator
  }

  /** An item in the way of the repair: active, of neither a lead nor a help request, its student neither enrolled nor
      invalid, and its rightful owner nobody, not employed, or gone. */
  predicate InTheWay(t: Tables, item: Item) {
    && item.status in {Open, BlockedSuspension, BlockedHandover} && item.studentId in t.students
    && (item.kind, item.sourceType) !in {("lead_contact", "student"), ("help_request", "help")}
    && CanonicalStatus(t.students[item.studentId].status) !in {Enrolled, Invalid}
    && var owner := RightfulOwner(t, item);
       owner.None? || owner.value !in t.employment || t.employment[owner.value] == Offboarded
  }

  /** The repair is refused exactly for such an item, and the refusal tells whether its owner is gone. */
  lemma BlockedExactly(t: Tables, id: Id)
    requires id in t.items
    ensures Blocked(t, id) <==> InTheWay(t, t.items[id])
    ensures Blocked(t, id) ==>
      InScope(t, id)
      && CodeOf(Judge(t, id)) ==
        var owner := RightfulOwner(t, t.items[id]);
        if owner.Some? && owner.value in t.employment then "source_work_item_owner_offboarded"
        else "source_work_item_owner_unavailable"
  {
    hide CanonicalStatus;
  }

  /** The repaired item, told of the columns. The item of a student who is done is cancelled and belongs to nobody.
      Any other ends under its rightful owner, open, suspended or in handover as he is, and out of every batch. */
  lemma RepairedItemIs(t: Tables, id: Id, now: Time)
    requires CanRepair(t) && id in t.items
    ensures var item, after := t.items[id], Repaired(t, now).items[id];
      if item.status !in {Open, BlockedSuspension, BlockedHandover} || item.studentId !in t.students
        || (item.kind, item.sourceType) in {("lead_contact", "student"), ("help_request", "help")}
      then after == item
      else if CanonicalStatus(t.students[item.studentId].status) in {Enrolled, Invalid}
      then after == item.(owner := None, status := Cancelled, batch := None, completedAt := None,
                          version := item.version + 1, updatedAt := now)
      else
        var owner := RightfulOwner(t, item);
        && owner.Some? && owner.value in t.employment
        && after.owner == owner && after.batch.None?
        && (t.employment[owner.value] == Active ==> after.status == Open)
        && (t.employment[owner.value] == Suspended ==> after.status == BlockedSuspension)
        && (t.employment[owner.value] == HandoverPending ==> after.status == BlockedHandover)
        && t.employment[owner.value] != Offboarded
        && (after.owner == item.owner && after.status == item.status && item.batch.None? ==> after == item)
        && (after != item ==> after.completedAt.None? && after.version == item.version + 1 && after.updatedAt == now)
  {
    hide CanonicalStatus;
    assert !Blocked(t, id);
  }

  // ---------------------------------------------------------------- the live audit

  /** The database's three truth values. */
  datatype Truth = Yes | No | Null

  function Or(a: Truth, b: Truth): Truth {
    if a == Yes || b == Yes then Yes else if a == Null || b == Null then Null else No
  }

  function And(a: Truth, b: Truth): Truth {
    if a == No || b == No then No else if a == Null || b == Null then Null else Yes
  }

  function Not(a: Truth): Truth {
    match a
    case Yes => No
    case No => Yes
    case Null => Null
  }

  function Is(b: bool): Truth {
    if b then Yes else No
  }

  /** a != b, over nullable columns. */
  function Differ<T(==)>(a: Option<T>, b: Option<T>): Truth {
    if a.None? || b.None? then Null else Is(a.value != b.value)
  }

  function Equal<T(==)>(a: Option<T>, b: Option<T>): Truth {
    Not(Differ(a, b))
  }

  /** _valid_work_status, over a row of employment that the outer join may have left null. */
  function ValidWorkStatus(e: Option<EmploymentStatus>, status: Option<WorkStatus>): Truth {
    Or(Or(And(Equal(e, Some(Active)), Equal(status, Some(Open))),
          And(Equal(e, Some(Suspended)), Equal(status, Some(BlockedSuspension)))),
       And(Equal(e, Some(HandoverPending)), Equal(status, Some(BlockedHandover))))
  }

  /** a in values, over a nullable column. */
  function In(a: Option<string>, values: set<string>): Truth {
    if a.None? then Null else Is(a.value in values)
  }

  /** length(trim(text)) > 0 */
  predicate HasText(text: string) {
    exists i :: 0 <= i < |text| && text[i] != ' '
  }

  /** A row the audit joins with its work item. The result of a visit may be null. */
  datatype Source =
    | FollowUp(id: Id, studentId: Id, owner: Id, completed: bool)
    | HomeVisit(id: Id, studentId: Id, owner: Id, status: string, result: Option<string>, nextAction: string,
                nextFollowUpAt: Option<Time>)
    | CampusVisit(id: Id, studentId: Id, owner: Id, status: string, result: Option<string>, nextAction: string,
                  nextFollowUpAt: Option<Time>)
    | Enrollment(id: Id, studentId: Id, owner: Id, settlement: string)

  function KindOf(s: Source): string {
    match s
    case FollowUp(_, _, _, _) => "scheduled_follow_up"
    case HomeVisit(_, _, _, _, _, _, _) => "home_visit"
    case CampusVisit(_, _, _, _, _, _, _) => "campus_visit"
    case Enrollment(_, _, _, _) => "enrollment_settlement"
  }

  function SourceTypeOf(s: Source): string {
    match s
    case FollowUp(_, _, _, _) => "follow_up"
    case HomeVisit(_, _, _, _, _, _, _) => "home_visit"
    case CampusVisit(_, _, _, _, _, _, _) => "campus_visit"
    case Enrollment(_, _, _, _) => "enrollment"
  }

  /** The condition each kind of source passes as source_open. */
  function Openness(s: Source): Truth {
    match s
    case FollowUp(_, _, _, completed) => Is(!completed)
    case HomeVisit(_, _, _, status, result, nextAction, nextFollowUpAt) =>
      Or(Is(status in {"pending", "confirmed", "scheduled", "postponed"}),
         And(And(Is(status == "completed"), In(result, {"considering", "waiting_score", "campus_visit"})),
             Or(Or(Is(nextFollowUpAt.Some?), Is(HasText(nextAction))), Equal(result, Some("campus_visit")))))
    case CampusVisit(_, _, _, status, result, nextAction, nextFollowUpAt) =>
      Or(Is(status in {"pending", "scheduled", "rescheduled"}),
         And(Is(status in {"arrived", "no_show"}),
             Or(Or(Is(nextFollowUpAt.Some?), Is(HasText(nextAction))),
                In(result, {"arrived", "no_show", "rescheduled", "considering"}))))
    case Enrollment(_, _, _, settlement) => Is(settlement in {"unsettled", "postponed", "disputed"})
  }

  /** A visit that took place, or failed to, and has no result: for a campus visit also nothing planned next. */
  predicate NoResult(s: Source) {
    || (s.HomeVisit? && s.status == "completed" && s.result.None?)
    || (s.CampusVisit? && s.status in {"arrived", "no_show"} && s.result.None? && s.nextFollowUpAt.None?
        && !HasText(s.nextAction))
  }

  /** Whether a source is open is unknown to the database exactly for these visits. */
  lemma UnknownExactlyWithoutResult(s: Source)
    ensures Openness(s) == Null <==> NoResult(s)
  {
    hide HasText;
  }

  /** A source as the count takes it: of terminal students it is never open, whatever is unknown. */
  function StillOpen(t: Tables, s: Source): Truth
    requires s.studentId in t.students
  {
    And(Openness(s), Is(!TerminalStatus(t.students[s.studentId].status)))
  }

  function OwnerId(t: Tables, s: Source, item: Option<Item>): Option<Id>
    requires s.studentId in t.students
  {
    Coalesce(Coalesce(t.students[s.studentId].assignedTo, if item.Some? then item.value.owner else None), Some(s.owner))
  }

  function EmploymentOf(t: Tables, owner: Option<Id>): Option<EmploymentStatus> {
    if owner.Some? && owner.value in t.employment then Some(t.employment[owner.value]) else None
  }

  /** The where clause of the projection count, for a source and its joined item. */
  function Mismatch(t: Tables, s: Source, item: Option<Item>): Truth
    requires s.studentId in t.students
  {
    var isOpen := StillOpen(t, s);
    var owner := OwnerId(t, s, item);
    var employment := EmploymentOf(t, owner);
    var itemOwner := if item.Some? then item.value.owner else None;
    var itemStudent := if item.Some? then Some(item.value.studentId) else None;
    var itemStatus := if item.Some? then Some(item.value.status) else None;
    var wrong :=
      Or(Or(Or(Is(owner.None?), Is(item.None?)), Or(Differ(itemStudent, Some(s.studentId)), Differ(itemOwner, owner))),
         Or(Is(employment.None?), Not(ValidWorkStatus(employment, itemStatus))));
    Or(And(isOpen, wrong), And(Not(isOpen), And(Is(item.Some?), Is(item.Some? && IsActive(item.value.status)))))
  }

  /** The audit counts a row only when its where clause is true. */
  predicate Flagged(t: Tables, s: Source, item: Option<Item>)
    requires s.studentId in t.students
  {
    Mismatch(t, s, item) == Yes
  }

  /** An item that is open under an owner who is not active, or under nobody. */
  predicate OpenUnderInactive(t: Tables, item: Item) {
    item.status == Open && (item.owner.None? || EmploymentOf(t, item.owner) != Some(Active))
  }

  /** What the audit demands of the owner and the status of a source's item. */
  predicate OwnedAsDemanded(t: Tables, s: Source, item: Item)
    requires s.studentId in t.students
  {
    var owner := OwnerId(t, s, Some(item));
    item.owner == owner && EmploymentOf(t, owner).Some?
      && ExpectedStatus(EmploymentOf(t, owner).value) == Some(item.status)
  }

  /** A repaired item that is still active has exactly the owner and the status the audit demands, although
      the audit falls back on the source's owner where the repair falls back on the item's creator. */
  lemma RepairedItemIsOwnedAsDemanded(t: Tables, id: Id, s: Source, now: Time)
    requires CanRepair(t) && InScope(Repaired(t, now), id) && s.studentId == t.items[id].studentId
    ensures s.studentId in t.students && !TerminalStatus(t.students[s.studentId].status)
    ensures OwnedAsDemanded(Repaired(t, now), s, Repaired(t, now).items[id])
    ensures !OpenUnderInactive(Repaired(t, now), Repaired(t, now).items[id])
  {
    hide TerminalStatus, IsSourceItem;
    assert !Blocked(t, id);
  }

  lemma StillInScope(t: Tables, id: Id, now: Time)
    requires id in t.items && IsSourceItem(t.items[id]) && t.items[id].studentId in t.students
    ensures InScope(Repaired(t, now), id) <==> IsActive(Repaired(t, now).items[id].status)
  {
  }

  /** The audit finds nothing wrong with the owner and status of an item of an open source. Where the item has no
      owner the comparison is null. */
  predicate PassesAsOwned(t: Tables, s: Source, item: Item)
    requires s.studentId in t.students
  {
    var owner := OwnerId(t, s, Some(item));
    && EmploymentOf(t, owner).Some? && ExpectedStatus(EmploymentOf(t, owner).value) == Some(item.status)
    && (item.owner.None? || item.owner == owner)
  }

  /** The where clause without null. */
  lemma FlaggedExactly(t: Tables, s: Source, item: Item)
    requires s.studentId in t.students
    ensures Flagged(t, s, Some(item)) <==>
      match StillOpen(t, s)
      case Yes => item.studentId != s.studentId || !PassesAsOwned(t, s, item)
      case No => IsActive(item.status)
      case Null => false
  {
    hide StillOpen;
  }

  /** What the audit makes of an item whose owner and status are as it demands. */
  predicate FlaggedAnyway(t: Tables, s: Source, item: Item)
    requires s.studentId in t.students
  {
    match StillOpen(t, s)
    case Yes => item.studentId != s.studentId || !IsActive(item.status)
    case No => IsActive(item.status)
    case Null => false
  }

  /** After the repair the audit flags a source with its item for no reason but one the repair does not touch:
      the item belongs to another student, the source is open and its item is not, or the source is closed
      and its item is not. */
  lemma RepairLeavesOnly(t: Tables, id: Id, s: Source, now: Time)
    requires CanRepair(t) && id in t.items && IsSourceItem(t.items[id])
    requires t.items[id].studentId in t.students && s.studentId in t.students
    ensures var u := Repaired(t, now); Flagged(u, s, Some(u.items[id])) <==> FlaggedAnyway(u, s, u.items[id])
  {
    hide TerminalStatus, IsSourceItem, StillOpen, Flagged, Repaired, OpenUnderInactive, EmploymentOf, OwnerId;
    var u := Repaired(t, now);
    RepairKeepsRows(t, now);
    var item := u.items[id];
    FlaggedExactly(u, s, item);
    if IsActive(item.status) && item.studentId == s.studentId {
      StillInScope(t, id, now);
      RepairedItemIsOwnedAsDemanded(t, id, s, now);
    }
  }

  lemma RepairKeepsRows(t: Tables, now: Time)
    ensures var u := Repaired(t, now);
      u.students == t.students && u.items.Keys == t.items.Keys
      && forall id :: id in t.items ==> u.items[id].studentId == t.items[id].studentId
  {
  }

  /** A source that is not closed, with an active item of its own student, is never flagged. */
  lemma HealthySourceIsClean(t: Tables, id: Id, s: Source, now: Time)
    requires CanRepair(t) && InScope(Repaired(t, now), id) && s.studentId == t.items[id].studentId
    requires Openness(s) != No
    ensures s.studentId in t.students && !Flagged(Repaired(t, now), s, Some(Repaired(t, now).items[id]))
  {
    hide TerminalStatus, Openness;
    RepairedItemIsOwnedAsDemanded(t, id, s, now);
    RepairLeavesOnly(t, id, s, now);
  }

  /** A visit without a result, of a student who is not terminal, is never flagged, whatever its item looks
      like and whether it has one. */
  lemma UnknownIsNeverFlagged(t: Tables, s: Source, item: Option<Item>)
    requires s.studentId in t.students && NoResult(s) && !TerminalStatus(t.students[s.studentId].status)
    ensures !Flagged(t, s, item)
  {
    UnknownExactlyWithoutResult(s);
    hide TerminalStatus, Openness, NoResult;
  }

  /** The items the audit joins with a source. */
  function Joined(t: Tables, s: Source): set<Id> {
    set i | i in t.items && t.items[i].kind == KindOf(s) && t.items[i].sourceType == SourceTypeOf(s)
            && t.items[i].sourceId == s.id
  }

  /** They are those whose kind, source type and source id name it. */
  lemma JoinedExactly(t: Tables, s: Source, i: Id)
    ensures i in Joined(t, s) <==>
      i in t.items && t.items[i].sourceId == s.id
      && (t.items[i].kind, t.items[i].sourceType) ==
           if s.FollowUp? then ("scheduled_follow_up", "follow_up")
           else if s.HomeVisit? then ("home_visit", "home_visit")
           else if s.CampusVisit? then ("campus_visit", "campus_visit")
           else ("enrollment_settlement", "enrollment")
  {
  }

  /** The audit counts a source once if any of its joined rows is flagged; without items it joins nulls. */
  ghost predicate SourceFlagged(t: Tables, s: Source, joined: set<Id>)
    requires s.studentId in t.students && joined <= t.items.Keys
  {
    if joined == {} then Flagged(t, s, None) else exists i :: i in joined && Flagged(t, s, Some(t.items[i]))
  }

  /** The reasons that are none of the repair's business. */
  ghost predicate NotForRepair(t: Tables, s: Source, joined: set<Id>)
    requires s.studentId in t.students && joined <= t.items.Keys
  {
    match StillOpen(t, s)
    case Yes =>
      joined == {} || exists i :: i in joined && (t.items[i].studentId != s.studentId || !IsActive(t.items[i].status))
    case No => exists i :: i in joined && IsActive(t.items[i].status)
    case Null => false
  }

  /** For every source: after the repair the audit still counts it exactly for a reason the repair does not
      touch, so no owner or status is wrong any more among those it sees. */
  lemma AuditAfterRepair(t: Tables, s: Source, now: Time)
    requires CanRepair(t) && s.studentId in t.students
    requires forall i :: i in t.items ==> t.items[i].studentId in t.students
    ensures var u := Repaired(t, now); var joined := Joined(t, s);
      && Joined(u, s) == joined && joined <= u.items.Keys
      && (SourceFlagged(u, s, joined) <==> NotForRepair(u, s, joined))
  {
    var u := Repaired(t, now);
    var joined := Joined(t, s);
    JoinedKept(t, s, now);
    JoinedAreSourceItems(t, s);
    hide Joined, Repaired, Flagged, IsSourceItem, CanRepair, StillOpen;
    if joined == {} {
      MissingItemFlagged(u, s);
    } else {
      forall i | i in joined ensures Flagged(u, s, Some(u.items[i])) <==> FlaggedAnyway(u, s, u.items[i]) {
        RepairLeavesOnly(t, i, s, now);
      }
    }
  }

  lemma JoinedAreSourceItems(t: Tables, s: Source)
    ensures forall i :: i in Joined(t, s) ==> i in t.items && IsSourceItem(t.items[i])
  {
    assert KindOf(s)[0] in {'s', 'h', 'c', 'e'} && SourceTypeOf(s)[0] in {'f', 'h', 'c', 'e'};
    assert |"lead_contact"| == 12 && "lead_contact"[0] == 'l' && |"help_request"| == 12 && |"home_visit"| == 10;
  }

  lemma JoinedKept(t: Tables, s: Source, now: Time)
    ensures Joined(Repaired(t, now), s) == Joined(t, s)
    ensures Joined(t, s) <= Repaired(t, now).items.Keys && Repaired(t, now).students == t.students
    ensures Joined(t, s) <= t.items.Keys
  {
    hide Judge, InScope, KindOf, SourceTypeOf;
  }

  lemma MissingItemFlagged(t: Tables, s: Source)
    requires s.studentId in t.students
    ensures Flagged(t, s, None) <==> StillOpen(t, s) == Yes
  {
    hide StillOpen;
  }

  /** No counter of the audit that looks at an item's owner or status counts this item of its source. */
  predicate Unseen(t: Tables, s: Source, item: Item)
    requires s.studentId in t.students
  {
    !Flagged(t, s, Some(item)) && !OpenUnderInactive(t, item)
  }

  /** The item has the status its owner's employment asks for, and either no owner while it is blocked, or
      the right one. */
  predicate LooksRight(t: Tables, s: Source, item: Item)
    requires s.studentId in t.students
  {
    PassesAsOwned(t, s, item) && (item.owner.None? ==> item.status != Open)
  }

  /** The repair plans more than the audit sees. A planned item of its own source's student goes unseen
      exactly when the student is not terminal and either the source is open and the item looks right, or
      whether the source is open is unknown and the item is not open under nobody active. Of an open source, an
      unseen item with an owner is planned only for a handover batch it still names, which no counter reads. */
  lemma AuditMissesExactly(t: Tables, id: Id, s: Source)
    requires InScope(t, id) && Planned(t, id) && s.studentId == t.items[id].studentId
    ensures Unseen(t, s, t.items[id]) <==> (
        !TerminalStatus(t.students[s.studentId].status)
        && ((Openness(s) == Yes && LooksRight(t, s, t.items[id]))
            || (NoResult(s) && !OpenUnderInactive(t, t.items[id]))))
    ensures Unseen(t, s, t.items[id]) && Openness(s) == Yes && t.items[id].owner.Some? ==> t.items[id].batch.Some?
  {
    hide TerminalStatus, IsSourceItem, Openness, NoResult, Flagged;
    UnknownExactlyWithoutResult(s);
    FlaggedExactly(t, s, t.items[id]);
  }

  /** The active item of a terminal student is always planned, and always counted. */
  lemma TerminalItemIsSeen(t: Tables, id: Id, s: Source)
    requires InScope(t, id) && s.studentId == t.items[id].studentId && TerminalStatus(t.students[s.studentId].status)
    ensures Planned(t, id) && Flagged(t, s, Some(t.items[id]))
  {
    hide TerminalStatus, IsSourceItem, Openness;
  }

  /** One student of agent 1 with one home visit item. */
  function HomeVisitExample(owner: Option<Id>, status: WorkStatus, batch: Option<Id>, employed: EmploymentStatus)
    : Tables
  {
    Tables(map[1 := Student(Some(1), "contacted")],
           map[1 := Item(1, "home_visit", "home_visit", 1, owner, Some(1), status, batch, None, 1, 0)],
           map[1 := employed, 2 := Suspended])
  }

  /** The visit of the example. */
  function HomeVisitOf(status: string, result: Option<string>): Source {
    HomeVisit(1, 1, 1, status, result, "", None)
  }

  /** Two ways in which an item of an open visit goes unseen: no owner, which compares as null, and a stale
      batch. */
  lemma AuditMissesOwnerlessAndBatched()
    ensures forall t ::
      (t == HomeVisitExample(None, BlockedSuspension, None, Suspended)
       || t == HomeVisitExample(Some(1), BlockedSuspension, Some(7), Suspended)) ==>
        Planned(t, 1) && Unseen(t, HomeVisitOf("scheduled", None), t.items[1])
  {
    assert !TerminalStatus("contacted");
    var s := HomeVisitOf("scheduled", None);
    forall t | t == HomeVisitExample(None, BlockedSuspension, None, Suspended)
      || t == HomeVisitExample(Some(1), BlockedSuspension, Some(7), Suspended)
      ensures Planned(t, 1) && Unseen(t, s, t.items[1])
    {
      assert InScope(t, 1) && Judge(t, 1) == Change(Some(1), BlockedSuspension);
      AuditMissesExactly(t, 1, s);
    }
  }

  /** The third way: the item of a completed visit without a result is blocked under the wrong agent. */
  lemma AuditMissesWrongOwner()
    ensures var t, s := HomeVisitExample(Some(2), BlockedSuspension, None, Active), HomeVisitOf("completed", None);
      Planned(t, 1) && Unseen(t, s, t.items[1]) && !LooksRight(t, s, t.items[1])
  {
    var t, s := HomeVisitExample(Some(2), BlockedSuspension, None, Active), HomeVisitOf("completed", None);
    assert !TerminalStatus("contacted");
    assert InScope(t, 1) && Judge(t, 1) == Change(Some(1), Open);
    AuditMissesExactly(t, 1, s);
  }

  /** A completed visit with an active item is counted once its result is known to be final, and never before. */
  lemma CompletedVisitNeedsResult()
    ensures var t := HomeVisitExample(Some(1), Open, None, Active);
      Flagged(t, HomeVisitOf("completed", Some("invalid")), Some(t.items[1]))
      && !Flagged(t, HomeVisitOf("completed", None), Some(t.items[1]))
  {
    var t := HomeVisitExample(Some(1), Open, None, Active);
    assert !TerminalStatus("contacted");
    UnknownIsNeverFlagged(t, HomeVisitOf("completed", None), Some(t.items[1]));
  }

  /** A legacy visit as the audit sees the task it became: no result, nothing planned next. */
  function FoldedSource(v: LegacyVisits.Visit, id: Id): Source
    requires v.studentId > 0 && v.agentId > 0 && LegacyVisits.TaskStatus(LegacyVisits.KindOf(v), v.status).Some?
  {
    var status := LegacyVisits.TaskStatus(LegacyVisits.KindOf(v), v.status).value;
    if LegacyVisits.KindOf(v).Home? then HomeVisit(id, v.studentId, v.agentId, status, None, "", None)
    else CampusVisit(id, v.studentId, v.agentId, status, None, "", None)
  }

  /** The fold of the legacy visits writes such rows: of the tasks it makes the audit takes exactly those still
      to be done as open, and cannot tell exactly of the completed ones. */
  lemma FoldedOpenness(v: LegacyVisits.Visit, id: Id)
    requires v.studentId > 0 && v.agentId > 0 && LegacyVisits.TaskStatus(LegacyVisits.KindOf(v), v.status).Some?
    ensures var kind := LegacyVisits.KindOf(v); var s := FoldedSource(v, id);
      && (Openness(s) == Yes <==> LegacyVisits.OpenTask(kind, LegacyVisits.TaskStatus(kind, v.status).value))
      && (Openness(s) == Null <==> v.status == "completed")
  {
    assert !HasText("");
  }

  // ---------------------------------------------------------------- items the repair does not reach

  /** _unhandled_inactive_work_items, for one item */
  predicate Unhandled(t: Tables, id: Id) {
    && id in t.items && IsActive(t.items[id].status) && t.items[id].owner.Some?
    && EmploymentOf(t, t.items[id].owner) in {None, Some(Offboarded)} && !Planned(t, id)
  }

  /** When the plan could be made, the only items it leaves under nobody employed are those of leads and help
      requests. */
  lemma UnhandledAreLeadsOrHelp(t: Tables, id: Id)
    requires CanRepair(t) && Unhandled(t, id) && t.items[id].studentId in t.students
    ensures !IsSourceItem(t.items[id])
  {
    hide TerminalStatus;
    assert !Blocked(t, id);
  }

  // ---------------------------------------------------------------- the script

  datatype PlannedChange = PlannedChange(id: Id, owner: Option<Id>, status: WorkStatus)

  function CodeOf(v: Verdict): string {
    if v == OwnerOffboarded then "source_work_item_owner_offboarded" else "source_work_item_owner_unavailable"
  }

  /** The changes list the planned items of a set, once each in order of id. */
  ghost predicate ListsPlan(t: Tables, ids: set<Id>, changes: seq<PlannedChange>) {
    && (forall i :: 0 <= i < |changes| ==>
          changes[i].id in ids && Planned(t, changes[i].id)
          && Judge(t, changes[i].id) == Change(changes[i].owner, changes[i].status))
    && (forall id :: id in ids && Planned(t, id) ==> exists i :: 0 <= i < |changes| && changes[i].id == id)
    && (forall i, j :: 0 <= i < j < |changes| ==> changes[i].id < changes[j].id)
  }

  ghost predicate FirstBlocked(t: Tables, id: Id) {
    Blocked(t, id) && forall x :: x in t.items && x < id ==> !Blocked(t, x)
  }

  function PlannedOf(t: Tables, ids: set<Id>, sourceType: string): set<Id> {
    set id | id in ids && Planned(t, id) && t.items[id].sourceType == sourceType
  }

  function CountOf(counts: map<string, nat>, key: string): nat {
    if key in counts then counts[key] else 0
  }

  lemma ListsPlanOneMore(t: Tables, ids: set<Id>, changes: seq<PlannedChange>, id: Id)
    requires ListsPlan(t, ids, changes) && (forall x :: x in ids ==> x < id) && Planned(t, id)
    ensures ListsPlan(t, ids + {id}, changes + [PlannedChange(id, Judge(t, id).owner, Judge(t, id).status)])
  {
    hide Judge, InScope;
    var more := changes + [PlannedChange(id, Judge(t, id).owner, Judge(t, id).status)];
    forall x | x in ids + {id} && Planned(t, x) ensures exists i :: 0 <= i < |more| && more[i].id == x {
      if x == id {
        assert more[|changes|].id == x;
      } else {
        var i :| 0 <= i < |changes| && changes[i].id == x;
        assert more[i].id == x;
      }
    }
  }

  lemma ListsPlanSkip(t: Tables, ids: set<Id>, changes: seq<PlannedChange>, id: Id)
    requires ListsPlan(t, ids, changes) && !Planned(t, id)
    ensures ListsPlan(t, ids + {id}, changes)
  {
    hide Planned, Judge;
  }

  lemma PlannedOfOneMore(t: Tables, ids: set<Id>, id: Id, sourceType: string)
    requires id !in ids && id in t.items
    ensures |PlannedOf(t, ids + {id}, sourceType)|
         == |PlannedOf(t, ids, sourceType)| + if Planned(t, id) && t.items[id].sourceType == sourceType then 1 else 0
  {
    hide Planned;
    if Planned(t, id) && t.items[id].sourceType == sourceType {
      SizeOneMore(PlannedOf(t, ids + {id}, sourceType), PlannedOf(t, ids, sourceType), id);
    } else {
      assert PlannedOf(t, ids + {id}, sourceType) == PlannedOf(t, ids, sourceType);
    }
  }

  ghost predicate Counted(t: Tables, ids: set<Id>, counts: map<string, nat>) {
    forall key :: CountOf(counts, key) == |PlannedOf(t, ids, key)|
  }

  lemma CountedOneMore(t: Tables, ids: set<Id>, counts: map<string, nat>, id: Id)
    requires Counted(t, ids, counts) && id !in ids && id in t.items
    ensures var key := t.items[id].sourceType;
      Counted(t, ids + {id}, if Planned(t, id) then counts[key := CountOf(counts, key) + 1] else counts)
  {
    hide Planned, PlannedOf;
    forall key {
      PlannedOfOneMore(t, ids, id, key);
    }
  }

  class RepairSession {
    var students: map<Id, Student>
    var items: map<Id, Item>
    var employment: map<Id, EmploymentStatus>

    function Now(): Tables
      reads this
    {
      Tables(students, items, employment)
    }

    /** collect_owner_changes: the plan in order of id, counted by source type, or the first item that cannot
        be given an owner. */
    method CollectOwnerChanges() returns (result: Result<seq<PlannedChange>, string>, counts: map<string, nat>)
      ensures result.Ok? <==> CanRepair(Now())
      ensures result.Ok? ==> ListsPlan(Now(), items.Keys, result.value)
      ensures result.Ok? ==> Counted(Now(), items.Keys, counts)
      ensures result.Err? ==> exists id :: FirstBlocked(Now(), id) && result.error == CodeOf(Judge(Now(), id))
    {
      hide Judge, InScope, ListsPlan, PlannedOf, Planned, Blocked, Counted;
      var t := Now();
      var changes: seq<PlannedChange> := [];
      counts := map[];
      var todo := Ascending(items.Keys);
      ghost var done: set<Id> := {};
      NothingListed(t);
      for n := 0 to |todo|
        invariant done == (set x | x in todo[..n])
        invariant ListsPlan(t, done, changes) && Counted(t, done, counts)
        invariant forall x :: x in done ==> !Blocked(t, x)
      {
        var id := todo[n];
        assert id in items && id !in done && forall x :: x in done ==> x < id;
        assert todo[..n + 1] == todo[..n] + [id];
        if Blocked(t, id) {
          assert FirstBlocked(t, id) by {
            assert forall x :: x in items && x < id ==> x in todo[..n];
          }
          BlockedInScope(t, id);
          return Err(CodeOf(Judge(t, id))), counts;
        }
        CountedOneMore(t, done, counts, id);
        if Planned(t, id) {
          ListsPlanOneMore(t, done, changes, id);
          PlannedIsItem(t, id);
          changes := changes + [PlannedChange(id, Judge(t, id).owner, Judge(t, id).status)];
          counts := counts[t.items[id].sourceType := CountOf(counts, t.items[id].sourceType) + 1];
        } else {
          ListsPlanSkip(t, done, changes, id);
        }
        done := done + {id};
      }
      assert todo[..|todo|] == todo;
      assert done == items.Keys;
      return Ok(changes), counts;
    }

    /** The apply loop of run_repair. */
    method Apply(changes: seq<PlannedChange>, now: Time)
      requires ListsPlan(Now(), items.Keys, changes)
      modifies `items
      ensures Now() == Repaired(old(Now()), now)
    {
      ghost var t := Now();
      hide Judge, InScope;
      for n := 0 to |changes|
        invariant items.Keys == t.items.Keys
        invariant forall id :: id in t.items ==>
          items[id] == if exists i :: 0 <= i < n && changes[i].id == id then RepairedItem(t, id, now) else t.items[id]
      {
        var c := changes[n];
        PlannedIsItem(t, c.id);
        var item := items[c.id];
        items := items[c.id := item.(owner := c.owner, status := c.status, batch := None, completedAt := None,
                                     version := item.version + 1, updatedAt := now)];
      }
    }
  }

  lemma NothingListed(t: Tables)
    ensures ListsPlan(t, {}, []) && Counted(t, {}, map[])
  {
    assert forall key :: PlannedOf(t, {}, key) == {};
  }

  lemma PlannedIsItem(t: Tables, id: Id)
    requires Planned(t, id)
    ensures InScope(t, id) && id in t.items && Judge(t, id).Change?
  {
  }

  lemma BlockedInScope(t: Tables, id: Id)
    requires Blocked(t, id)
    ensures InScope(t, id)
  {
  }

  lemma PlanNamesPlanned(t: Tables, changes: seq<PlannedChange>)
    requires ListsPlan(t, t.items.Keys, changes) && changes != []
    ensures exists id :: id in t.items && Planned(t, id)
  {
    assert changes[0].id in t.items && Planned(t, changes[0].id);
  }

  /** Collect, apply, collect again: the second plan is empty. */
  method RepairTwice(r: RepairSession, now: Time) returns (ok: bool, again: seq<PlannedChange>)
    modifies r`items
    ensures ok <==> CanRepair(old(r.Now()))
    ensures ok ==> r.Now() == Repaired(old(r.Now()), now) && again == []
    ensures !ok ==> r.Now() == old(r.Now())
  {
    hide Judge, InScope;
    ghost var t := r.Now();
    var plan, counts := r.CollectOwnerChanges();
    if plan.Err? {
      return false, [];
    }
    r.Apply(plan.value, now);
    forall id | id in t.items ensures !Planned(r.Now(), id) && !Blocked(r.Now(), id) {
      NothingPlannedAgain(t, id, now);
    }
    var second, none := r.CollectOwnerChanges();
    if second.value != [] {
      PlanNamesPlanned(r.Now(), second.value);
    }
    return true, second.value;
  }
}
