/**
 What the backfill adds, told from the columns of the legacy rows and the tables it leaves
 (app/migration_data/domain_backfill_20260711.py), and how its notion of an open source compares with the one of the
 live audit (app/domain_consistency.py) and the live status policy.
 */
module BackfillDue {
  import opened Common
  import opened DomainBackfill
  import OwnerRepair
  import opened StatusPolicy

  // ---------------------------------------------------------------- statuses

  /** The texts the backfill takes as invalid or terminal are those the live policy maps so, spaces aside. */
  lemma StatusTexts(text: string)
    ensures IsInvalid(text) <==> CanonicalOfText(Strip(text)) == Invalid
    ensures IsTerminal(text) <==> CanonicalOfText(Strip(text)) in {Enrolled, Invalid}
  {
    StatusNames(Strip(text));
    hide Strip;
  }

  lemma StatusNames(text: string)
    ensures text in INVALID_STATUS_VALUES <==> CanonicalOfText(text) == Invalid
    ensures text in TERMINAL_STATUS_VALUES <==> CanonicalOfText(text) in {Enrolled, Invalid}
  {
    StoredNames(text);
    DisplayValues(text);
    hide CanonicalStatus, NameOfValue;
  }

  lemma StoredNames(text: string)
    ensures CanonicalStatus(text) == Invalid <==>
      text in {"invalid", "completed", "expired", "high_score", "not_interested", "no_intent", "child_not_want_study",
               "child_not_interested"}
    ensures CanonicalStatus(text) == Enrolled <==> text == "enrolled"
    ensures CanonicalStatus(text) != Unmapped ==> text != "" && text[0] < 128 as char
  {
  }

  lemma DisplayValues(text: string)
    ensures CanonicalStatus(NameOfValue(text)) == Invalid <==>
      text in {"已完成", "无效", "已过期", "高分段", "无意向", "孩子不想读"}
    ensures CanonicalStatus(NameOfValue(text)) == Enrolled <==> text == "已报名"
  {
    NamedValues(text);
    StoredNames(NameOfValue(text));
    hide CanonicalStatus, NameOfValue;
  }

  /** The stored names of the display values that end a lead. */
  lemma NamedValues(text: string)
    ensures NameOfValue(text) in {"invalid", "completed", "expired", "high_score", "not_interested",
                                  "child_not_want_study"} <==>
      text in {"已完成", "无效", "已过期", "高分段", "无意向", "孩子不想读"}
    ensures NameOfValue(text) !in {"no_intent", "child_not_interested"}
    ensures NameOfValue(text) == "enrolled" <==> text == "已报名"
  {
  }

  predicate IsLost(s: Student) {
    CanonicalOfText(Strip(s.status)) == Invalid
  }

  predicate IsSettled(s: Student) {
    CanonicalOfText(Strip(s.status)) in {Enrolled, Invalid}
  }

  // ---------------------------------------------------------------- which items are added

  /** The run adds an item of this key. */
  ghost predicate Gains(t: Tables, u: Tables, key: Key) {
    exists i :: i in u.items && i !in t.items && u.items[i].key == key
  }

  ghost predicate Free(t: Tables, key: Key) {
    forall i :: i in t.items ==> t.items[i].key != key
  }

  /** And it is this one. */
  ghost predicate Gained(t: Tables, u: Tables, item: Item) {
    && Gains(t, u, item.key)
    && forall i :: i in u.items && i !in t.items && u.items[i].key == item.key ==> u.items[i] == item
  }

  lemma InSources(t: Tables, src: Source)
    ensures src in Sources(t) <==>
      match src
      case Lead(id) => id in t.students
      case FollowUpRow(id) => id in t.followUps
      case HomeRow(id) => id in t.home
      case CampusRow(id) => id in t.campus
      case Settlement(id) => id in t.enrollments
      case Help(id) => id in t.students
  {
    assert ScannedUpTo(t, 1) == ScannedUpTo(t, 0) + Scanned(t, 0);
    assert ScannedUpTo(t, 2) == ScannedUpTo(t, 1) + Scanned(t, 1);
    assert ScannedUpTo(t, 3) == ScannedUpTo(t, 2) + Scanned(t, 2);
    assert ScannedUpTo(t, 4) == ScannedUpTo(t, 3) + Scanned(t, 3);
    assert ScannedUpTo(t, 5) == ScannedUpTo(t, 4) + Scanned(t, 4);
    assert ScannedUpTo(t, 6) == ScannedUpTo(t, 5) + Scanned(t, 5);
    hide ScannedUpTo;
  }

  lemma FreeKey(t: Tables, key: Key)
    ensures Free(t, key) <==> key !in ItemKeys(t.items)
  {
  }

  /** A judged source gains its item exactly when its key was free. */
  lemma GainedWhenJudged(t: Tables, u: Tables, tr: Trace, now: Time, src: Source)
    requires Backfilled(t, u, tr, now) && src in Sources(t)
    ensures var verdict := Judge(t, Statuses(t), src, now);
      && (Gains(t, u, KeyOf(src)) <==> Free(t, KeyOf(src)) && verdict.Row?)
      && (Gains(t, u, KeyOf(src)) ==> Gained(t, u, verdict.item) && verdict.item.key == KeyOf(src))
  {
    hide Backfilled, Judge, Statuses, Sources, KeyOf, Free;
    FreeKey(t, KeyOf(src));
    RowKey(t, Statuses(t), src, now);
    forall i | i in u.items && i !in t.items && u.items[i].key == KeyOf(src)
      ensures Judge(t, Statuses(t), src, now) == Row(u.items[i]) && Free(t, KeyOf(src))
    {
      var other := ItemOrigin(t, u, tr, now, i);
      KeysApart(other, src);
    }
    if Free(t, KeyOf(src)) && Judge(t, Statuses(t), src, now).Row? {
      DueIsAdded(t, u, tr, now, src);
    }
  }

  lemma DueIsAdded(t: Tables, u: Tables, tr: Trace, now: Time, src: Source)
    requires Backfilled(t, u, tr, now) && src in Sources(t) && Judge(t, Statuses(t), src, now).Row?
    requires KeyOf(src) !in ItemKeys(t.items)
    ensures Gains(t, u, KeyOf(src))
  {
    hide Judge, Statuses, Sources, KeyOf, ItemKeys, EmploymentAfter, MappedAll, CatalogueAdded, DueEvents,
      DueAssignments;
    RowKey(t, Statuses(t), src, now);
    assert src in DueItems(t, Statuses(t), Sources(t), now);
    var i := tr.item[src];
    assert i in u.items && i !in t.items && u.items[i].key == KeyOf(src);
  }

  /** The state of an item is that of its owner's employment as the run leaves it. */
  function StateUnder(u: Tables, owner: Id): string {
    if owner in u.users && owner in u.employment && u.employment[owner].status == "active" then "open"
    else "blocked_suspension"
  }

  lemma StateIsWorkStatus(t: Tables, u: Tables, tr: Trace, now: Time, owner: Id)
    requires Backfilled(t, u, tr, now)
    ensures WorkStatus(owner, Statuses(t)) == StateUnder(u, owner)
  {
    hide DerivedStatus, DueItems, DueEvents, DueAssignments, CatalogueAdded, MappedAll, Sources;
  }

  /** The student's agent, or else who created the row. */
  function OwnerOf(t: Tables, student: Id, creator: Id): Id
    requires student in t.students
  {
    if t.students[student].assignedTo.Some? then t.students[student].assignedTo.value else creator
  }

  predicate Late(due: Option<Time>, now: Time) {
    due.Some? && due.value < now
  }

  function Since(at: Option<Time>, now: Time): Time {
    if at.Some? then at.value else now
  }

  /** An assigned lead that is neither enrolled nor invalid gets its contact item. */
  lemma LeadGains(t: Tables, u: Tables, tr: Trace, now: Time, id: Id)
    requires Backfilled(t, u, tr, now) && id in t.students
    ensures var s := t.students[id]; var key := Key("lead_contact", "student", id);
      && (Gains(t, u, key) <==> Free(t, key) && s.assignedTo.Some? && !IsSettled(s))
      && (Gains(t, u, key) ==> Gained(t, u, Item(
            id, key, StateUnder(u, s.assignedTo.value), s.assignedTo, s.assignedTo, "medium", None,
            Since(s.createdAt, now), now)))
  {
    var s := t.students[id];
    InSources(t, Lead(id));
    GainedWhenJudged(t, u, tr, now, Lead(id));
    StatusTexts(s.status);
    if s.assignedTo.Some? {
      StateIsWorkStatus(t, u, tr, now, s.assignedTo.value);
    }
    hide Backfilled, Sources, Statuses, IsTerminal, IsSettled, Gains, Gained, Free, WorkStatus, StateUnder;
  }

  lemma RunHasStudents(t: Tables, now: Time, src: Source)
    requires CanRun(t, now) && src in Sources(t)
    ensures !Judge(t, Statuses(t), src, now).NoStudent?
  {
    hide Disagrees, Sources, Judge, Statuses;
  }

  /** A follow-up that is not completed gets an item due at its date. */
  lemma FollowUpGains(t: Tables, u: Tables, tr: Trace, now: Time, id: Id)
    requires Backfilled(t, u, tr, now) && CanRun(t, now) && id in t.followUps
    ensures var f := t.followUps[id]; var key := Key("scheduled_follow_up", "follow_up", id);
      && (Gains(t, u, key) <==> Free(t, key) && !f.completed)
      && (Gains(t, u, key) ==>
            f.studentId in t.students
            && var owner := OwnerOf(t, f.studentId, f.agentId);
               Gained(t, u, Item(f.studentId, key, StateUnder(u, owner), Some(owner), Some(f.agentId),
                                 if Late(f.followUpDate, now) then "high" else "medium", f.followUpDate,
                                 Since(f.createdAt, now), now)))
  {
    var src := FollowUpRow(id);
    InSources(t, src);
    GainedWhenJudged(t, u, tr, now, src);
    RunHasStudents(t, now, src);
    OrdinaryPriority(Late(t.followUps[id].followUpDate, now));
    if t.followUps[id].studentId in t.students {
      StateIsWorkStatus(t, u, tr, now, OwnerOf(t, t.followUps[id].studentId, t.followUps[id].agentId));
    }
    hide Backfilled, CanRun, Sources, Statuses, Priority, Gains, Gained, Free, WorkStatus, StateUnder;
  }

  lemma OrdinaryPriority(urgent: bool)
    ensures Priority("", urgent) == if urgent then "high" else "medium"
  {
    assert Strip("") == "";
    assert Lower("") == "";
  }

  // ---------------------------------------------------------------- visits, and the live audit's notion of open

  function ResultOf(text: string): Option<string> {
    if text == "" then None else Some(text)
  }

  /** A visit as the live audit sees it. Which ids it has does not matter to its openness. */
  function HomeSource(h: HomeTask): OwnerRepair.Source {
    OwnerRepair.HomeVisit(1, 1, 1, h.status, ResultOf(h.result), h.nextAction, h.nextFollowUpAt)
  }

  function CampusSource(c: CampusTask): OwnerRepair.Source {
    OwnerRepair.CampusVisit(1, 1, 1, c.status, ResultOf(c.result), c.nextAction, c.nextFollowUpAt)
  }

  /** A next action of nothing but spaces: a text to the backfill, none to the audit. */
  predicate OnlySpaces(text: string) {
    text != "" && forall i :: 0 <= i < |text| ==> text[i] == ' '
  }

  /** What a home visit looks like when work is left on it. */
  predicate HomeNeedsWork(h: HomeTask) {
    OwnerRepair.Openness(HomeSource(h)) == OwnerRepair.Yes
    || (h.status == "completed" && h.result in {"considering", "waiting_score"} && h.nextFollowUpAt.None?
        && OnlySpaces(h.nextAction))
  }

  predicate CampusNeedsWork(c: CampusTask) {
    OwnerRepair.Openness(CampusSource(c)) == OwnerRepair.Yes
    || (c.status in {"arrived", "no_show"} && c.nextFollowUpAt.None? && OnlySpaces(c.nextAction)
        && c.result !in {"arrived", "no_show", "rescheduled", "considering"})
  }

  predicate SettlementNeedsWork(e: Enrollment) {
    OwnerRepair.Openness(OwnerRepair.Enrollment(1, 1, 1, e.settlementStatus)) == OwnerRepair.Yes
  }

  /** The backfill takes a home visit as open when the live audit does, and besides when only a blank next action
      makes it so. */
  lemma HomeOpenness(h: HomeTask)
    ensures HomeVisitIsOpen(h) <==> HomeNeedsWork(h)
  {
  }

  lemma CampusOpenness(c: CampusTask)
    ensures CampusVisitIsOpen(c) <==> CampusNeedsWork(c)
  {
  }

  /** "high" or the Chinese word in any case and with any spaces around. */
  predicate SaysHigh(text: string) {
    var word := Strip(text);
    word == "高"
    || (|word| == 4 && word[0] in {'h', 'H'} && word[1] in {'i', 'I'} && word[2] in {'g', 'G'} && word[3] in {'h', 'H'})
  }

  predicate SaysLow(text: string) {
    var word := Strip(text);
    word == "低" || (|word| == 3 && word[0] in {'l', 'L'} && word[1] in {'o', 'O'} && word[2] in {'w', 'W'})
  }

  lemma PriorityMeans(text: string, urgent: bool)
    ensures Priority(text, urgent) ==
      if urgent || SaysHigh(text) then "high" else if SaysLow(text) then "low" else "medium"
  {
    LowerMeans(Strip(text));
    hide Strip;
  }

  lemma LowerMeans(word: string)
    ensures Lower(word) == "high" <==>
      |word| == 4 && word[0] in {'h', 'H'} && word[1] in {'i', 'I'} && word[2] in {'g', 'G'} && word[3] in {'h', 'H'}
    ensures Lower(word) == "low" <==>
      |word| == 3 && word[0] in {'l', 'L'} && word[1] in {'o', 'O'} && word[2] in {'w', 'W'}
    ensures Lower(word) == "高" <==> word == "高"
    ensures Lower(word) == "低" <==> word == "低"
  {
    var lower := Lower(word);
    assert |lower| == |word|;
    if |word| == 4 {
      assert lower == [LowerChar(word[0]), LowerChar(word[1]), LowerChar(word[2]), LowerChar(word[3])];
    } else if |word| == 3 {
      assert lower == [LowerChar(word[0]), LowerChar(word[1]), LowerChar(word[2])];
    } else if |word| == 1 {
      assert lower == [LowerChar(word[0])];
      assert word == [word[0]];
    }
  }

  function HomeDue(h: HomeTask): Option<Time> {
    if h.nextFollowUpAt.Some? then h.nextFollowUpAt
    else if h.scheduledAt.Some? then h.scheduledAt
    else h.requestedVisitTime
  }

  function CampusDue(c: CampusTask): Option<Time> {
    if c.nextFollowUpAt.Some? then c.nextFollowUpAt else c.appointmentAt
  }

  function HomeItemOf(t: Tables, u: Tables, now: Time, id: Id): Item
    requires id in t.home && t.home[id].studentId in t.students
  {
    var h := t.home[id];
    var owner := OwnerOf(t, h.studentId, h.creatorId);
    Item(h.studentId, Key("home_visit", "home_visit", id), StateUnder(u, owner), Some(owner), Some(h.creatorId),
         if Late(HomeDue(h), now) || SaysHigh(h.priority) then "high"
         else if SaysLow(h.priority) then "low" else "medium",
         HomeDue(h), Since(h.createdAt, now), now)
  }

  lemma HomeVerdict(t: Tables, u: Tables, tr: Trace, now: Time, id: Id)
    requires Backfilled(t, u, tr, now) && CanRun(t, now) && id in t.home
    ensures var verdict := Judge(t, Statuses(t), HomeRow(id), now);
      && (verdict.Row? <==> HomeNeedsWork(t.home[id]))
      && (verdict.Row? ==> t.home[id].studentId in t.students && verdict.item == HomeItemOf(t, u, now, id))
  {
    var h := t.home[id];
    InSources(t, HomeRow(id));
    RunHasStudents(t, now, HomeRow(id));
    HomeOpenness(h);
    PriorityMeans(h.priority, Late(HomeDue(h), now));
    if h.studentId in t.students {
      StateIsWorkStatus(t, u, tr, now, OwnerOf(t, h.studentId, h.creatorId));
    }
    hide Backfilled, CanRun, Sources, Statuses, Priority, WorkStatus, StateUnder, HomeVisitIsOpen, HomeNeedsWork,
      SaysHigh, SaysLow;
  }

  /** A home visit that is open, or looks so by a blank next action, gets an item due at its next date. */
  lemma HomeVisitGains(t: Tables, u: Tables, tr: Trace, now: Time, id: Id)
    requires Backfilled(t, u, tr, now) && CanRun(t, now) && id in t.home
    ensures var h := t.home[id]; var key := Key("home_visit", "home_visit", id);
      && (Gains(t, u, key) <==> Free(t, key) && HomeNeedsWork(h))
      && (Gains(t, u, key) ==>
            h.studentId in t.students && Gained(t, u, HomeItemOf(t, u, now, id)))
  {
    InSources(t, HomeRow(id));
    GainedWhenJudged(t, u, tr, now, HomeRow(id));
    HomeVerdict(t, u, tr, now, id);
    hide Backfilled, CanRun, Sources, Statuses, Judge, Gains, Gained, Free, HomeNeedsWork, HomeItemOf;
  }

  lemma CampusVisitGains(t: Tables, u: Tables, tr: Trace, now: Time, id: Id)
    requires Backfilled(t, u, tr, now) && CanRun(t, now) && id in t.campus
    ensures var c := t.campus[id]; var key := Key("campus_visit", "campus_visit", id);
      && (Gains(t, u, key) <==> Free(t, key) && CampusNeedsWork(c))
      && (Gains(t, u, key) ==>
            c.studentId in t.students
            && var owner := OwnerOf(t, c.studentId, c.creatorId);
               Gained(t, u, Item(c.studentId, key, StateUnder(u, owner), Some(owner), Some(c.creatorId),
                                 if Late(CampusDue(c), now) then "high" else "medium", CampusDue(c),
                                 Since(c.createdAt, now), now)))
  {
    var src, c := CampusRow(id), t.campus[id];
    InSources(t, src);
    GainedWhenJudged(t, u, tr, now, src);
    RunHasStudents(t, now, src);
    CampusOpenness(c);
    OrdinaryPriority(Late(CampusDue(c), now));
    if c.studentId in t.students {
      StateIsWorkStatus(t, u, tr, now, OwnerOf(t, c.studentId, c.creatorId));
    }
    hide Backfilled, CanRun, Sources, Statuses, Priority, Gains, Gained, Free, WorkStatus, StateUnder,
      CampusVisitIsOpen, CampusNeedsWork;
  }

  lemma SettlementOpenness(e: Enrollment)
    ensures e.settlementStatus in OPEN_SETTLEMENTS <==> SettlementNeedsWork(e)
  {
  }

  /** An enrollment the live audit takes as open gets a settlement item, urgent when it is disputed. */
  lemma SettlementGains(t: Tables, u: Tables, tr: Trace, now: Time, id: Id)
    requires Backfilled(t, u, tr, now) && CanRun(t, now) && id in t.enrollments
    ensures var e := t.enrollments[id]; var key := Key("enrollment_settlement", "enrollment", id);
      && (Gains(t, u, key) <==> Free(t, key) && SettlementNeedsWork(e))
      && (Gains(t, u, key) ==>
            e.studentId in t.students
            && var owner := OwnerOf(t, e.studentId, e.attributedAgentId);
               Gained(t, u, Item(e.studentId, key, StateUnder(u, owner), Some(owner), Some(e.attributedAgentId),
                                 if e.settlementStatus == "disputed" then "high" else "medium", e.enrolledAt,
                                 Since(e.createdAt, now), now)))
  {
    var src, e := Settlement(id), t.enrollments[id];
    InSources(t, src);
    GainedWhenJudged(t, u, tr, now, src);
    RunHasStudents(t, now, src);
    OrdinaryPriority(e.settlementStatus == "disputed");
    SettlementOpenness(e);
    if e.studentId in t.students {
      StateIsWorkStatus(t, u, tr, now, OwnerOf(t, e.studentId, e.attributedAgentId));
    }
    hide Backfilled, CanRun, Sources, Statuses, Priority, Gains, Gained, Free, WorkStatus, StateUnder,
      SettlementNeedsWork;
  }

  /** An assigned student who needs help gets an urgent help item; a student without an agent gets none. */
  lemma HelpGains(t: Tables, u: Tables, tr: Trace, now: Time, id: Id)
    requires Backfilled(t, u, tr, now) && id in t.students
    ensures var s := t.students[id]; var key := Key("help_request", "help", id);
      && (Gains(t, u, key) <==> Free(t, key) && s.needHelp && s.assignedTo.Some?)
      && (Gains(t, u, key) ==> Gained(t, u, Item(
            id, key, StateUnder(u, s.assignedTo.value), s.assignedTo, s.assignedTo, "high", s.updatedAt,
            Since(s.createdAt, now), now)))
  {
    var src, s := Help(id), t.students[id];
    InSources(t, src);
    GainedWhenJudged(t, u, tr, now, src);
    if s.assignedTo.Some? {
      StateIsWorkStatus(t, u, tr, now, s.assignedTo.value);
    }
    hide Backfilled, Sources, Statuses, Gains, Gained, Free, WorkStatus, StateUnder;
  }

  /** Nothing else is added: every new item has the key of one of those rows. */
  lemma NothingElseGained(t: Tables, u: Tables, tr: Trace, now: Time, i: Id)
    requires Backfilled(t, u, tr, now) && i in u.items && i !in t.items
    ensures var key := u.items[i].key;
      || ((key.kind, key.sourceType) in {("lead_contact", "student"), ("help_request", "help")}
          && key.sourceId in t.students)
      || ((key.kind, key.sourceType) == ("scheduled_follow_up", "follow_up") && key.sourceId in t.followUps)
      || ((key.kind, key.sourceType) == ("home_visit", "home_visit") && key.sourceId in t.home)
      || ((key.kind, key.sourceType) == ("campus_visit", "campus_visit") && key.sourceId in t.campus)
      || ((key.kind, key.sourceType) == ("enrollment_settlement", "enrollment") && key.sourceId in t.enrollments)
  {
    var src := ItemOrigin(t, u, tr, now, i);
    hide Backfilled, Statuses, Judge;
    JudgedRow(t, Statuses(t), src, now);
  }

  lemma JudgedRow(t: Tables, statuses: map<Id, string>, src: Source, now: Time)
    requires Judge(t, statuses, src, now).Row?
    ensures match src
      case Lead(id) => id in t.students
      case FollowUpRow(id) => id in t.followUps
      case HomeRow(id) => id in t.home
      case CampusRow(id) => id in t.campus
      case Settlement(id) => id in t.enrollments
      case Help(id) => id in t.students
  {
    hide LeadItem, FollowUpItem, HomeItem, CampusItem, SettlementItem, HelpItem;
  }

  // ---------------------------------------------------------------- when the run raises

  /** The active assignment row of a student the dict ends up with. */
  ghost predicate LastActive(t: Tables, student: Id, a: Id) {
    && a in t.assignments && t.assignments[a].endedAt.None? && t.assignments[a].studentId == student
    && forall b ::
      b in t.assignments && t.assignments[b].endedAt.None? && t.assignments[b].studentId == student ==> b <= a
  }

  lemma DisagreesMeans(t: Tables, s: Id)
    requires s in t.students
    ensures Disagrees(t, s) <==>
      t.students[s].assignedTo.Some?
      && exists a :: LastActive(t, s, a) && t.assignments[a].agentId != t.students[s].assignedTo.value
  {
    var rows := ActiveRows(t.assignments, s);
    assert forall b :: b in rows <==>
      b in t.assignments && t.assignments[b].endedAt.None? && t.assignments[b].studentId == s;
    hide ActiveRows;
    if rows != {} {
      assert LastActive(t, s, Latest(rows));
      assert forall a :: LastActive(t, s, a) ==> a == Latest(rows);
    }
  }

  /** A row with work left whose student is not there. */
  predicate Orphaned(t: Tables, src: Source) {
    match src
    case Lead(_) => false
    case FollowUpRow(id) => id in t.followUps && !t.followUps[id].completed && t.followUps[id].studentId !in t.students
    case HomeRow(id) => id in t.home && HomeNeedsWork(t.home[id]) && t.home[id].studentId !in t.students
    case CampusRow(id) => id in t.campus && CampusNeedsWork(t.campus[id]) && t.campus[id].studentId !in t.students
    case Settlement(id) =>
      id in t.enrollments && SettlementNeedsWork(t.enrollments[id]) && t.enrollments[id].studentId !in t.students
    case Help(_) => false
  }

  lemma OrphanedMeans(t: Tables, now: Time, src: Source)
    ensures src in Sources(t) && Judge(t, Statuses(t), src, now).NoStudent? <==> Orphaned(t, src)
  {
    InSources(t, src);
    match src {
      case HomeRow(id) => if id in t.home { HomeOpenness(t.home[id]); }
      case CampusRow(id) => if id in t.campus { CampusOpenness(t.campus[id]); }
      case Settlement(id) => if id in t.enrollments { SettlementOpenness(t.enrollments[id]); }
      case _ =>
    }
    hide Sources, Statuses, HomeNeedsWork, CampusNeedsWork, SettlementNeedsWork, HomeVisitIsOpen, CampusVisitIsOpen,
      Priority, WorkStatus;
  }

  /** The run goes through exactly when the last active row of every assigned student names his agent, and the student
      of every row with work left is there. */
  lemma RunsExactly(t: Tables, now: Time)
    ensures CanRun(t, now) <==>
      && (forall s, a :: s in t.students && t.students[s].assignedTo.Some? && LastActive(t, s, a) ==>
            t.assignments[a].agentId == t.students[s].assignedTo.value)
      && forall src :: !Orphaned(t, src)
  {
    forall s | s in t.students
      ensures Disagrees(t, s) <==>
        t.students[s].assignedTo.Some?
        && exists a :: LastActive(t, s, a) && t.assignments[a].agentId != t.students[s].assignedTo.value
    {
      DisagreesMeans(t, s);
    }
    forall src
      ensures src in Sources(t) && Judge(t, Statuses(t), src, now).NoStudent? <==> Orphaned(t, src)
    {
      OrphanedMeans(t, now, src);
    }
    hide Disagrees, Judge, Statuses, Sources, LastActive, Orphaned;
  }

  // ---------------------------------------------------------------- employment, events and assignments

  /** A log of this user's dismissal: its content starts with role, login name and name. */
  predicate TellsDismissal(l: Log, u: User) {
    var start := "离职 " + u.role + " " + u.username + "(" + u.name + ")：";
    l.action == "离职用户" && |start| <= |l.content| && l.content[..|start|] == start
  }

  predicate WasDismissed(t: Tables, u: User) {
    exists l :: l in t.logs && TellsDismissal(t.logs[l], u)
  }

  predicate KeepsLeads(t: Tables, user: Id) {
    exists s :: s in t.students && t.students[s].assignedTo == Some(user) && !IsSettled(t.students[s])
  }

  lemma KeepsLeadsMeans(t: Tables, user: Id)
    ensures OwnsNonterminal(t, user) <==> KeepsLeads(t, user)
  {
    forall s | s in t.students {
      StatusTexts(t.students[s].status);
    }
    hide IsTerminal, IsSettled;
  }

  lemma WasDismissedMeans(t: Tables, u: User)
    ensures HasOffboardLog(t, u) <==> WasDismissed(t, u)
  {
    forall l | l in t.logs
      ensures t.logs[l].action == "离职用户" && OffboardMarker(u) <= t.logs[l].content <==> TellsDismissal(t.logs[l], u)
    {
    }
    hide OffboardMarker, TellsDismissal;
  }

  /** An inactive user counts as gone only when a log tells so and no unsettled lead is left with him. */
  lemma EmploymentGains(t: Tables, u: Tables, tr: Trace, now: Time, user: Id)
    requires Backfilled(t, u, tr, now)
    ensures user in u.employment <==> user in t.employment || user in t.users
    ensures user in t.employment ==> u.employment[user] == t.employment[user]
    ensures user in t.users && user !in t.employment ==>
      u.employment[user] ==
        if t.users[user].active then Employment("active", now, None)
        else if WasDismissed(t, t.users[user]) && !KeepsLeads(t, user) then Employment("offboarded", now, Some(now))
        else Employment("suspended", now, None)
  {
    assert u.employment == EmploymentAfter(t, now);
    hide Backfilled;
    KeepsLeadsMeans(t, user);
    if user in t.users {
      WasDismissedMeans(t, t.users[user]);
    }
    hide OwnsNonterminal, KeepsLeads, HasOffboardLog, WasDismissed;
  }

  /** Every user without an event of the backfill gets one, of the status he ends with; other events stay. */
  lemma EventGains(t: Tables, u: Tables, tr: Trace, now: Time, user: Id)
    requires Backfilled(t, u, tr, now)
    ensures forall e :: e in t.events ==> e in u.events && u.events[e] == t.events[e]
    ensures (exists e :: e in u.events && e !in t.events && u.events[e].userId == user) <==>
      user in t.users
      && forall e :: e in t.events && t.events[e].userId == user ==> t.events[e].reason != "legacy_backfill"
    ensures forall e :: e in u.events && e !in t.events && u.events[e].userId == user ==>
      user in u.employment
      && u.events[e] == Event(user, u.employment[user].status, u.employment[user].status, "legacy_backfill", now)
    ensures forall d, e ::
      d in u.events && d !in t.events && e in u.events && e !in t.events && u.events[d].userId == u.events[e].userId
      ==> d == e
  {
    var due := DueEvents(t, now);
    assert Adds(t.events, due, tr.event, u.events) && u.employment == EmploymentAfter(t, now);
    hide Backfilled;
    EventDue(t, now, user);
    forall e | e in u.events && e !in t.events
      ensures u.events[e].userId in tr.event && tr.event[u.events[e].userId] == e
    {
      var k :| k in tr.event && tr.event[k] == e;
      EventDue(t, now, k);
    }
    if user in due {
      assert tr.event[user] in u.events;
    }
    hide DueEvents, EmploymentAfter;
  }

  lemma EventDue(t: Tables, now: Time, user: Id)
    ensures user in DueEvents(t, now) <==>
      user in t.users
      && forall e :: e in t.events && t.events[e].userId == user ==> t.events[e].reason != "legacy_backfill"
    ensures user in DueEvents(t, now) ==>
      user in EmploymentAfter(t, now)
      && var status := EmploymentAfter(t, now)[user].status;
         DueEvents(t, now)[user] == Event(user, status, status, "legacy_backfill", now)
  {
    hide DerivedStatus;
  }

  /** An assigned student without an active row gets one that starts when he was assigned, or else created. */
  lemma AssignmentGains(t: Tables, u: Tables, tr: Trace, now: Time, student: Id)
    requires Backfilled(t, u, tr, now)
    ensures forall a :: a in t.assignments ==> a in u.assignments && u.assignments[a] == t.assignments[a]
    ensures (exists a :: a in u.assignments && a !in t.assignments && u.assignments[a].studentId == student) <==>
      student in t.students && t.students[student].assignedTo.Some?
      && forall a :: a in t.assignments && t.assignments[a].studentId == student ==> t.assignments[a].endedAt.Some?
    ensures forall a :: a in u.assignments && a !in t.assignments && u.assignments[a].studentId == student ==>
      student in t.students
      && var s := t.students[student];
         s.assignedTo.Some?
         && u.assignments[a] == Assignment(
              student, s.assignedTo.value,
              if s.assignedAt.Some? then s.assignedAt.value else if s.createdAt.Some? then s.createdAt.value else now,
              None)
    ensures forall a, b ::
      a in u.assignments && a !in t.assignments && b in u.assignments && b !in t.assignments
      && u.assignments[a].studentId == u.assignments[b].studentId
      ==> a == b
  {
    forall a | a in u.assignments && a !in t.assignments
      ensures var s := u.assignments[a].studentId;
        Unrecorded(t, s) && s in tr.assignment && tr.assignment[s] == a
        && u.assignments[a] == AssignmentOf(t.students[s], s, now)
    {
      AssignmentOrigin(t, u, tr, now, a);
    }
    AssignmentAdded(t, u, tr, now, student);
    hide Backfilled;
    assert Unrecorded(t, student) <==>
      student in t.students && t.students[student].assignedTo.Some?
      && forall a :: a in t.assignments && t.assignments[a].studentId == student ==> t.assignments[a].endedAt.Some? by {
      assert forall a :: a in ActiveRows(t.assignments, student) <==>
        a in t.assignments && t.assignments[a].endedAt.None? && t.assignments[a].studentId == student;
    }
    hide Unrecorded;
  }

  lemma AssignmentAdded(t: Tables, u: Tables, tr: Trace, now: Time, student: Id)
    requires Backfilled(t, u, tr, now)
    ensures forall a :: a in t.assignments ==> a in u.assignments && u.assignments[a] == t.assignments[a]
    ensures Unrecorded(t, student) ==>
      exists a :: a in u.assignments && a !in t.assignments && u.assignments[a].studentId == student
  {
    var due := DueAssignments(t, t.students.Keys, now);
    hide DueItems, DueEvents, CatalogueAdded, EmploymentAfter, MappedAll, Statuses, Sources, ActiveRows;
    if Unrecorded(t, student) {
      assert student in due;
      var a := tr.assignment[student];
      assert a in u.assignments && u.assignments[a] == due[student];
    }
  }

  // ---------------------------------------------------------------- outcomes

  /** The part between the spaces at both ends is what remains. */
  lemma StripIsMiddle(s: string) returns (i: nat, j: nat)
    ensures i <= j <= |s| && Strip(s) == s[i..j]
    ensures forall k :: 0 <= k < i || j <= k < |s| ==> IsSpace(s[k])
    ensures i < j ==> !IsSpace(s[i]) && !IsSpace(s[j - 1])
  {
    i := LeftEnd(s);
    var n := RightEnd(s[i..]);
    j := i + n;
    hide StripLeft, StripRight, IsSpace;
    assert s[i..j] == s[i..][..n];
    forall k | j <= k < |s| ensures IsSpace(s[k]) {
      assert s[k] == s[i..][k - i];
    }
  }

  lemma {:induction false} LeftEnd(s: string) returns (i: nat)
    ensures i <= |s| && StripLeft(s) == s[i..]
    ensures forall k :: 0 <= k < i ==> IsSpace(s[k])
    ensures i < |s| ==> !IsSpace(s[i])
  {
    if s != "" && IsSpace(s[0]) {
      var n := LeftEnd(s[1..]);
      i := n + 1;
      forall k | 0 <= k < i ensures IsSpace(s[k]) {
        if k > 0 {
          assert s[k] == s[1..][k - 1];
        }
      }
      assert s[1..][n..] == s[i..];
    } else {
      i := 0;
    }
  }

  lemma {:induction false} RightEnd(s: string) returns (j: nat)
    ensures j <= |s| && StripRight(s) == s[..j]
    ensures forall k :: j <= k < |s| ==> IsSpace(s[k])
    ensures j > 0 ==> !IsSpace(s[j - 1])
  {
    if s != "" && IsSpace(s[|s| - 1]) {
      j := RightEnd(s[..|s| - 1]);
      forall k | j <= k < |s| ensures IsSpace(s[k]) {
        if k < |s| - 1 {
          assert s[k] == s[..|s| - 1][k];
        }
      }
      assert s[..|s| - 1][..j] == s[..j];
    } else {
      j := |s|;
      assert s[..j] == s;
    }
  }

  predicate AllSpaces(s: string) {
    forall k :: 0 <= k < |s| ==> IsSpace(s[k])
  }

  lemma BlankMeans(s: string)
    ensures Blank(s) <==> AllSpaces(s)
  {
    var i, j := StripIsMiddle(s);
    hide Strip, IsSpace;
    if i == j {
      assert s[i..j] == "";
    } else {
      assert s[i..j] != "" && !IsSpace(s[i]);
    }
  }

  /** A text stands for the catalogue row of that code or reason, or for an older name of it. "legacy_unspecified" and
      its reason stand for nothing, and of the row "child_declined" only the reason is understood. */
  ghost predicate StandsFor(text: string, code: string) {
    || (code != "legacy_unspecified" && text != "child_declined"
        && exists j :: 0 <= j < |OUTCOME_ROWS| && OUTCOME_ROWS[j].0 == code && text in {code, OUTCOME_ROWS[j].1.reason})
    || (code == "no_intent" && text == "not_interested")
    || (code == "child_declined" && text in {"child_not_want_study", "child_not_interested"})
    || (code == "enrolled_elsewhere" && text == "报好了")
  }

  /** The catalogue, row by row. */
  lemma RowsAre(j: nat)
    requires j < |OUTCOME_ROWS|
    ensures j == 0 ==> OUTCOME_ROWS[j].0 == "phone_invalid" && OUTCOME_ROWS[j].1.reason == "空号"
    ensures j == 1 ==> OUTCOME_ROWS[j].0 == "high_score" && OUTCOME_ROWS[j].1.reason == "高分段"
    ensures j == 2 ==> OUTCOME_ROWS[j].0 == "no_intent" && OUTCOME_ROWS[j].1.reason == "无意向"
    ensures j == 3 ==> OUTCOME_ROWS[j].0 == "child_declined" && OUTCOME_ROWS[j].1.reason == "孩子不想读"
    ensures j == 4 ==> OUTCOME_ROWS[j].0 == "enrolled_elsewhere" && OUTCOME_ROWS[j].1.reason == "已报名其他学校"
    ensures j == 5 ==> OUTCOME_ROWS[j].0 == "legacy_unspecified"
    ensures j == 6 ==> OUTCOME_ROWS[j].0 == "other" && OUTCOME_ROWS[j].1.reason == "其他"
    ensures j <= 6
  {
  }

  lemma RowGivesCode(text: string, j: nat)
    requires j < |OUTCOME_ROWS| && j != 5 && text in {OUTCOME_ROWS[j].0, OUTCOME_ROWS[j].1.reason}
    requires text != "child_declined"
    ensures OUTCOME_ROWS[j].0 != "" && ReasonCode(text, "") == OUTCOME_ROWS[j].0
  {
    RowsAre(j);
    if j == 0 {
      assert ReasonCode("phone_invalid", "") == ReasonCode("空号", "") == "phone_invalid";
    } else if j == 1 {
      assert ReasonCode("high_score", "") == ReasonCode("高分段", "") == "high_score";
    } else if j == 2 {
      assert ReasonCode("no_intent", "") == ReasonCode("无意向", "") == "no_intent";
    } else if j == 3 {
      assert text == "孩子不想读";
    } else if j == 4 {
      assert ReasonCode("enrolled_elsewhere", "") == ReasonCode("已报名其他学校", "") == "enrolled_elsewhere";
    } else {
      assert ReasonCode("other", "") == ReasonCode("其他", "") == "other";
    }
  }

  lemma StandsForItsCode(text: string, code: string)
    requires StandsFor(text, code)
    ensures code != "" && ReasonCode(text, "") == code
  {
    if j: nat :|
      j < |OUTCOME_ROWS| && OUTCOME_ROWS[j].0 == code && text in {code, OUTCOME_ROWS[j].1.reason}
      && code != "legacy_unspecified" && text != "child_declined"
    {
      RowsAre(j);
      RowGivesCode(text, j);
    }
  }

  lemma CodeIsStoodFor(text: string)
    requires ReasonCode(text, "") != ""
    ensures StandsFor(text, ReasonCode(text, ""))
  {
    RowsAre(0);
    RowsAre(1);
    RowsAre(2);
    RowsAre(3);
    RowsAre(4);
    RowsAre(6);
    assert |OUTCOME_ROWS| == 7;
    var code := ReasonCode(text, "");
    if code == "phone_invalid" {
      assert text in {code, OUTCOME_ROWS[0].1.reason};
    } else if code == "high_score" {
      assert text in {code, OUTCOME_ROWS[1].1.reason};
    } else if code == "no_intent" {
      assert text in {code, OUTCOME_ROWS[2].1.reason} || text == "not_interested";
    } else if code == "child_declined" {
      assert text in {OUTCOME_ROWS[3].1.reason, "child_not_want_study", "child_not_interested"};
    } else if code == "enrolled_elsewhere" {
      assert text in {code, OUTCOME_ROWS[4].1.reason} || text == "报好了";
    } else {
      assert text in {code, OUTCOME_ROWS[6].1.reason};
    }
  }

  /** Only an invalid student without a code gets one, and nothing else of him changes. His detail decides when he has
      one, else his status; a text that stands for no row gives "other" as a detail and "legacy_unspecified" as a
      status. */
  lemma OutcomeGains(t: Tables, u: Tables, tr: Trace, now: Time, id: Id)
    requires Backfilled(t, u, tr, now) && id in t.students
    ensures id in u.students
    ensures var s := t.students[id]; var code := u.students[id].outcomeCode;
      && u.students[id] == s.(outcomeCode := code)
      && (!IsLost(s) || !AllSpaces(s.outcomeCode) ==> code == s.outcomeCode)
      && (IsLost(s) && AllSpaces(s.outcomeCode) ==>
            var detailed := !AllSpaces(s.statusDetail);
            var text := Strip(if detailed then s.statusDetail else s.status);
            && (forall c :: StandsFor(text, c) ==> code == c)
            && ((forall c :: !StandsFor(text, c)) ==> code == if detailed then "other" else "legacy_unspecified"))
  {
    var s := t.students[id];
    assert u.students == MappedAll(t.students);
    hide Backfilled;
    BlankMeans(s.outcomeCode);
    BlankMeans(s.statusDetail);
    StatusTexts(s.status);
    var text := Strip(if !Blank(s.statusDetail) then s.statusDetail else s.status);
    ReasonDefault(text, "other");
    ReasonDefault(text, "legacy_unspecified");
    hide Blank, AllSpaces, IsInvalid, IsLost, Strip, ReasonCode, StandsFor;
  }

  lemma ReasonDefault(text: string, default: string)
    ensures forall c :: StandsFor(text, c) ==> ReasonCode(text, default) == c
    ensures (forall c :: !StandsFor(text, c)) ==> ReasonCode(text, default) == default
  {
    forall c | StandsFor(text, c) ensures ReasonCode(text, "") == c != "" {
      StandsForItsCode(text, c);
    }
    if ReasonCode(text, "") != "" {
      CodeIsStoodFor(text);
    }
    hide StandsFor;
  }

  lemma SevenCodes()
    ensures CatalogueCodes() == {"phone_invalid", "high_score", "no_intent", "child_declined", "enrolled_elsewhere",
                                 "legacy_unspecified", "other"}
  {
    RowsAre(0);
    RowsAre(1);
    RowsAre(2);
    RowsAre(3);
    RowsAre(4);
    RowsAre(5);
    RowsAre(6);
  }

  lemma RowEnds(j: nat)
    requires j < |OUTCOME_ROWS|
    ensures OUTCOME_ROWS[j].1.terminal
    ensures OUTCOME_ROWS[j].1.reclaimable <==> OUTCOME_ROWS[j].0 != "enrolled_elsewhere"
  {
    RowsAre(j);
    assert |OUTCOME_ROWS| == 7;
  }

  /** The catalogue afterwards: what was there, and the seven codes. All that is added ends a lead for good or for a
      while, and only a student enrolled elsewhere is not to be won back. */
  lemma CatalogueGains(t: Tables, u: Tables, tr: Trace, now: Time)
    requires Backfilled(t, u, tr, now)
    ensures u.outcomes.Keys == t.outcomes.Keys + {"phone_invalid", "high_score", "no_intent", "child_declined",
                                                  "enrolled_elsewhere", "legacy_unspecified", "other"}
    ensures forall c :: c in t.outcomes ==> u.outcomes[c] == t.outcomes[c]
    ensures forall c :: c in u.outcomes && c !in t.outcomes ==>
      u.outcomes[c].terminal && (u.outcomes[c].reclaimable <==> c != "enrolled_elsewhere")
  {
    assert CatalogueAdded(t.outcomes, u.outcomes);
    hide Backfilled;
    SevenCodes();
    forall c | c in u.outcomes && c !in t.outcomes
      ensures u.outcomes[c].terminal && (u.outcomes[c].reclaimable <==> c != "enrolled_elsewhere")
    {
      assert c in CatalogueCodes();
      var j: nat :| j < |OUTCOME_ROWS| && OUTCOME_ROWS[j].0 == c;
      assert u.outcomes[c] == OUTCOME_ROWS[j].1;
      RowEnds(j);
    }
  }

  // ---------------------------------------------------------------- the report

  lemma {:induction false} SizeOfImage<K(!new)>(at: map<K, Id>, ids: set<Id>)
    requires forall j, k :: j in at && k in at && j != k ==> at[j] != at[k]
    requires forall id :: id in ids <==> exists k :: k in at && at[k] == id
    ensures |ids| == |at|
    decreases |at|
  {
    if at == map[] {
      assert ids == {};
    } else {
      var k :| k in at;
      var rest := at - {k};
      forall id ensures id in ids - {at[k]} <==> exists j :: j in rest && rest[j] == id {
        if j :| j in at && at[j] == id && id != at[k] {
          assert j in rest && rest[j] == id;
        }
      }
      SizeOfImage(rest, ids - {at[k]});
      assert at[k] in ids;
    }
  }

  function New<T>(before: map<Id, T>, after: map<Id, T>): set<Id> {
    set id | id in after && id !in before
  }

  lemma AddedCount<K(!new), T>(before: map<Id, T>, due: map<K, T>, at: map<K, Id>, after: map<Id, T>)
    requires Adds(before, due, at, after)
    ensures |New(before, after)| == |due|
  {
    forall id ensures id in New(before, after) <==> exists k :: k in at && at[k] == id {
    }
    SizeOfImage(at, New(before, after));
    assert |at| == |at.Keys| == |due.Keys| == |due|;
  }

  function NewOfKind(t: Tables, u: Tables, leads: bool): set<Id> {
    set i | i in u.items && i !in t.items && (u.items[i].key.kind == "lead_contact" <==> leads)
  }

  lemma NewItemsCount(t: Tables, u: Tables, tr: Trace, now: Time, leads: bool)
    requires Backfilled(t, u, tr, now)
    ensures var due := DueItems(t, Statuses(t), Sources(t), now);
      |NewOfKind(t, u, leads)| == if leads then |Leads(due.Keys)| else |Others(due.Keys)|
  {
    var due := DueItems(t, Statuses(t), Sources(t), now);
    assert Adds(t.items, due, tr.item, u.items);
    hide Backfilled;
    forall src | src in due ensures due[src].key.kind == "lead_contact" <==> src.Lead? {
      DueKind(t, src, now);
    }
    KindsCount(t, u, due, tr.item, leads);
  }

  lemma DueKind(t: Tables, src: Source, now: Time)
    requires src in DueItems(t, Statuses(t), Sources(t), now)
    ensures DueItems(t, Statuses(t), Sources(t), now)[src].key.kind == "lead_contact" <==> src.Lead?
  {
    RowKey(t, Statuses(t), src, now);
    LeadKind(src);
    hide Judge, KeyOf, Statuses, Sources, ItemKeys;
  }

  lemma KindsCount(t: Tables, u: Tables, due: map<Source, Item>, added: map<Source, Id>, leads: bool)
    requires Adds(t.items, due, added, u.items)
    requires forall src :: src in due ==> (due[src].key.kind == "lead_contact" <==> src.Lead?)
    ensures |NewOfKind(t, u, leads)| == if leads then |Leads(due.Keys)| else |Others(due.Keys)|
  {
    var at := map src: Source | src in added && (src.Lead? <==> leads) :: added[src];
    forall i ensures i in NewOfKind(t, u, leads) <==> exists src :: src in at && at[src] == i {
      if i in NewOfKind(t, u, leads) {
        var src :| src in added && added[src] == i;
        assert src in at && at[src] == i;
      }
    }
    SizeOfImage(at, NewOfKind(t, u, leads));
    assert at.Keys == if leads then Leads(due.Keys) else Others(due.Keys);
    assert |at| == |at.Keys|;
  }

  lemma LeadKind(src: Source)
    ensures KeyOf(src).kind == "lead_contact" <==> src.Lead?
  {
  }

  function Changed(t: Tables, u: Tables): set<Id> {
    set s | s in t.students && s in u.students && u.students[s] != t.students[s]
  }

  /** The counters of the report count the rows that were not there before, the leads that wanted help without an agent,
      and the students whose code changed. */
  lemma ReportIsTrue(t: Tables, u: Tables, tr: Trace, now: Time)
    requires Backfilled(t, u, tr, now)
    ensures var r := ReportOf(t, now);
      && r.employmentCreated == |New(t.employment, u.employment)|
      && r.eventsCreated == |New(t.events, u.events)|
      && r.assignmentsCreated == |New(t.assignments, u.assignments)|
      && r.leadItemsCreated == |NewOfKind(t, u, true)|
      && r.sourceItemsCreated == |NewOfKind(t, u, false)|
      && r.skippedNoOwner == |HelpWanted(t)|
      && r.outcomesCreated == |u.outcomes.Keys - t.outcomes.Keys|
      && r.outcomesMapped == |Changed(t, u)|
  {
    AddedRows(t, u, tr, now);
    NewItemsCount(t, u, tr, now, true);
    NewItemsCount(t, u, tr, now, false);
    OwnerlessIsHelp(t, now);
    SmallCounts(t, u, tr, now);
    hide Backfilled, DueEvents, DueAssignments, DueItems, Statuses, Sources, Leads, Others, New, NewOfKind, Ownerless,
      Unemployed, NewCodes, UnmappedIn, HelpWanted, Changed;
  }

  lemma AddedRows(t: Tables, u: Tables, tr: Trace, now: Time)
    requires Backfilled(t, u, tr, now)
    ensures |New(t.events, u.events)| == |DueEvents(t, now)|
    ensures |New(t.assignments, u.assignments)| == |DueAssignments(t, t.students.Keys, now)|
  {
    var events, assignments := DueEvents(t, now), DueAssignments(t, t.students.Keys, now);
    assert Adds(t.events, events, tr.event, u.events);
    assert Adds(t.assignments, assignments, tr.assignment, u.assignments);
    hide Backfilled, Adds, DueEvents, DueAssignments, New;
    AddedCount(t.events, events, tr.event, u.events);
    AddedCount(t.assignments, assignments, tr.assignment, u.assignments);
  }

  lemma SmallCounts(t: Tables, u: Tables, tr: Trace, now: Time)
    requires Backfilled(t, u, tr, now)
    ensures New(t.employment, u.employment) == Unemployed(t, t.users.Keys)
    ensures u.outcomes.Keys - t.outcomes.Keys == NewCodes(t.outcomes, CatalogueCodes())
    ensures Changed(t, u) == UnmappedIn(t.students)
  {
    assert u.outcomes.Keys == t.outcomes.Keys + CatalogueCodes();
    hide DueItems, DueEvents, DueAssignments, Statuses, Sources, DerivedStatus, Blank, IsInvalid, OutcomeCode,
      CatalogueCodes, CatalogueAdded;
    assert u.students == MappedAll(t.students);
    forall s | s in t.students
      ensures Mapped(t.students[s]) != t.students[s] <==> DomainBackfill.Unmapped(t.students[s])
    {
      MappedCodeIsCatalogued(t.students[s]);
    }
  }
}
