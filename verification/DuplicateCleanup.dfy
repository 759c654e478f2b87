/**
 Clearing phone numbers shared by too many students (app/assistant_tools/destructive_tools.py), against the
 detector that finds them (app/assistant_tools/read_tools.py). A null number is "".
 */
module DuplicateCleanup {
  import opened Common
  import StudentDelete

  type Id = nat

  datatype Student = Student(phone1: string, phone2: string, other: string)

  // ---------------------------------------------------------------- one number

  predicate IsDigit(c: char) {
    '0' <= c <= '9'
  }

  function Digits(s: string): string {
    if s == "" then "" else (if IsDigit(s[0]) then [s[0]] else []) + Digits(s[1..])
  }

  /** normalize_phone: digits only, without a country prefix before a mobile number. */
  function Normalize(s: string): string {
    var digits := Digits(s);
    if |digits| == 13 && "86" <= digits && digits[2] == '1' then digits[2..]
    else if |digits| == 15 && "0086" <= digits && digits[4] == '1' then digits[4..]
    else digits
  }

  lemma {:induction false} DigitsAreDigits(s: string)
    ensures forall c :: c in Digits(s) ==> IsDigit(c)
  {
    if s != "" {
      DigitsAreDigits(s[1..]);
    }
  }

  lemma {:induction false} DigitsStay(s: string)
    requires forall c :: c in s ==> IsDigit(c)
    ensures Digits(s) == s
  {
    if s != "" {
      assert forall c :: c in s[1..] ==> c in s;
      DigitsStay(s[1..]);
      assert s[0] in s && s == [s[0]] + s[1..];
    }
  }

  /** The digits of a text are those of its parts, in order. */
  lemma {:induction false} DigitsJoin(s: string, t: string)
    ensures Digits(s + t) == Digits(s) + Digits(t)
  {
    if s == "" {
      assert s + t == t;
    } else {
      DigitsJoin(s[1..], t);
      assert (s + t)[1..] == s[1..] + t;
    }
  }

  lemma DigitsOfOne(c: char)
    ensures Digits([c]) == if '0' <= c <= '9' then [c] else ""
  {
    assert [c][1..] == "";
  }

  predicate IsMobile(number: string) {
    |number| == 11 && number[0] == '1' && forall i :: 0 <= i < |number| ==> '0' <= number[i] <= '9'
  }

  /** A number of the country, with or without its prefix. */
  ghost predicate Prefixed(digits: string) {
    exists number :: IsMobile(number) && digits in {"86" + number, "0086" + number}
  }

  lemma MobileNumber(number: string)
    requires IsMobile(number)
    ensures Digits(number) == number && Digits("86" + number) == "86" + number
    ensures Digits("0086" + number) == "0086" + number
  {
    DigitsStay(number);
    DigitsStay("86" + number);
    DigitsStay("0086" + number);
  }

  /** However it is written, a mobile number with or without the prefix is normalised to its eleven digits, and any
      other text to its digits. */
  lemma NormalizeMeans(s: string, number: string)
    ensures IsMobile(number) && Digits(s) in {number, "86" + number, "0086" + number} ==> Normalize(s) == number
    ensures !Prefixed(Digits(s)) ==> Normalize(s) == Digits(s)
  {
    var digits := Digits(s);
    DigitsAreDigits(s);
    if Normalize(s) != digits {
      var rest := Normalize(s);
      forall i | 0 <= i < |rest| ensures '0' <= rest[i] <= '9' {
        assert rest[i] in digits;
      }
      if |digits| == 13 {
        assert digits == "86" + digits[2..];
      } else {
        assert digits == "0086" + digits[4..];
      }
      assert IsMobile(rest) && digits in {"86" + rest, "0086" + rest};
    }
    if IsMobile(number) && digits == "86" + number {
      assert digits[2..] == number;
    }
    if IsMobile(number) && digits == "0086" + number {
      assert digits[4..] == number;
    }
  }

  /** A normalised number is its own normal form. */
  lemma NormalizeTwice(s: string)
    ensures Normalize(Normalize(s)) == Normalize(s)
  {
    var digits := Digits(s);
    DigitsAreDigits(s);
    assert forall c :: c in Normalize(s) ==> c in digits;
    DigitsStay(Normalize(s));
  }

  // ---------------------------------------------------------------- the detector

  predicate Has(s: Student, phone: string) {
    phone != "" && (Normalize(s.phone1) == phone || Normalize(s.phone2) == phone)
  }

  function Holders(students: map<Id, Student>, phone: string): set<Id> {
    set id | id in students && Has(students[id], phone)
  }

  /** The numbers of all students. */
  function AllPhones(students: map<Id, Student>): set<string> {
    (set id | id in students :: Normalize(students[id].phone1))
      + (set id | id in students :: Normalize(students[id].phone2)) - {""}
  }

  function Duplicates(students: map<Id, Student>, minimum: int): set<string> {
    set p | p in AllPhones(students) && |Holders(students, p)| >= minimum
  }

  function HoldersAmong(students: map<Id, Student>, ids: set<Id>, phone: string): set<Id> {
    set id | id in ids && id in students && Has(students[id], phone)
  }

  /** The groups dict after some students. */
  ghost predicate Grouped(students: map<Id, Student>, ids: set<Id>, groups: map<string, set<Id>>) {
    forall p :: (p in groups <==> HoldersAmong(students, ids, p) != {})
      && (p in groups ==> groups[p] == HoldersAmong(students, ids, p))
  }

  function AddTo(groups: map<string, set<Id>>, phone: string, id: Id): map<string, set<Id>> {
    if phone == "" then groups else groups[phone := (if phone in groups then groups[phone] else {}) + {id}]
  }

  lemma GroupedOneMore(students: map<Id, Student>, ids: set<Id>, groups: map<string, set<Id>>, id: Id)
    requires Grouped(students, ids, groups) && id in students && id !in ids
    ensures var s := students[id];
      Grouped(students, ids + {id}, AddTo(AddTo(groups, Normalize(s.phone1), id), Normalize(s.phone2), id))
  {
    hide Normalize;
    var s := students[id];
    var after := AddTo(AddTo(groups, Normalize(s.phone1), id), Normalize(s.phone2), id);
    forall p
      ensures (p in after <==> HoldersAmong(students, ids + {id}, p) != {})
        && (p in after ==> after[p] == HoldersAmong(students, ids + {id}, p))
    {
      assert HoldersAmong(students, ids + {id}, p) == HoldersAmong(students, ids, p) + if Has(s, p) then {id} else {};
      assert p in groups <==> HoldersAmong(students, ids, p) != {};
    }
  }

  /** The dict of duplicate_phone_groups: every number with enough holders, with its holders. */
  method GroupPhones(students: map<Id, Student>, minimum: int) returns (groups: map<string, set<Id>>)
    ensures groups.Keys == Duplicates(students, minimum)
    ensures forall p :: p in groups ==> groups[p] == Holders(students, p)
  {
    hide Normalize, HoldersAmong, AddTo;
    var all: map<string, set<Id>> := map[];
    var rest := students.Keys;
    ghost var done: set<Id> := {};
    NothingGrouped(students);
    while rest != {}
      invariant done == students.Keys - rest && rest <= students.Keys
      invariant Grouped(students, done, all)
    {
      var id :| id in rest;
      GroupedOneMore(students, done, all, id);
      all := AddTo(AddTo(all, Normalize(students[id].phone1), id), Normalize(students[id].phone2), id);
      rest, done := rest - {id}, done + {id};
    }
    assert done == students.Keys;
    AllGrouped(students, all, minimum);
    groups := map p | p in all && |all[p]| >= minimum :: all[p];
  }

  /** The order of texts. */
  predicate TextLess(a: string, b: string) {
    b != "" && (a == "" || a[0] < b[0] || (a[0] == b[0] && TextLess(a[1..], b[1..])))
  }

  lemma {:induction false} TextTotal(a: string, b: string)
    ensures a == b || TextLess(a, b) || TextLess(b, a)
  {
    if a != "" && b != "" && a[0] == b[0] {
      TextTotal(a[1..], b[1..]);
      assert a == [a[0]] + a[1..] && b == [b[0]] + b[1..];
    }
  }

  lemma {:induction false} TextTransitive(a: string, b: string, c: string)
    requires TextLess(a, b) && TextLess(b, c)
    ensures TextLess(a, c)
  {
    if a != "" && a[0] == b[0] == c[0] {
      TextTransitive(a[1..], b[1..], c[1..]);
    }
  }

  /** Larger groups come first, groups of one size by number. */
  predicate Earlier(groups: map<string, set<Id>>, p: string, q: string)
    requires p in groups && q in groups
  {
    |groups[p]| > |groups[q]| || (|groups[p]| == |groups[q]| && TextLess(p, q))
  }

  predicate EarliestOf(groups: map<string, set<Id>>, rest: set<string>, p: string)
    requires rest <= groups.Keys && p in groups
  {
    forall q :: q in rest && q != p ==> Earlier(groups, p, q)
  }

  lemma {:induction false} Earliest(groups: map<string, set<Id>>, rest: set<string>) returns (p: string)
    requires rest != {} && rest <= groups.Keys
    ensures p in rest && EarliestOf(groups, rest, p)
    decreases rest
  {
    p :| p in rest;
    if rest != {p} {
      var others := rest - {p};
      var q := Earliest(groups, others);
      TextTotal(p, q);
      if Earlier(groups, q, p) {
        assert forall x :: x in rest ==> x == p || x in others;
        p := q;
      } else {
        forall x | x in rest && x != p ensures Earlier(groups, p, x) {
          if x != q {
            assert x in others && Earlier(groups, q, x);
            if |groups[p]| == |groups[q]| == |groups[x]| {
              TextTransitive(p, q, x);
            }
          }
        }
      }
    }
  }

  datatype Group = Group(phone: string, ids: seq<Id>)

  /** duplicate_phone_groups: the rows of the dict, in the order of display. */
  method DuplicatePhoneGroups(students: map<Id, Student>, minimum: int) returns (rows: seq<Group>)
    ensures forall p :: p in Duplicates(students, minimum) <==> exists i :: 0 <= i < |rows| && rows[i].phone == p
    ensures forall i, x :: 0 <= i < |rows| ==> (x in rows[i].ids <==> x in Holders(students, rows[i].phone))
    ensures forall i, m, n :: 0 <= i < |rows| && 0 <= m < n < |rows[i].ids| ==> rows[i].ids[m] < rows[i].ids[n]
    ensures forall i, j :: 0 <= i < j < |rows| ==>
      |rows[i].ids| > |rows[j].ids| || (|rows[i].ids| == |rows[j].ids| && TextLess(rows[i].phone, rows[j].phone))
  {
    hide Holders, Duplicates, TextLess, Listed, EarliestOf, RowOfGroup;
    var groups := GroupPhones(students, minimum);
    rows := [];
    var rest := groups.Keys;
    NothingListed(groups);
    while rest != {}
      invariant rest <= groups.Keys && Listed(groups, rest, rows)
    {
      ghost var earliest := Earliest(groups, rest);
      var p :| p in rest && EarliestOf(groups, rest, p);
      var ids := Ascending(groups[p]);
      IsRowOfGroup(groups, p, ids);
      ListedOneMore(groups, rest, rows, p, Group(p, ids));
      rows, rest := rows + [Group(p, ids)], rest - {p};
    }
    AllListed(groups, rows);
  }

  /** The rows of all groups but the rest are listed, in order. */
  ghost predicate Listed(groups: map<string, set<Id>>, rest: set<string>, rows: seq<Group>)
    requires rest <= groups.Keys
  {
    && (forall i :: 0 <= i < |rows| ==> RowOfGroup(groups, rows[i]))
    && (forall p :: p in groups && p !in rest <==> exists i :: 0 <= i < |rows| && rows[i].phone == p)
    && (forall i, q :: 0 <= i < |rows| && q in rest ==> Earlier(groups, rows[i].phone, q))
    && forall i, j :: 0 <= i < j < |rows| ==> Earlier(groups, rows[i].phone, rows[j].phone)
  }

  lemma IsRowOfGroup(groups: map<string, set<Id>>, p: string, ids: seq<Id>)
    requires p in groups && |ids| == |groups[p]| && forall x :: x in ids <==> x in groups[p]
    requires forall m, n :: 0 <= m < n < |ids| ==> ids[m] < ids[n]
    ensures RowOfGroup(groups, Group(p, ids))
  {
  }

  lemma NothingListed(groups: map<string, set<Id>>)
    ensures Listed(groups, groups.Keys, [])
  {
  }

  lemma ListedOneMore(groups: map<string, set<Id>>, rest: set<string>, rows: seq<Group>, p: string, row: Group)
    requires rest <= groups.Keys && Listed(groups, rest, rows) && p in rest && EarliestOf(groups, rest, p)
    requires RowOfGroup(groups, row) && row.phone == p
    ensures Listed(groups, rest - {p}, rows + [row])
  {
    var more := rows + [row];
    assert more[|rows|].phone == p && forall i :: 0 <= i < |rows| ==> more[i] == rows[i];
    hide RowOfGroup, TextLess;
  }

  lemma AllListed(groups: map<string, set<Id>>, rows: seq<Group>)
    requires Listed(groups, {}, rows)
    ensures forall p :: p in groups <==> exists i :: 0 <= i < |rows| && rows[i].phone == p
    ensures forall i :: 0 <= i < |rows| ==>
      rows[i].phone in groups && forall x :: x in rows[i].ids <==> x in groups[rows[i].phone]
    ensures forall i, m, n :: 0 <= i < |rows| && 0 <= m < n < |rows[i].ids| ==> rows[i].ids[m] < rows[i].ids[n]
    ensures forall i, j :: 0 <= i < j < |rows| ==>
      |rows[i].ids| > |rows[j].ids| || (|rows[i].ids| == |rows[j].ids| && TextLess(rows[i].phone, rows[j].phone))
  {
    hide TextLess;
  }

  ghost predicate RowOfGroup(groups: map<string, set<Id>>, row: Group) {
    && row.phone in groups && |row.ids| == |groups[row.phone]|
    && (forall x :: x in row.ids <==> x in groups[row.phone])
    && forall m, n :: 0 <= m < n < |row.ids| ==> row.ids[m] < row.ids[n]
  }

  lemma NothingGrouped(students: map<Id, Student>)
    ensures Grouped(students, {}, map[])
  {
  }

  lemma AllGrouped(students: map<Id, Student>, all: map<string, set<Id>>, minimum: int)
    requires Grouped(students, students.Keys, all)
    ensures forall p :: p in all ==> all[p] == Holders(students, p)
    ensures forall p :: p in Duplicates(students, minimum) <==> p in all && |all[p]| >= minimum
  {
    hide Normalize;
    forall p ensures HoldersAmong(students, students.Keys, p) == Holders(students, p) {
    }
    forall p ensures p in AllPhones(students) <==> Holders(students, p) != {} {
      HoldersOf(students, p);
    }
  }

  /** The numbers somebody holds are the numbers of all students. */
  lemma HoldersOf(students: map<Id, Student>, p: string)
    ensures p in AllPhones(students) <==> Holders(students, p) != {}
  {
    hide Normalize;
    if p in AllPhones(students) {
      if id :| id in students && Normalize(students[id].phone1) == p {
        assert id in Holders(students, p);
      } else {
        var id :| id in students && Normalize(students[id].phone2) == p;
        assert id in Holders(students, p);
      }
    }
    if id :| id in Holders(students, p) {
      assert id in students && Has(students[id], p);
    }
  }

  // ---------------------------------------------------------------- the cleanup

  function Keep(phone: string, duplicates: set<string>): string {
    if Normalize(phone) in duplicates then "" else Normalize(phone)
  }

  predicate Affected(s: Student, duplicates: set<string>) {
    Normalize(s.phone1) in duplicates || Normalize(s.phone2) in duplicates
  }

  function Cleared(s: Student, duplicates: set<string>): Student {
    s.(phone1 := Keep(s.phone1, duplicates), phone2 := Keep(s.phone2, duplicates))
  }

  predicate WillDelete(s: Student, duplicates: set<string>) {
    Affected(s, duplicates) && Keep(s.phone1, duplicates) == "" && Keep(s.phone2, duplicates) == ""
  }

  /** The students once the plan for a set of duplicates is executed. */
  function Cleaned(students: map<Id, Student>, duplicates: set<string>, deleteWithoutNumbers: bool): map<Id, Student> {
    map id | id in students && !(deleteWithoutNumbers && WillDelete(students[id], duplicates)) ::
      if Affected(students[id], duplicates) then Cleared(students[id], duplicates) else students[id]
  }

  /** The numbers of one student. */
  function Numbers(s: Student): set<string> {
    {Normalize(s.phone1), Normalize(s.phone2)} - {""}
  }

  /** A surviving student has exactly the numbers he had that were no duplicates. */
  lemma NumbersKept(students: map<Id, Student>, duplicates: set<string>, deleteWithoutNumbers: bool, id: Id)
    requires "" !in duplicates && id in Cleaned(students, duplicates, deleteWithoutNumbers)
    ensures id in students && Numbers(Cleaned(students, duplicates, deleteWithoutNumbers)[id])
      == Numbers(students[id]) - duplicates
    ensures Cleaned(students, duplicates, deleteWithoutNumbers)[id].other == students[id].other
  {
    var s := students[id];
    NormalizeTwice(s.phone1);
    NormalizeTwice(s.phone2);
    assert Normalize("") == "";
    hide Normalize;
  }

  /** The number of a text is one that so many students hold. */
  ghost predicate Shared(students: map<Id, Student>, minimum: int, text: string) {
    Normalize(text) != "" && |set id | id in students && Normalize(text) in {
      Normalize(students[id].phone1), Normalize(students[id].phone2)}| >= minimum
  }

  lemma SharedAreDuplicates(students: map<Id, Student>, minimum: int, id: Id)
    requires id in students
    ensures Shared(students, minimum, students[id].phone1) <==>
      Normalize(students[id].phone1) in Duplicates(students, minimum)
    ensures Shared(students, minimum, students[id].phone2) <==>
      Normalize(students[id].phone2) in Duplicates(students, minimum)
  {
    hide Normalize;
    forall text | text in {students[id].phone1, students[id].phone2}
      ensures Shared(students, minimum, text) <==> Normalize(text) in Duplicates(students, minimum)
    {
      var p := Normalize(text);
      if p != "" {
        assert p in AllPhones(students);
        assert Holders(students, p) == set x | x in students && p in {
          Normalize(students[x].phone1), Normalize(students[x].phone2)};
      }
    }
  }

  /** A student without a shared number is left as he is. Of any other, each of the two columns keeps its own number,
      normalised, or is emptied when that number is shared; and he is gone exactly when that was asked for and both are
      empty then. */
  lemma CleanedColumns(students: map<Id, Student>, minimum: int, deleteWithoutNumbers: bool, id: Id)
    requires id in students
    ensures var s := students[id]; var u := Cleaned(students, Duplicates(students, minimum), deleteWithoutNumbers);
      var first, second := Shared(students, minimum, s.phone1), Shared(students, minimum, s.phone2);
      if !first && !second then id in u && u[id] == s
      else if deleteWithoutNumbers && (first || Normalize(s.phone1) == "") && (second || Normalize(s.phone2) == "")
      then id !in u
      else id in u && u[id] == Student(if first then "" else Normalize(s.phone1),
                                       if second then "" else Normalize(s.phone2), s.other)
  {
    SharedAreDuplicates(students, minimum, id);
    hide Normalize, Duplicates, Shared;
  }

  /** Only students who shared a number and are left with none are deleted, and only when asked to. */
  lemma DeletedHadNothingElse(students: map<Id, Student>, duplicates: set<string>, deleteWithoutNumbers: bool, id: Id)
    requires "" !in duplicates && id in students
    ensures id !in Cleaned(students, duplicates, deleteWithoutNumbers) <==>
      deleteWithoutNumbers && Numbers(students[id]) * duplicates != {} && Numbers(students[id]) <= duplicates
  {
    hide Normalize;
    var s := students[id];
    assert Numbers(s) * duplicates != {} <==> Affected(s, duplicates) by {
      if Affected(s, duplicates) {
        var p :| p in duplicates && (p == Normalize(s.phone1) || p == Normalize(s.phone2));
        assert p in Numbers(s) * duplicates;
      }
    }
    assert Numbers(s) <= duplicates <==>
      (Normalize(s.phone1) == "" || Normalize(s.phone1) in duplicates)
      && (Normalize(s.phone2) == "" || Normalize(s.phone2) in duplicates) by {
      if Numbers(s) <= duplicates {
        assert Normalize(s.phone1) in Numbers(s) || Normalize(s.phone1) == "";
        assert Normalize(s.phone2) in Numbers(s) || Normalize(s.phone2) == "";
      }
    }
  }

  lemma HasNumber(s: Student, p: string)
    ensures Has(s, p) <==> p in Numbers(s)
  {
    hide Normalize;
  }

  /** Nobody gains a number. */
  lemma HoldersShrink(students: map<Id, Student>, duplicates: set<string>, deleteWithoutNumbers: bool, p: string)
    requires "" !in duplicates
    ensures Holders(Cleaned(students, duplicates, deleteWithoutNumbers), p) <= Holders(students, p)
    ensures p in duplicates ==> Holders(Cleaned(students, duplicates, deleteWithoutNumbers), p) == {}
  {
    hide Has, Numbers;
    var after := Cleaned(students, duplicates, deleteWithoutNumbers);
    forall id | id in Holders(after, p) ensures id in Holders(students, p) && p !in duplicates {
      NumbersKept(students, duplicates, deleteWithoutNumbers, id);
      HasNumber(after[id], p);
      HasNumber(students[id], p);
    }
  }

  /** After the cleanup the detector finds nothing at the same minimum, whatever the minimum and the flag. */
  lemma NoDuplicatesLeft(students: map<Id, Student>, minimum: int, deleteWithoutNumbers: bool)
    ensures Duplicates(Cleaned(students, Duplicates(students, minimum), deleteWithoutNumbers), minimum) == {}
  {
    hide Holders, AllPhones, Cleaned;
    var duplicates := Duplicates(students, minimum);
    var after := Cleaned(students, duplicates, deleteWithoutNumbers);
    assert "" !in duplicates by { NoBlankPhone(students); }
    forall p | p in AllPhones(after) ensures |Holders(after, p)| < minimum {
      HoldersShrink(students, duplicates, deleteWithoutNumbers, p);
      HoldersOf(after, p);
      HoldersOf(students, p);
      SubsetSize(Holders(after, p), Holders(students, p));
      assert p in AllPhones(students) by {
        assert Holders(after, p) != {};
      }
    }
  }

  lemma NoBlankPhone(students: map<Id, Student>)
    ensures "" !in AllPhones(students)
  {
  }

  lemma SubsetSize(a: set<Id>, b: set<Id>)
    requires a <= b
    ensures |a| <= |b|
  {
    SizeOfParts(b, a, b - a);
  }

  /** So a second cleanup changes nothing. */
  lemma CleanedTwice(students: map<Id, Student>, minimum: int, deleteWithoutNumbers: bool)
    ensures var once := Cleaned(students, Duplicates(students, minimum), deleteWithoutNumbers);
      Cleaned(once, Duplicates(once, minimum), deleteWithoutNumbers) == once
  {
    NoDuplicatesLeft(students, minimum, deleteWithoutNumbers);
    hide Normalize, Duplicates;
  }

  // ---------------------------------------------------------------- the tool

  /** What the tool reports. */
  datatype Report = Report(affected: nat, cleared: nat, deleted: nat)

  /** The students the cleanup deletes. */
  function Doomed(students: map<Id, Student>, duplicates: set<string>, deleteWithoutNumbers: bool): set<Id> {
    set id | id in students && deleteWithoutNumbers && WillDelete(students[id], duplicates)
  }

  datatype PlanRow = PlanRow(id: Id, new1: string, new2: string, willDelete: bool)

  /** The affected students of a set. */
  function AffectedIds(students: map<Id, Student>, ids: set<Id>, duplicates: set<string>): set<Id> {
    set id | id in ids && id in students && Affected(students[id], duplicates)
  }

  function RowOf(s: Student, id: Id, duplicates: set<string>): PlanRow {
    PlanRow(id, Keep(s.phone1, duplicates), Keep(s.phone2, duplicates),
            !(Keep(s.phone1, duplicates) != "" || Keep(s.phone2, duplicates) != ""))
  }

  ghost predicate Plans(students: map<Id, Student>, ids: set<Id>, duplicates: set<string>, rows: seq<PlanRow>) {
    && (forall i :: 0 <= i < |rows| ==>
          rows[i].id in AffectedIds(students, ids, duplicates)
          && rows[i] == RowOf(students[rows[i].id], rows[i].id, duplicates))
    && (forall i, j :: 0 <= i < j < |rows| ==> rows[i].id < rows[j].id)
    && (forall id :: id in AffectedIds(students, ids, duplicates) ==> exists i :: 0 <= i < |rows| && rows[i].id == id)
    && |rows| == |AffectedIds(students, ids, duplicates)|
  }

  lemma PlansOneMore(students: map<Id, Student>, ids: set<Id>, duplicates: set<string>, rows: seq<PlanRow>, id: Id)
    requires Plans(students, ids, duplicates, rows) && id in students && id !in ids && forall x :: x in ids ==> x < id
    ensures Plans(students, ids + {id}, duplicates,
                  if Affected(students[id], duplicates) then rows + [RowOf(students[id], id, duplicates)] else rows)
  {
    hide RowOf, Affected;
    var before, after := AffectedIds(students, ids, duplicates), AffectedIds(students, ids + {id}, duplicates);
    if Affected(students[id], duplicates) {
      SizeOneMore(after, before, id);
      var more := rows + [RowOf(students[id], id, duplicates)];
      RowHasId(students[id], id, duplicates);
      forall x | x in after ensures exists i :: 0 <= i < |more| && more[i].id == x {
        if x == id {
          assert more[|rows|].id == x;
        } else {
          var i :| 0 <= i < |rows| && rows[i].id == x;
          assert more[i].id == x;
        }
      }
    } else {
      assert after == before;
    }
  }

  lemma RowHasId(s: Student, id: Id, duplicates: set<string>)
    ensures RowOf(s, id, duplicates).id == id
  {
  }

  lemma NothingPlanned(students: map<Id, Student>, duplicates: set<string>)
    ensures Plans(students, {}, duplicates, [])
  {
    assert AffectedIds(students, {}, duplicates) == {};
  }

  /** Row number i of the plan was executed as a deletion, or as a clearing. */
  ghost predicate InRow(rows: seq<PlanRow>, n: nat, id: Id, deleteWithoutNumbers: bool, deletes: bool)
    requires n <= |rows|
  {
    exists i :: 0 <= i < n && rows[i].id == id && (deleteWithoutNumbers && rows[i].willDelete) == deletes
  }

  /** The students after the first n rows of the plan. */
  ghost predicate Executed(before: map<Id, Student>, duplicates: set<string>, deleteWithoutNumbers: bool,
                           rows: seq<PlanRow>, n: nat, after: map<Id, Student>, doomed: set<Id>)
    requires n <= |rows|
  {
    && after.Keys == before.Keys
    && (forall id :: id in doomed <==> InRow(rows, n, id, deleteWithoutNumbers, true))
    && (forall id :: id in before ==>
          after[id] ==
            if InRow(rows, n, id, deleteWithoutNumbers, false) then Cleared(before[id], duplicates) else before[id])
  }

  lemma InRowOneMore(rows: seq<PlanRow>, n: nat, deleteWithoutNumbers: bool, id: Id, deletes: bool)
    requires n < |rows|
    ensures InRow(rows, n + 1, id, deleteWithoutNumbers, deletes) <==>
      InRow(rows, n, id, deleteWithoutNumbers, deletes)
      || (rows[n].id == id && (deleteWithoutNumbers && rows[n].willDelete) == deletes)
  {
  }

  lemma ExecutedOneMore(before: map<Id, Student>, duplicates: set<string>, deleteWithoutNumbers: bool,
                        rows: seq<PlanRow>, n: nat, after: map<Id, Student>, doomed: set<Id>)
    requires n < |rows| && Plans(before, before.Keys, duplicates, rows)
    requires Executed(before, duplicates, deleteWithoutNumbers, rows, n, after, doomed)
    ensures rows[n].id in after && rows[n].id in before && rows[n].id !in doomed
    ensures deleteWithoutNumbers && rows[n].willDelete ==>
      Executed(before, duplicates, deleteWithoutNumbers, rows, n + 1, after, doomed + {rows[n].id})
    ensures !(deleteWithoutNumbers && rows[n].willDelete) ==>
      Executed(before, duplicates, deleteWithoutNumbers, rows, n + 1,
               after[rows[n].id := after[rows[n].id].(phone1 := rows[n].new1, phone2 := rows[n].new2)], doomed)
  {
    hide Affected, Keep;
    var id := rows[n].id;
    assert id in AffectedIds(before, before.Keys, duplicates);
    assert rows[n] == RowOf(before[id], id, duplicates);
    forall deletes: bool ensures !InRow(rows, n, id, deleteWithoutNumbers, deletes) {
    }
    forall x, deletes: bool {
      InRowOneMore(rows, n, deleteWithoutNumbers, x, deletes);
    }
    hide InRow, Plans;
  }

  lemma NothingExecuted(before: map<Id, Student>, duplicates: set<string>, deleteWithoutNumbers: bool,
                        rows: seq<PlanRow>)
    ensures Executed(before, duplicates, deleteWithoutNumbers, rows, 0, before, {})
  {
  }

  /** Once every row is executed and the doomed are deleted, the students are the cleaned ones. */
  lemma AllExecuted(before: map<Id, Student>, duplicates: set<string>, deleteWithoutNumbers: bool, rows: seq<PlanRow>,
                    after: map<Id, Student>, doomed: set<Id>)
    requires Plans(before, before.Keys, duplicates, rows)
    requires Executed(before, duplicates, deleteWithoutNumbers, rows, |rows|, after, doomed)
    ensures after - doomed == Cleaned(before, duplicates, deleteWithoutNumbers)
    ensures doomed <= before.Keys && doomed == Doomed(before, duplicates, deleteWithoutNumbers)
    ensures (after - doomed).Keys == before.Keys - doomed
    ensures !deleteWithoutNumbers ==> doomed == {}
  {
    hide Keep, Affected;
    forall id | id in before
      ensures InRow(rows, |rows|, id, deleteWithoutNumbers, true) <==>
        deleteWithoutNumbers && WillDelete(before[id], duplicates)
      ensures InRow(rows, |rows|, id, deleteWithoutNumbers, false) <==>
        Affected(before[id], duplicates) && !(deleteWithoutNumbers && WillDelete(before[id], duplicates))
    {
      RowsOf(before, duplicates, rows, id);
    }
    forall id | id in doomed ensures id in before {
      var i :| 0 <= i < |rows| && rows[i].id == id;
      assert rows[i].id in AffectedIds(before, before.Keys, duplicates);
    }
    hide InRow, Plans;
  }

  lemma RowsOf(before: map<Id, Student>, duplicates: set<string>, rows: seq<PlanRow>, id: Id)
    requires Plans(before, before.Keys, duplicates, rows) && id in before
    ensures forall i :: 0 <= i < |rows| && rows[i].id == id ==>
      Affected(before[id], duplicates) && rows[i].willDelete == WillDelete(before[id], duplicates)
    ensures Affected(before[id], duplicates) ==> exists i :: 0 <= i < |rows| && rows[i].id == id
  {
    hide Keep, Affected;
    forall i | 0 <= i < |rows| && rows[i].id == id
      ensures Affected(before[id], duplicates) && rows[i].willDelete == WillDelete(before[id], duplicates)
    {
      assert rows[i] == RowOf(before[id], id, duplicates) && id in AffectedIds(before, before.Keys, duplicates);
    }
    if Affected(before[id], duplicates) {
      assert id in AffectedIds(before, before.Keys, duplicates);
    }
  }

  class PhoneTools {
    var students: map<Id, Student>

    /** _duplicate_cleanup_plan */
    method Plan(minimum: int) returns (duplicates: set<string>, rows: seq<PlanRow>)
      ensures duplicates == Duplicates(students, minimum)
      ensures Plans(students, students.Keys, duplicates, rows)
    {
      hide Normalize, Plans, Duplicates;
      var groups := DuplicatePhoneGroups(students, minimum);
      duplicates, rows := set group | group in groups :: group.phone, [];
      assert forall i :: 0 <= i < |groups| ==> groups[i] in groups;
      var todo := Ascending(students.Keys);
      NothingPlanned(students, duplicates);
      ghost var done: set<Id> := {};
      for n := 0 to |todo|
        invariant done == (set x | x in todo[..n])
        invariant Plans(students, done, duplicates, rows)
      {
        var id := todo[n];
        assert id in students && id !in done && forall x :: x in done ==> x < id;
        assert todo[..n + 1] == todo[..n] + [id];
        PlansOneMore(students, done, duplicates, rows, id);
        if Affected(students[id], duplicates) {
          rows := rows + [RowOf(students[id], id, duplicates)];
        }
        done := done + {id};
      }
      assert todo[..|todo|] == todo;
      assert done == students.Keys;
    }

    /** The loop over the plan: clears numbers, one log each, and puts the deletions off. */
    method ClearNumbers(store: StudentDelete.Store, duplicates: set<string>, rows: seq<PlanRow>,
                        deleteWithoutNumbers: bool)
      returns (doomed: seq<Id>, cleared: nat)
      requires Plans(students, students.Keys, duplicates, rows)
      modifies this, store`logs
      ensures Executed(old(students), duplicates, deleteWithoutNumbers, rows, |rows|, students, Members(doomed))
      ensures cleared + |doomed| == |rows| && |Members(doomed)| == |doomed|
      ensures old(store.logs) <= store.logs && |store.logs| == |old(store.logs)| + cleared
    {
      hide Plans, Executed, Members;
      ghost var before := students;
      doomed, cleared := [], 0;
      NothingExecuted(before, duplicates, deleteWithoutNumbers, rows);
      MembersOneMore([], 0);
      for n := 0 to |rows|
        invariant cleared + |doomed| == n && |Members(doomed)| == |doomed|
        invariant Executed(before, duplicates, deleteWithoutNumbers, rows, n, students, Members(doomed))
        invariant old(store.logs) <= store.logs && |store.logs| == |old(store.logs)| + cleared
      {
        ExecutedOneMore(before, duplicates, deleteWithoutNumbers, rows, n, students, Members(doomed));
        var id := rows[n].id;
        if deleteWithoutNumbers && rows[n].willDelete {
          MembersOneMore(doomed, id);
          doomed := doomed + [id];
        } else {
          students := students[id := students[id].(phone1 := rows[n].new1, phone2 := rows[n].new2)];
          store.logs := store.logs + [StudentDelete.Log(Some(id), "clear duplicate numbers")];
          cleared := cleared + 1;
        }
      }
    }

    /** _execute_cleanup_duplicates, in the database whose students these are: it runs through exactly when the
        students it deletes can be deleted, and otherwise everything is rolled back. */
    method CleanUp(store: StudentDelete.Store, minimum: int, deleteWithoutNumbers: bool)
      returns (result: Result<Report, string>)
      requires store.students == students.Keys
      requires StudentDelete.Valid(store.Now()) && StudentDelete.Typed(store.Now())
      modifies this, store
      ensures result.Ok? <==>
        StudentDelete.Deletable(old(store.Now()),
                                Doomed(old(students), Duplicates(old(students), minimum), deleteWithoutNumbers))
      ensures !deleteWithoutNumbers ==> result.Ok?
      ensures result.Err? ==> students == old(students) && store.Now() == old(store.Now())
      ensures result.Ok? ==>
        students == Cleaned(old(students), Duplicates(old(students), minimum), deleteWithoutNumbers)
        && Duplicates(students, minimum) == {}
      ensures result.Ok? ==>
        var ids := Doomed(old(students), Duplicates(old(students), minimum), deleteWithoutNumbers);
        store.Now() == StudentDelete.DeleteStudents(old(store.Now()), ids).(logs := store.logs)
        && store.students == students.Keys && old(store.logs) <= store.logs
      ensures result.Ok? ==> var report := result.value;
        report.affected == |AffectedIds(old(students), old(students).Keys, Duplicates(old(students), minimum))|
        && report.cleared + report.deleted == report.affected
        && report.deleted == |old(students)| - |students|
        && |store.logs| == |old(store.logs)| + report.affected + 1
    {
      hide Normalize, Plans, Duplicates, Executed, Cleaned, AffectedIds, Doomed, Members, InRow;
      hide StudentDelete.Valid, StudentDelete.Typed, StudentDelete.Deletable, StudentDelete.DeleteStudents;
      ghost var before, was := students, store.Now();
      var oldStudents, oldLogs := students, store.logs;
      var duplicates, rows := Plan(minimum);
      var doomed, cleared := ClearNumbers(store, duplicates, rows, deleteWithoutNumbers);
      ghost var ids := Members(doomed);
      AllExecuted(before, duplicates, deleteWithoutNumbers, rows, students, ids);
      DeleteCounts(before, students, ids, duplicates, deleteWithoutNumbers, rows);
      LogsAside(was, store.logs, ids);
      var deletion := store.DeleteCascade(doomed, "delete student without numbers");
      if deletion.Err? {
        students, store.logs := oldStudents, oldLogs;
        return Err(deletion.error);
      }
      students := students - Members(doomed);
      store.logs := store.logs + [StudentDelete.Log(None, "cleanup summary")];
      PlanSize(before, duplicates, rows);
      NoDuplicatesLeft(before, minimum, deleteWithoutNumbers);
      return Ok(Report(|rows|, cleared, deletion.value));
    }
  }

  /** The log has no foreign key that a deletion could break. */
  lemma LogsAside(db: StudentDelete.Database, logs: seq<StudentDelete.Log>, ids: set<Id>)
    ensures StudentDelete.Valid(db) <==> StudentDelete.Valid(db.(logs := logs))
    ensures StudentDelete.Typed(db) <==> StudentDelete.Typed(db.(logs := logs))
    ensures StudentDelete.Deletable(db, ids) <==> StudentDelete.Deletable(db.(logs := logs), ids)
    ensures forall more ::
      StudentDelete.DeleteStudents(db.(logs := logs), ids).(logs := more)
        == StudentDelete.DeleteStudents(db, ids).(logs := more)
    ensures StudentDelete.DeleteStudents(db, ids).students == db.students - ids
    ensures ids == {} ==> StudentDelete.Deletable(db, ids)
  {
  }

  lemma PlanSize(students: map<Id, Student>, duplicates: set<string>, rows: seq<PlanRow>)
    requires Plans(students, students.Keys, duplicates, rows)
    ensures |rows| == |AffectedIds(students, students.Keys, duplicates)|
  {
  }

  lemma DeleteCounts(before: map<Id, Student>, after: map<Id, Student>, doomed: set<Id>, duplicates: set<string>,
                     deleteWithoutNumbers: bool, rows: seq<PlanRow>)
    requires Executed(before, duplicates, deleteWithoutNumbers, rows, |rows|, after, doomed) && doomed <= before.Keys
    ensures |after - doomed| == |before| - |doomed|
  {
    assert (after - doomed).Keys == before.Keys - doomed;
    SizeOfParts(before.Keys, (after - doomed).Keys, doomed);
  }
}
