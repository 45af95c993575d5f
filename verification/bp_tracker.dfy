/** The blood-pressure tracker page (src/pages/BPTracker.jsx): the reading form,
    the medication check boxes, the add/update/delete of readings in the
    `bpLogs` table and the in-memory list kept newest first, and the status
    colour of a reading. */
module BPTracker {
  import opened Wrappers
  import opened Lists
  import opened Text
  import opened Ordering
  import opened Records
  import HealthProfile

  /** The form; the pressure fields hold the numbers the inputs coerce to. */
  datatype BPForm = BPForm(
    date: string,
    time: string,
    systolic: int,
    diastolic: int,
    pulse: int,
    notes: string,
    medications: seq<string>)

  /** A saved reading: the form fields plus `dateTime` and the save `timestamp`. */
  datatype BPLog = BPLog(form: BPForm, dateTime: string, timestamp: string)

  /** The reset form for the current date (`YYYY-MM-DD`) and time (`HH:MM`). */
  function FreshForm(today: string, nowTime: string): BPForm {
    BPForm(today, nowTime, 0, 0, 0, "", [])
  }

  datatype BPStatus = Normal | Elevated | High

  /** `getBPStatus` as written: the "elevated" test is an `||` of two ranges, tried
      before "high". */
  function GetBPStatus(systolic: int, diastolic: int): (r: BPStatus)
    ensures r == Normal <==> systolic <= 120 && diastolic <= 80
    ensures r == Elevated <==>
      !(systolic <= 120 && diastolic <= 80) && ((120 < systolic <= 130) || (80 < diastolic <= 85))
    ensures r == High <==>
      (systolic > 120 || diastolic > 80) && !(120 < systolic <= 130) && !(80 < diastolic <= 85)
  {
    if systolic <= 120 && diastolic <= 80 then Normal
    else if (systolic > 120 && systolic <= 130) || (diastolic > 80 && diastolic <= 85) then Elevated
    else High
  }

  /** A reading with systolic above 130 can still be called "elevated" when its
      diastolic lies in 81..85: raising the diastolic from 70 to 82 lowers the status. */
  lemma GetBPStatusNotMonotone()
    ensures GetBPStatus(135, 70) == High
    ensures GetBPStatus(135, 82) == Elevated
  {
  }

  /** Severity rank of a status. */
  function Rank(s: BPStatus): nat {
    match s
    case Normal => 0
    case Elevated => 1
    case High => 2
  }

  /** The classification with "high" tested first: either pressure past the elevated
      band (systolic > 130 or diastolic > 85) is high, the threshold the home page uses. */
  function ClassifyBP(systolic: int, diastolic: int): (r: BPStatus)
    ensures r == Normal <==> systolic <= 120 && diastolic <= 80
    ensures r == High <==> systolic > 130 || diastolic > 85
  {
    if systolic <= 120 && diastolic <= 80 then Normal
    else if systolic > 130 || diastolic > 85 then High
    else Elevated
  }

  /** The corrected classification never lowers the status when a pressure rises. */
  lemma ClassifyBPMonotone(s1: int, d1: int, s2: int, d2: int)
    requires s1 <= s2 && d1 <= d2
    ensures Rank(ClassifyBP(s1, d1)) <= Rank(ClassifyBP(s2, d2))
  {
  }

  /** The two classifications differ exactly when one pressure is past its elevated
      band while the other lies inside its own; there `getBPStatus` says "elevated". */
  lemma GetBPStatusVersusClassifyBP(systolic: int, diastolic: int)
    ensures GetBPStatus(systolic, diastolic) != ClassifyBP(systolic, diastolic) <==>
      (systolic > 130 && 80 < diastolic <= 85) || (diastolic > 85 && 120 < systolic <= 130)
    ensures GetBPStatus(systolic, diastolic) != ClassifyBP(systolic, diastolic) ==>
      GetBPStatus(systolic, diastolic) == Elevated && ClassifyBP(systolic, diastolic) == High
  {
  }

  /** `handleMedicationChange`: a checked medication is unchecked (every copy removed),
      an unchecked one is appended; nothing else in the form changes. */
  function HandleMedicationChange(form: BPForm, medication: string): (r: BPForm)
    ensures medication in r.medications <==> medication !in form.medications
    ensures multiset(r.medications)[medication := 0] == multiset(form.medications)[medication := 0]
    ensures medication !in form.medications ==>
      && |r.medications| == |form.medications| + 1
      && r.medications[..|form.medications|] == form.medications
      && r.medications[|form.medications|] == medication
    ensures medication in form.medications ==> r.medications == Without(form.medications, medication)
    ensures r == form.(medications := r.medications)
  {
    ToggleMembership(form.medications, medication);
    form.(medications := Toggle(form.medications, medication))
  }

  /** Checking an unchecked medication and unchecking it again restores the form. */
  lemma MedicationChangeTwice(form: BPForm, medication: string)
    requires medication !in form.medications
    ensures HandleMedicationChange(HandleMedicationChange(form, medication), medication) == form
  {
    ToggleTwiceAbsent(form.medications, medication);
  }

  /** `filter((med) => med.trim() !== "")`: the non-blank names, in order. */
  function NonBlank(names: seq<string>): (r: seq<string>)
    ensures |r| <= |names|
    ensures forall m :: m in r <==> m in names && !IsBlank(m)
  {
    if names == [] then []
    else
      assert names == [names[0]] + names[1..];
      TrimEmptyIffBlank(names[0]);
      (if Trim(names[0]) != "" then [names[0]] else []) + NonBlank(names[1..])
  }

  /** Each non-blank name is kept as often as it occurs; blank ones are dropped. */
  lemma {:induction false} NonBlankCounts(names: seq<string>)
    ensures forall m :: multiset(NonBlank(names))[m] == if IsBlank(m) then 0 else multiset(names)[m]
  {
    if names != [] {
      assert names == [names[0]] + names[1..];
      TrimEmptyIffBlank(names[0]);
      NonBlankCounts(names[1..]);
      var head := if Trim(names[0]) != "" then [names[0]] else [];
      assert multiset(NonBlank(names)) == multiset(head) + multiset(NonBlank(names[1..]));
      assert multiset(names) == multiset([names[0]]) + multiset(names[1..]);
    }
  }

  /** A list without blank names is kept as it is. */
  lemma {:induction false} NonBlankKeepsClean(names: seq<string>)
    requires forall m :: m in names ==> !IsBlank(m)
    ensures NonBlank(names) == names
  {
    if names != [] {
      assert names == [names[0]] + names[1..];
      TrimEmptyIffBlank(names[0]);
      NonBlankKeepsClean(names[1..]);
    }
  }

  /** The filter distributes over concatenation, so the kept names stay in their order. */
  lemma {:induction false} NonBlankAppend(a: seq<string>, b: seq<string>)
    ensures NonBlank(a + b) == NonBlank(a) + NonBlank(b)
  {
    if a == [] {
      assert a + b == b;
    } else {
      assert (a + b)[0] == a[0] && (a + b)[1..] == a[1..] + b;
      NonBlankAppend(a[1..], b);
      var head := if Trim(a[0]) != "" then [a[0]] else [];
      ConcatAssoc(head, NonBlank(a[1..]), NonBlank(b));
    }
  }

  /** The medication list `loadData` builds from the previous list, the `profile` rows
      and the names in the `medications` table (`None` when that table does not exist). */
  function LoadedMedications(prev: seq<string>, profiles: seq<HealthProfile.Profile>, medicationNames: Option<seq<string>>): (r: seq<string>)
    ensures
      var base := if |profiles| > 0 then NonBlank(profiles[0].medications) else prev;
      forall m :: m in r <==> m in base || (medicationNames.Some? && m in medicationNames.value)
    ensures medicationNames.Some? && |medicationNames.value| > 0 ==> NoDup(r)
    ensures |profiles| > 0 && (medicationNames.None? || medicationNames.value == []) ==>
      r == NonBlank(profiles[0].medications)
    ensures |profiles| == 0 && (medicationNames.None? || medicationNames.value == []) ==> r == prev
  {
    var base := if |profiles| > 0 then NonBlank(profiles[0].medications) else prev;
    if medicationNames.Some? && |medicationNames.value| > 0 then Distinct(base + medicationNames.value)
    else base
  }

  /** Merged names keep the order of their first appearance, profile names first. */
  lemma LoadedMedicationsOrder(prev: seq<string>, profiles: seq<HealthProfile.Profile>, names: seq<string>, i: nat, j: nat)
    requires |names| > 0
    requires i < j < |LoadedMedications(prev, profiles, Some(names))|
    ensures
      var base := if |profiles| > 0 then NonBlank(profiles[0].medications) else prev;
      var r := LoadedMedications(prev, profiles, Some(names));
      FirstIndex(base + names, r[i]) < FirstIndex(base + names, r[j])
  {
    var base := if |profiles| > 0 then NonBlank(profiles[0].medications) else prev;
    DistinctFirstAppearance(base + names, i, j);
  }

  /** The list's sort key: the reading's date. */
  function LogDate(log: Row<BPLog>): string {
    log.data.form.date
  }

  /** The record `handleSubmit` saves: the form plus `date + "T" + time` and the save time. */
  function LogData(form: BPForm, now: string): (r: BPLog)
    ensures r.form == form && r.timestamp == now
    ensures |r.dateTime| == |form.date| + 1 + |form.time|
    ensures r.dateTime[..|form.date|] == form.date && r.dateTime[|form.date|] == 'T'
    ensures r.dateTime[|form.date| + 1..] == form.time
  {
    BPLog(form, form.date + "T" + form.time, now)
  }

  /** `handleEdit`: the form a reading is loaded into; a missing time reads as noon. */
  function EditForm(log: BPLog): (r: BPForm)
    ensures r.time == (if log.form.time == "" then "12:00" else log.form.time)
    ensures r == log.form.(time := r.time)
  {
    log.form.(time := if log.form.time == "" then "12:00" else log.form.time)
  }

  /** The page: the form, the list of readings shown, the reading being edited,
      the medication choices and the `bpLogs` table. */
  class BPTrackerPage {
    var form: BPForm
    var logs: seq<Row<BPLog>>
    var editingId: Option<int>
    var medications: seq<string>
    const table: Table<BPLog>

    ghost predicate Valid()
      reads this, table
    {
      table.Valid()
    }

    constructor (table: Table<BPLog>, today: string, nowTime: string)
      requires table.Valid()
      ensures Valid() && this.table == table
      ensures form == FreshForm(today, nowTime) && logs == [] && editingId == None && medications == []
    {
      this.table := table;
      form := FreshForm(today, nowTime);
      logs := [];
      editingId := None;
      medications := [];
    }

    /** `loadData`: every stored reading, newest first, and the medication choices. */
    method LoadData(profiles: seq<HealthProfile.Profile>, medicationNames: Option<seq<string>>)
      requires Valid()
      modifies this`logs, this`medications
      ensures Valid()
      ensures logs == NewestFirst(table.rows, LogDate)
      ensures medications == LoadedMedications(old(medications), profiles, medicationNames)
    {
      var all := table.ToArray();
      logs := NewestFirst(all, LogDate);
      medications := LoadedMedications(medications, profiles, medicationNames);
    }

    /** `handleMedicationChange`. */
    method ToggleMedication(medication: string)
      modifies this`form
      ensures form == HandleMedicationChange(old(form), medication)
    {
      form := HandleMedicationChange(form, medication);
    }

    /** `handleSubmit`: while editing, the stored reading and the listed one(s) with
        that key take the new data and the list is re-sorted; otherwise the reading is
        added under a fresh key and put at the head of the list. The form is reset. */
    method HandleSubmit(now: string, today: string, nowTime: string)
      requires Valid()
      modifies this, table
      ensures Valid()
      ensures old(editingId).Some? ==>
        && table.rows == ReplaceId(old(table.rows), old(editingId).value, LogData(old(form), now))
        && logs == NewestFirst(ReplaceId(old(logs), old(editingId).value, LogData(old(form), now)), LogDate)
        && table.nextId == old(table.nextId)
      ensures old(editingId).None? ==>
        && table.rows == old(table.rows) + [Row(old(table.nextId), LogData(old(form), now))]
        && logs == [Row(old(table.nextId), LogData(old(form), now))] + old(logs)
        && !HasId(old(table.rows), old(table.nextId))
        && table.nextId == old(table.nextId) + 1
      ensures editingId == None && form == FreshForm(today, nowTime)
      ensures medications == old(medications)
    {
      var logData := LogData(form, now);
      if editingId.Some? {
        var id := editingId.value;
        var _ := table.Update(id, logData);
        logs := NewestFirst(ReplaceId(logs, id, logData), LogDate);
        editingId := None;
      } else {
        var id := table.Add(logData);
        logs := [Row(id, logData)] + logs;
      }
      form := FreshForm(today, nowTime);
    }

    /** `handleDelete`: after confirmation the reading leaves the table and the list;
        without it nothing changes. */
    method HandleDelete(id: int, confirmed: bool)
      requires Valid()
      modifies this`logs, table`rows
      ensures Valid()
      ensures confirmed ==> table.rows == RemoveId(old(table.rows), id) && logs == RemoveId(old(logs), id)
      ensures !confirmed ==> table.rows == old(table.rows) && logs == old(logs)
    {
      if confirmed {
        table.Delete(id);
        logs := RemoveId(logs, id);
      }
    }

    /** `handleEdit`: loads a reading into the form and remembers its key. */
    method HandleEdit(log: Row<BPLog>)
      modifies this`form, this`editingId
      ensures form == EditForm(log.data) && editingId == Some(log.id)
    {
      form := EditForm(log.data);
      editingId := Some(log.id);
    }
  }
}
