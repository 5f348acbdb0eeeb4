/**
 * The medication tracker: a table of medications and a log of doses taken.
 *
 * A dose log entry names a medication and the local calendar day (`YYYY-MM-DD`) it was
 * taken on. A medication counts as taken today when some entry for it carries today's
 * date. The page toggles today's entry, marks every open medication as taken at once,
 * deletes a medication with all of its entries, adds and edits medications through a
 * form, and every few seconds fires each due reminder at most once per
 * (day, minute), remembering per medication id the last (day, minute) it fired for.
 *
 * Storage (`medications_<user>`, `med_logs_<user>`, `last_notified_<id>`) is held in
 * fields; the current day key, the clock and the notification permission are
 * parameters. `takenAt` is kept as its instant in milliseconds.
 */
module Medication {
  import opened Wrappers
  import opened JsMath
  import opened JsString
  import opened Sequences

  datatype Med = Med(id: string, name: string, dosage: string, time: string, reminderEnabled: bool, icon: string)

  datatype MedLog = MedLog(medId: string, date: string, takenAt: int)

  /** The add/edit form. */
  datatype MedForm = MedForm(name: string, dosage: string, time: string, reminder: bool, icon: string)

  const BlankForm: MedForm := MedForm("", "", "08:00", true, "medication")

  // ------------------------------------------------------------------ taken today

  predicate IsEntryFor(l: MedLog, medId: string, today: string)
  {
    l.medId == medId && l.date == today
  }

  /** `logs.some(l => l.medId === medId && l.date === today)`. */
  predicate Taken(logs: seq<MedLog>, medId: string, today: string)
  {
    exists i :: 0 <= i < |logs| && IsEntryFor(logs[i], medId, today)
  }

  /** `logs.findIndex(l => l.medId === medId && l.date === today)`, `None` for -1. */
  function FindEntry(logs: seq<MedLog>, medId: string, today: string): (r: Option<nat>)
    ensures r.Some? ==> r.value < |logs| && IsEntryFor(logs[r.value], medId, today)
    ensures r.Some? ==> forall j :: 0 <= j < r.value ==> !IsEntryFor(logs[j], medId, today)
    ensures r.None? <==> !Taken(logs, medId, today)
  {
    if logs == [] then None
    else if IsEntryFor(logs[0], medId, today) then Some(0)
    else
      var rest := FindEntry(logs[1..], medId, today);
      assert forall j :: 1 <= j < |logs| ==> logs[j] == logs[1..][j - 1];
      if rest.Some? then Some(rest.value + 1) else None
  }

  // ------------------------------------------------------------------ toggling a dose

  /** `toggleTaken`'s log update: remove the first entry for today, or append one. */
  function ToggleTakenLogs(logs: seq<MedLog>, medId: string, today: string, now: int): seq<MedLog>
  {
    match FindEntry(logs, medId, today)
    case Some(k) => logs[..k] + logs[k + 1..]
    case None => logs + [MedLog(medId, today, now)]
  }

  /** Without an entry for today exactly one entry `(medId, today)` is appended, and the dose counts as taken. */
  lemma ToggleTakenAppends(logs: seq<MedLog>, medId: string, today: string, now: int)
    requires !Taken(logs, medId, today)
    ensures ToggleTakenLogs(logs, medId, today, now) == logs + [MedLog(medId, today, now)]
    ensures Taken(ToggleTakenLogs(logs, medId, today, now), medId, today)
  {
    var r := ToggleTakenLogs(logs, medId, today, now);
    assert IsEntryFor(r[|logs|], medId, today);
  }

  /** With an entry for today the first such entry is removed and every other entry stays, in order. */
  lemma ToggleTakenRemovesFirst(logs: seq<MedLog>, medId: string, today: string, now: int)
    requires Taken(logs, medId, today)
    ensures exists k :: 0 <= k < |logs| && IsEntryFor(logs[k], medId, today)
              && (forall j :: 0 <= j < k ==> !IsEntryFor(logs[j], medId, today))
              && ToggleTakenLogs(logs, medId, today, now) == logs[..k] + logs[k + 1..]
  {
    var k := FindEntry(logs, medId, today).value;
    assert ToggleTakenLogs(logs, medId, today, now) == logs[..k] + logs[k + 1..];
  }

  /** Taking a dose and then undoing it on the same day restores the log. */
  lemma ToggleTakenTwice(logs: seq<MedLog>, medId: string, today: string, now: int, later: int)
    requires !Taken(logs, medId, today)
    ensures ToggleTakenLogs(ToggleTakenLogs(logs, medId, today, now), medId, today, later) == logs
  {
    var once := logs + [MedLog(medId, today, now)];
    assert ToggleTakenLogs(logs, medId, today, now) == once;
    forall j | 0 <= j < |logs| ensures !IsEntryFor(once[j], medId, today) {
      assert once[j] == logs[j];
    }
    assert IsEntryFor(once[|logs|], medId, today);
    assert FindEntry(once, medId, today) == Some(|logs|);
    assert once[..|logs|] == logs;
  }

  // ------------------------------------------------------------------ take all

  /** The entries `handleTakeAll` collects: one per medication not taken today, in medication order. */
  function NewLogs(meds: seq<Med>, current: seq<MedLog>, today: string, now: int): (r: seq<MedLog>)
    ensures |r| <= |meds|
  {
    if meds == [] then []
    else
      var last := meds[|meds| - 1];
      NewLogs(meds[..|meds| - 1], current, today, now)
        + (if Taken(current, last.id, today) then [] else [MedLog(last.id, today, now)])
  }

  /** `handleTakeAll`'s log update: the old log followed by the collected entries, or the old log itself. */
  function TakeAllLogs(current: seq<MedLog>, meds: seq<Med>, today: string, now: int): seq<MedLog>
  {
    var added := NewLogs(meds, current, today, now);
    if |added| > 0 then current + added else current
  }

  /** The loop of `handleTakeAll`, over `medications.forEach`. */
  method CollectNewLogs(meds: seq<Med>, current: seq<MedLog>, today: string, now: int) returns (added: seq<MedLog>)
    ensures added == NewLogs(meds, current, today, now)
  {
    added := [];
    var i := 0;
    while i < |meds|
      invariant 0 <= i <= |meds|
      invariant added == NewLogs(meds[..i], current, today, now)
    {
      assert meds[..i + 1][..i] == meds[..i];
      if !Taken(current, meds[i].id, today) {
        added := added + [MedLog(meds[i].id, today, now)];
      }
      i := i + 1;
    }
    assert meds[..|meds|] == meds;
  }

  predicate NotTakenBy(logs: seq<MedLog>, today: string, m: Med)
  {
    !Taken(logs, m.id, today)
  }

  function Untaken(logs: seq<MedLog>, today: string): Med -> bool
  {
    (m: Med) => NotTakenBy(logs, today, m)
  }

  function EntriesFor(meds: seq<Med>, today: string, now: int): (r: seq<MedLog>)
    ensures |r| == |meds|
    ensures forall i :: 0 <= i < |meds| ==> r[i] == MedLog(meds[i].id, today, now)
  {
    seq(|meds|, i requires 0 <= i < |meds| => MedLog(meds[i].id, today, now))
  }

  /** The collected entries are those of the untaken medications, in medication order. */
  lemma {:induction false} NewLogsAreUntaken(meds: seq<Med>, current: seq<MedLog>, today: string, now: int)
    ensures NewLogs(meds, current, today, now) == EntriesFor(Filter(meds, Untaken(current, today)), today, now)
  {
    if meds != [] {
      var init := meds[..|meds| - 1];
      var last := meds[|meds| - 1];
      NewLogsAreUntaken(init, current, today, now);
      assert meds == init + [last];
      FilterAppend(init, [last], Untaken(current, today));
      assert [last][1..] == [];
      var a := Filter(init, Untaken(current, today));
      var b := Filter([last], Untaken(current, today));
      assert EntriesFor(a + b, today, now) == EntriesFor(a, today, now) + EntriesFor(b, today, now);
    }
  }

  /** After "take all" every medication has an entry for today. */
  lemma {:induction false} NewLogsCover(meds: seq<Med>, current: seq<MedLog>, today: string, now: int, k: int)
    requires 0 <= k < |meds|
    ensures Taken(current + NewLogs(meds, current, today, now), meds[k].id, today)
  {
    var init := meds[..|meds| - 1];
    var last := meds[|meds| - 1];
    var added := NewLogs(meds, current, today, now);
    var all := current + added;
    if k == |meds| - 1 {
      if Taken(current, last.id, today) {
        var i :| 0 <= i < |current| && IsEntryFor(current[i], last.id, today);
        assert all[i] == current[i];
      } else {
        assert added[|added| - 1] == MedLog(last.id, today, now);
        assert all[|all| - 1] == added[|added| - 1];
      }
    } else {
      assert init[k] == meds[k];
      NewLogsCover(init, current, today, now, k);
      var prev := current + NewLogs(init, current, today, now);
      var i :| 0 <= i < |prev| && IsEntryFor(prev[i], meds[k].id, today);
      assert all == prev + (if Taken(current, last.id, today) then [] else [MedLog(last.id, today, now)]);
      assert all[i] == prev[i];
    }
  }

  /** When every medication is already taken today nothing is collected. */
  lemma {:induction false} NewLogsNone(meds: seq<Med>, current: seq<MedLog>, today: string, now: int)
    requires forall k :: 0 <= k < |meds| ==> Taken(current, meds[k].id, today)
    ensures NewLogs(meds, current, today, now) == []
  {
    if meds != [] {
      var init := meds[..|meds| - 1];
      assert forall k :: 0 <= k < |init| ==> init[k] == meds[k];
      NewLogsNone(init, current, today, now);
    }
  }

  /**
   * "Take all": the old log is an unchanged prefix, one entry follows per medication
   * untaken before, in medication order, and afterwards every medication is taken today.
   * A second "take all" changes nothing.
   */
  lemma TakeAllEffect(current: seq<MedLog>, meds: seq<Med>, today: string, now: int, later: int)
    ensures var r := TakeAllLogs(current, meds, today, now);
            |r| >= |current| && r[..|current|] == current
            && r[|current|..] == EntriesFor(Filter(meds, Untaken(current, today)), today, now)
            && (forall k :: 0 <= k < |meds| ==> Taken(r, meds[k].id, today))
            && TakeAllLogs(r, meds, today, later) == r
  {
    var added := NewLogs(meds, current, today, now);
    var r := TakeAllLogs(current, meds, today, now);
    NewLogsAreUntaken(meds, current, today, now);
    assert r == current + added;
    assert r[..|current|] == current && r[|current|..] == added;
    forall k | 0 <= k < |meds| ensures Taken(r, meds[k].id, today) {
      NewLogsCover(meds, current, today, now, k);
    }
    NewLogsNone(meds, r, today, later);
  }

  // ------------------------------------------------------------------ progress

  predicate TakenToday(logs: seq<MedLog>, today: string, m: Med)
  {
    Taken(logs, m.id, today)
  }

  function IsTakenBy(logs: seq<MedLog>, today: string): Med -> bool
  {
    (m: Med) => TakenToday(logs, today, m)
  }

  /** `takenDoses`: the medications with an entry for today. */
  function TakenDoses(meds: seq<Med>, logs: seq<MedLog>, today: string): int
  {
    |Filter(meds, IsTakenBy(logs, today))|
  }

  /** `progressPercent`: 0 without medications, else `Math.round(taken / total * 100)`. */
  function ProgressPercent(meds: seq<Med>, logs: seq<MedLog>, today: string): int
  {
    if |meds| == 0 then 0 else Percent(TakenDoses(meds, logs, today), |meds|)
  }

  /** `hasUntakenMeds`, which shows the "Take All Today" button. */
  predicate HasUntakenMeds(meds: seq<Med>, logs: seq<MedLog>, today: string)
  {
    |meds| > 0 && TakenDoses(meds, logs, today) < |meds|
  }

  /**
   * The taken count never exceeds the total; the percentage lies in [0, 100], is 100
   * when all are taken and 0 when none are; and the button shows exactly when some
   * medication is not yet taken today.
   */
  lemma ProgressFacts(meds: seq<Med>, logs: seq<MedLog>, today: string)
    ensures 0 <= TakenDoses(meds, logs, today) <= |meds|
    ensures 0 <= ProgressPercent(meds, logs, today) <= 100
    ensures |meds| > 0 && TakenDoses(meds, logs, today) == |meds| ==> ProgressPercent(meds, logs, today) == 100
    ensures TakenDoses(meds, logs, today) == 0 ==> ProgressPercent(meds, logs, today) == 0
    ensures HasUntakenMeds(meds, logs, today) <==> exists k :: 0 <= k < |meds| && !Taken(logs, meds[k].id, today)
  {
    var t := TakenDoses(meds, logs, today);
    if |meds| > 0 {
      RoundBetween(100 * t, |meds|, 0, 100);
      if t == |meds| { RoundExact(100, |meds|); }
      if t == 0 { RoundExact(0, |meds|); }
    }
    FilterKeepsLength(meds, IsTakenBy(logs, today));
    assert forall k :: 0 <= k < |meds| ==> (IsTakenBy(logs, today)(meds[k]) <==> Taken(logs, meds[k].id, today));
  }

  /** "Take all" adds exactly as many entries as there were untaken medications, and then none is open. */
  lemma TakeAllCompletes(current: seq<MedLog>, meds: seq<Med>, today: string, now: int)
    ensures |TakeAllLogs(current, meds, today, now)| == |current| + |meds| - TakenDoses(meds, current, today)
    ensures !HasUntakenMeds(meds, TakeAllLogs(current, meds, today, now), today)
  {
    var r := TakeAllLogs(current, meds, today, now);
    TakeAllEffect(current, meds, today, now, now);
    assert |r| == |current| + |r[|current|..]|;
    FilterPartition(meds, IsTakenBy(current, today));
    assert Filter(meds, Complement(IsTakenBy(current, today))) == Filter(meds, Untaken(current, today)) by {
      FilterSamePredicate(meds, Complement(IsTakenBy(current, today)), Untaken(current, today));
    }
    ProgressFacts(meds, r, today);
  }

  /** Two predicates that agree everywhere filter alike. */
  lemma {:induction false} FilterSamePredicate(meds: seq<Med>, p: Med -> bool, q: Med -> bool)
    requires forall m :: p(m) == q(m)
    ensures Filter(meds, p) == Filter(meds, q)
  {
    if meds != [] {
      FilterSamePredicate(meds[1..], p, q);
    }
  }

  // ------------------------------------------------------------------ deleting

  function OtherMed(id: string): Med -> bool
  {
    (m: Med) => m.id != id
  }

  function OtherMedLog(id: string): MedLog -> bool
  {
    (l: MedLog) => l.medId != id
  }

  /** `handleDeleteMedication`: every medication with the id goes, and every entry for it. */
  function DeleteMedication(meds: seq<Med>, logs: seq<MedLog>, id: string): (seq<Med>, seq<MedLog>)
  {
    (Filter(meds, OtherMed(id)), Filter(logs, OtherMedLog(id)))
  }

  /** What remains is exactly what had another id, in its original relative order. */
  lemma DeleteMedicationEffect(meds: seq<Med>, logs: seq<MedLog>, id: string, m: Med, l: MedLog)
    ensures (m in DeleteMedication(meds, logs, id).0) <==> (m in meds && m.id != id)
    ensures (l in DeleteMedication(meds, logs, id).1) <==> (l in logs && l.medId != id)
    ensures forall xs, ys :: meds == xs + ys ==>
              DeleteMedication(meds, logs, id).0 == DeleteMedication(xs, logs, id).0 + DeleteMedication(ys, logs, id).0
    ensures forall xs, ys :: logs == xs + ys ==>
              DeleteMedication(meds, logs, id).1 == DeleteMedication(meds, xs, id).1 + DeleteMedication(meds, ys, id).1
  {
    FilterMembers(meds, OtherMed(id), m);
    FilterMembers(logs, OtherMedLog(id), l);
    forall xs, ys | meds == xs + ys
      ensures Filter(meds, OtherMed(id)) == Filter(xs, OtherMed(id)) + Filter(ys, OtherMed(id))
    {
      FilterAppend(xs, ys, OtherMed(id));
    }
    forall xs, ys | logs == xs + ys
      ensures Filter(logs, OtherMedLog(id)) == Filter(xs, OtherMedLog(id)) + Filter(ys, OtherMedLog(id))
    {
      FilterAppend(xs, ys, OtherMedLog(id));
    }
  }

  // ------------------------------------------------------------------ saving the form

  /** A save goes ahead only with a name and a time. */
  predicate Accepts(form: MedForm)
  {
    form.name != "" && form.time != ""
  }

  /** A requested reminder survives only if notification permission is granted. */
  function ReminderSetting(requested: bool, granted: bool): (r: bool)
    ensures r <==> requested && granted
  {
    if requested then granted else false
  }

  /** `editingId` is truthy: an id that is neither null nor the empty string. */
  predicate IsEditing(editingId: Option<string>)
  {
    editingId.Some? && editingId.value != ""
  }

  function Edited(m: Med, form: MedForm, reminder: bool): Med
  {
    m.(name := form.name, dosage := form.dosage, time := form.time, reminderEnabled := reminder, icon := form.icon)
  }

  /** The medication list after an accepted save. */
  function SavedMeds(meds: seq<Med>, editingId: Option<string>, form: MedForm, granted: bool, now: int): (r: seq<Med>)
  {
    var reminder := ReminderSetting(form.reminder, granted);
    if IsEditing(editingId) then
      seq(|meds|, i requires 0 <= i < |meds| =>
        if meds[i].id == editingId.value then Edited(meds[i], form, reminder) else meds[i])
    else meds + [Med(IntToString(now), form.name, form.dosage, form.time, reminder, form.icon)]
  }

  /**
   * Editing rewrites name, dosage, time, reminder flag and icon of the items with that
   * id and nothing else, keeping the list's length and ids; adding appends one item
   * whose id is the current time's text. A denied permission leaves the reminder off.
   */
  lemma SavedMedsEffect(meds: seq<Med>, editingId: Option<string>, form: MedForm, granted: bool, now: int)
    ensures var r := SavedMeds(meds, editingId, form, granted, now);
            IsEditing(editingId) ==>
              |r| == |meds|
              && (forall i :: 0 <= i < |meds| ==> r[i].id == meds[i].id)
              && (forall i :: 0 <= i < |meds| && meds[i].id == editingId.value ==>
                    r[i] == Med(meds[i].id, form.name, form.dosage, form.time, form.reminder && granted, form.icon))
              && (forall i :: 0 <= i < |meds| && meds[i].id != editingId.value ==> r[i] == meds[i])
    ensures var r := SavedMeds(meds, editingId, form, granted, now);
            !IsEditing(editingId) ==>
              r == meds + [Med(IntToString(now), form.name, form.dosage, form.time, form.reminder && granted, form.icon)]
    ensures !granted ==> forall i :: 0 <= i < |meds| && SavedMeds(meds, editingId, form, granted, now)[i] != meds[i] ==>
              !SavedMeds(meds, editingId, form, granted, now)[i].reminderEnabled
    ensures !granted && !IsEditing(editingId) ==> !SavedMeds(meds, editingId, form, granted, now)[|meds|].reminderEnabled
  {
  }

  /** `openEditModal`'s form: the medication's fields, with the icon defaulting to "medication". */
  function FormOf(m: Med): (f: MedForm)
    ensures f.name == m.name && f.dosage == m.dosage && f.time == m.time && f.reminder == m.reminderEnabled
    ensures f.icon == (if m.icon == "" then "medication" else m.icon)
  {
    MedForm(m.name, m.dosage, m.time, m.reminderEnabled, if m.icon == "" then "medication" else m.icon)
  }

  /** Opening a medication for editing and saving it unchanged (with permission) leaves the list as it was. */
  lemma EditUnchangedKeepsList(meds: seq<Med>, k: int, now: int)
    requires 0 <= k < |meds| && meds[k].id != "" && meds[k].icon != ""
    requires forall i :: 0 <= i < |meds| && meds[i].id == meds[k].id ==> meds[i] == meds[k]
    ensures SavedMeds(meds, Some(meds[k].id), FormOf(meds[k]), true, now) == meds
  {
    var r := SavedMeds(meds, Some(meds[k].id), FormOf(meds[k]), true, now);
    forall i | 0 <= i < |meds| ensures r[i] == meds[i] {
      if meds[i].id == meds[k].id {
        assert meds[i] == meds[k];
      }
    }
  }

  // ------------------------------------------------------------------ history

  predicate SortedByNewest(ls: seq<MedLog>)
  {
    forall i, j :: 0 <= i < j < |ls| ==> ls[i].takenAt >= ls[j].takenAt
  }

  /** The first entry of a newest-first list is no earlier than any other. */
  lemma HeadIsNewest(ls: seq<MedLog>)
    requires SortedByNewest(ls) && ls != []
    ensures forall y :: y in ls[1..] ==> ls[0].takenAt >= y.takenAt
  {
    forall y | y in ls[1..] ensures ls[0].takenAt >= y.takenAt {
      var j :| 0 <= j < |ls[1..]| && ls[1..][j] == y;
      assert ls[j + 1] == y;
    }
  }

  /** An entry no earlier than every entry of a newest-first list can go in front of it. */
  lemma SortedCons(y: MedLog, rest: seq<MedLog>)
    requires SortedByNewest(rest)
    requires forall z :: z in rest ==> y.takenAt >= z.takenAt
    ensures SortedByNewest([y] + rest)
  {
    var r := [y] + rest;
    forall i, j | 0 <= i < j < |r| ensures r[i].takenAt >= r[j].takenAt {
      assert r[j] == rest[j - 1];
      if i > 0 {
        assert r[i] == rest[i - 1];
      } else {
        assert rest[j - 1] in rest;
      }
    }
  }

  /** An entry no earlier than the head of a newest-first list can go in front of it. */
  lemma NewestInFront(x: MedLog, ls: seq<MedLog>)
    requires SortedByNewest(ls)
    requires ls == [] || ls[0].takenAt <= x.takenAt
    ensures SortedByNewest([x] + ls)
  {
    if ls != [] {
      HeadIsNewest(ls);
      assert ls == [ls[0]] + ls[1..];
      forall z | z in ls ensures x.takenAt >= z.takenAt {
        if z != ls[0] {
          assert z in ls[1..];
        }
      }
    }
    SortedCons(x, ls);
  }

  /** Insert before the first entry that is no later, as a stable descending sort places it. */
  function InsertByNewest(x: MedLog, ls: seq<MedLog>): (r: seq<MedLog>)
    requires SortedByNewest(ls)
    ensures SortedByNewest(r)
    ensures multiset(r) == multiset(ls) + multiset{x}
    ensures |r| == |ls| + 1
  {
    if ls == [] || ls[0].takenAt <= x.takenAt then
      NewestInFront(x, ls);
      [x] + ls
    else
      var rest := InsertByNewest(x, ls[1..]);
      assert ls == [ls[0]] + ls[1..];
      HeadIsNewest(ls);
      forall y | y in rest ensures ls[0].takenAt >= y.takenAt {
        assert y in multiset(rest);
        if y != x {
          assert y in multiset(ls[1..]);
        }
      }
      SortedCons(ls[0], rest);
      assert multiset([ls[0]] + rest) == multiset{ls[0]} + multiset(rest);
      [ls[0]] + rest
  }

  /** `sort((a, b) => b.takenAt - a.takenAt)`: newest first. */
  function SortByNewest(ls: seq<MedLog>): (r: seq<MedLog>)
    ensures SortedByNewest(r)
    ensures multiset(r) == multiset(ls)
    ensures |r| == |ls|
  {
    if ls == [] then []
    else
      assert ls == [ls[0]] + ls[1..];
      InsertByNewest(ls[0], SortByNewest(ls[1..]))
  }

  function ForMed(medId: string): MedLog -> bool
  {
    (l: MedLog) => l.medId == medId
  }

  /** `totalTracked`: all entries for the medication. */
  function Tracked(logs: seq<MedLog>, medId: string): seq<MedLog>
  {
    Filter(logs, ForMed(medId))
  }

  /** `medHistory`: the medication's entries, newest first, at most ten. */
  function History(logs: seq<MedLog>, medId: string): seq<MedLog>
  {
    var sorted := SortByNewest(Tracked(logs, medId));
    sorted[..Min(10, |sorted|)]
  }

  /**
   * The history holds at most ten entries, all for that medication and all from the
   * log, newest first; it has every tracked entry when there are at most ten, and the
   * entries it leaves out are no later than any it shows.
   */
  lemma HistoryShape(logs: seq<MedLog>, medId: string)
    ensures var h := History(logs, medId);
            |h| == Min(10, |Tracked(logs, medId)|)
            && (forall i :: 0 <= i < |h| ==> h[i].medId == medId && h[i] in logs)
            && SortedByNewest(h)
            && (|Tracked(logs, medId)| <= 10 ==> multiset(h) == multiset(Tracked(logs, medId)))
    ensures var sorted := SortByNewest(Tracked(logs, medId));
            var h := History(logs, medId);
            multiset(h) + multiset(sorted[|h|..]) == multiset(Tracked(logs, medId))
            && forall i, j :: 0 <= i < |h| && |h| <= j < |sorted| ==> sorted[j].takenAt <= h[i].takenAt
  {
    var tracked := Tracked(logs, medId);
    var sorted := SortByNewest(tracked);
    var h := History(logs, medId);
    assert h == sorted[..|h|];
    SortedSplit(sorted, |h|);
    HistoryEntries(logs, medId, sorted, h);
    if |tracked| <= 10 {
      assert h == sorted;
    }
  }

  /** Every entry of a reordering of the medication's entries is one of its logs. */
  lemma HistoryEntries(logs: seq<MedLog>, medId: string, sorted: seq<MedLog>, h: seq<MedLog>)
    requires multiset(sorted) == multiset(Tracked(logs, medId))
    requires |h| <= |sorted| && h == sorted[..|h|]
    ensures forall i :: 0 <= i < |h| ==> h[i].medId == medId && h[i] in logs
  {
    forall i | 0 <= i < |h| ensures h[i].medId == medId && h[i] in logs {
      assert h[i] == sorted[i];
      assert h[i] in multiset(Tracked(logs, medId));
      FilterMembers(logs, ForMed(medId), h[i]);
    }
  }

  /** Cutting a newest-first list leaves a newest-first front, no later entry behind it, and nothing lost. */
  lemma SortedSplit(sorted: seq<MedLog>, n: int)
    requires SortedByNewest(sorted) && 0 <= n <= |sorted|
    ensures SortedByNewest(sorted[..n])
    ensures multiset(sorted[..n]) + multiset(sorted[n..]) == multiset(sorted)
    ensures forall i, j :: 0 <= i < n <= j < |sorted| ==> sorted[j].takenAt <= sorted[..n][i].takenAt
  {
    assert sorted == sorted[..n] + sorted[n..];
  }

  // ------------------------------------------------------------------ reminders

  /** `String(n).padStart(2, '0')`. */
  function Pad2(n: nat): (s: string)
  {
    var t := NatToString(n);
    if |t| < 2 then "0" + t else t
  }

  /** Two-digit numbers pad to two characters, and different numbers to different text. */
  lemma Pad2Injective(a: nat, b: nat)
    requires a < 100 && b < 100
    ensures |Pad2(a)| == 2
    ensures Pad2(a) == Pad2(b) ==> a == b
  {
    Pad2Digits(a);
    Pad2Digits(b);
    if Pad2(a) == Pad2(b) {
      assert DigitValue(Pad2(a)[0]) == a / 10 && DigitValue(Pad2(a)[1]) == a % 10;
    }
  }

  lemma Pad2Digits(n: nat)
    requires n < 100
    ensures Pad2(n) == [DigitChar(n / 10), DigitChar(n % 10)]
  {
    if n >= 10 {
      assert NatToString(n) == NatToString(n / 10) + [DigitChar(n % 10)];
    }
  }

  /** `${HH}:${MM}` of the clock. */
  function ClockText(hour: nat, minute: nat): string
  {
    Pad2(hour) + ":" + Pad2(minute)
  }

  /** Within a day the clock text names the minute: different minutes give different text. */
  lemma ClockTextInjective(h1: nat, m1: nat, h2: nat, m2: nat)
    requires h1 < 24 && m1 < 60 && h2 < 24 && m2 < 60
    ensures ClockText(h1, m1) == ClockText(h2, m2) ==> h1 == h2 && m1 == m2
  {
    Pad2Injective(h1, h2);
    Pad2Injective(m1, m2);
    var s1 := ClockText(h1, m1);
    var s2 := ClockText(h2, m2);
    if s1 == s2 {
      assert Pad2(h1) == s1[..2] && Pad2(h2) == s2[..2];
      assert Pad2(m1) == s1[3..] && Pad2(m2) == s2[3..];
    }
  }

  datatype Reminder = Reminder(title: string, body: string)

  function ReminderFor(m: Med): Reminder
  {
    Reminder("Time to take " + m.name,
      "It's " + m.time + ". Dosage: " + (if m.dosage == "" then "As prescribed" else m.dosage) + ".")
  }

  /** The checker's state: the notifications shown so far and the `last_notified_<id>` markers. */
  datatype CheckState = CheckState(sent: seq<Reminder>, marks: map<string, string>)

  predicate Due(m: Med, currentTime: string)
  {
    m.reminderEnabled && m.time == currentTime
  }

  /** One medication of the check: a due reminder not yet marked with this stamp is marked, and shown if permitted. */
  function CheckOne(m: Med, st: CheckState, currentTime: string, stamp: string, granted: bool): (r: CheckState)
  {
    if Due(m, currentTime) && !(m.id in st.marks && st.marks[m.id] == stamp) then
      CheckState(st.sent + (if granted then [ReminderFor(m)] else []), st.marks[m.id := stamp])
    else st
  }

  /** The check over `medications.forEach`, one medication after another. */
  function CheckAll(meds: seq<Med>, st: CheckState, currentTime: string, stamp: string, granted: bool): CheckState
  {
    if meds == [] then st
    else CheckOne(meds[|meds| - 1], CheckAll(meds[..|meds| - 1], st, currentTime, stamp, granted), currentTime, stamp, granted)
  }

  /** After a check every due medication's marker holds the stamp, and markers of no due medication stay. */
  lemma {:induction false} CheckMarksDue(meds: seq<Med>, st: CheckState, currentTime: string, stamp: string, granted: bool)
    ensures var r := CheckAll(meds, st, currentTime, stamp, granted);
            (forall k :: 0 <= k < |meds| && Due(meds[k], currentTime) ==>
               meds[k].id in r.marks && r.marks[meds[k].id] == stamp)
            && (forall key :: key in st.marks && (forall k :: 0 <= k < |meds| && Due(meds[k], currentTime) ==> meds[k].id != key) ==>
                  key in r.marks && r.marks[key] == st.marks[key])
            && (forall key :: key in r.marks ==> key in st.marks || exists k :: 0 <= k < |meds| && Due(meds[k], currentTime) && meds[k].id == key)
            && |st.sent| <= |r.sent| <= |st.sent| + |meds|
            && r.sent[..|st.sent|] == st.sent
  {
    if meds != [] {
      var init := meds[..|meds| - 1];
      CheckMarksDue(init, st, currentTime, stamp, granted);
      assert forall k :: 0 <= k < |init| ==> init[k] == meds[k];
      var prev := CheckAll(init, st, currentTime, stamp, granted);
      var r := CheckOne(meds[|meds| - 1], prev, currentTime, stamp, granted);
      assert r.sent[..|prev.sent|] == prev.sent;
      assert r.sent[..|st.sent|] == prev.sent[..|st.sent|];
    }
  }

  /** A second check in the same minute of the same day shows nothing and changes no marker. */
  lemma {:induction false} CheckTwiceSilent(meds: seq<Med>, st: CheckState, currentTime: string, stamp: string, granted: bool)
    ensures var once := CheckAll(meds, st, currentTime, stamp, granted);
            CheckAll(meds, once, currentTime, stamp, granted) == once
  {
    var once := CheckAll(meds, st, currentTime, stamp, granted);
    CheckMarksDue(meds, st, currentTime, stamp, granted);
    CheckAlreadyMarked(meds, once, currentTime, stamp, granted);
  }

  /** When every due medication is already marked with the stamp, a check does nothing. */
  lemma {:induction false} CheckAlreadyMarked(meds: seq<Med>, st: CheckState, currentTime: string, stamp: string, granted: bool)
    requires forall k :: 0 <= k < |meds| && Due(meds[k], currentTime) ==> meds[k].id in st.marks && st.marks[meds[k].id] == stamp
    ensures CheckAll(meds, st, currentTime, stamp, granted) == st
  {
    if meds != [] {
      var init := meds[..|meds| - 1];
      assert forall k :: 0 <= k < |init| ==> init[k] == meds[k];
      CheckAlreadyMarked(init, st, currentTime, stamp, granted);
    }
  }

  /** The markers do not depend on the permission; without it nothing is shown. */
  lemma {:induction false} CheckMarksIgnorePermission(meds: seq<Med>, st: CheckState, currentTime: string, stamp: string)
    ensures CheckAll(meds, st, currentTime, stamp, true).marks == CheckAll(meds, st, currentTime, stamp, false).marks
    ensures CheckAll(meds, st, currentTime, stamp, false).sent == st.sent
  {
    if meds != [] {
      CheckMarksIgnorePermission(meds[..|meds| - 1], st, currentTime, stamp);
    }
  }

  /** Everything shown is the reminder of a due medication. */
  lemma {:induction false} CheckSendsOnlyDue(meds: seq<Med>, st: CheckState, currentTime: string, stamp: string, granted: bool)
    ensures var r := CheckAll(meds, st, currentTime, stamp, granted);
            |r.sent| >= |st.sent|
            && forall i :: |st.sent| <= i < |r.sent| ==>
                 exists k :: 0 <= k < |meds| && Due(meds[k], currentTime) && r.sent[i] == ReminderFor(meds[k])
  {
    if meds != [] {
      var init := meds[..|meds| - 1];
      CheckSendsOnlyDue(init, st, currentTime, stamp, granted);
      var prev := CheckAll(init, st, currentTime, stamp, granted);
      var r := CheckAll(meds, st, currentTime, stamp, granted);
      assert r == CheckOne(meds[|meds| - 1], prev, currentTime, stamp, granted);
      assert |r.sent| >= |prev.sent| && r.sent[..|prev.sent|] == prev.sent;
      forall i | |st.sent| <= i < |r.sent|
        ensures exists k :: 0 <= k < |meds| && Due(meds[k], currentTime) && r.sent[i] == ReminderFor(meds[k])
      {
        if i < |prev.sent| {
          assert r.sent[i] == prev.sent[i];
          var k :| 0 <= k < |init| && Due(init[k], currentTime) && prev.sent[i] == ReminderFor(init[k]);
          assert init[k] == meds[k];
        } else {
          var k := |meds| - 1;
          assert Due(meds[k], currentTime);
          assert r.sent[i] == ReminderFor(meds[k]);
        }
      }
    }
  }

  /**
   * With permission granted, a due medication whose marker does not already hold the
   * stamp, and which no earlier due medication shares an id with, gets its reminder
   * shown during the check.
   */
  lemma {:induction false} CheckSendsDue(meds: seq<Med>, st: CheckState, currentTime: string, stamp: string, k: int)
    requires 0 <= k < |meds| && Due(meds[k], currentTime)
    requires !(meds[k].id in st.marks && st.marks[meds[k].id] == stamp)
    requires forall j :: 0 <= j < k && Due(meds[j], currentTime) ==> meds[j].id != meds[k].id
    ensures exists i :: |st.sent| <= i < |CheckAll(meds, st, currentTime, stamp, true).sent|
                       && CheckAll(meds, st, currentTime, stamp, true).sent[i] == ReminderFor(meds[k])
  {
    var init := meds[..|meds| - 1];
    assert forall j :: 0 <= j < |init| ==> init[j] == meds[j];
    var prev := CheckAll(init, st, currentTime, stamp, true);
    var r := CheckAll(meds, st, currentTime, stamp, true);
    assert r == CheckOne(meds[|meds| - 1], prev, currentTime, stamp, true);
    CheckMarksDue(init, st, currentTime, stamp, true);
    assert |r.sent| >= |prev.sent| && r.sent[..|prev.sent|] == prev.sent;
    if k < |meds| - 1 {
      assert forall j :: 0 <= j < k && Due(init[j], currentTime) ==> init[j].id != init[k].id;
      CheckSendsDue(init, st, currentTime, stamp, k);
      var i :| |st.sent| <= i < |prev.sent| && prev.sent[i] == ReminderFor(init[k]);
      assert init[k] == meds[k];
      assert r.sent[i] == prev.sent[i];
      assert |st.sent| <= i < |r.sent| && r.sent[i] == ReminderFor(meds[k]);
    } else {
      var id := meds[k].id;
      assert !(id in prev.marks && prev.marks[id] == stamp);
      assert k == |meds| - 1 && |st.sent| <= |prev.sent|;
      assert r.sent == prev.sent + [ReminderFor(meds[k])];
      var i := |prev.sent|;
      assert |st.sent| <= i < |r.sent| && r.sent[i] == ReminderFor(meds[k]);
    }
  }

  // ------------------------------------------------------------------ the page

  /** The state of the medication page. */
  class MedicationTracker {
    var medications: seq<Med>
    var logs: seq<MedLog>
    var storedMeds: Option<seq<Med>>
    var storedLogs: Option<seq<MedLog>>
    var lastNotified: map<string, string>
    var editingId: Option<string>
    var form: MedForm
    var showAddModal: bool
    var expandedMedId: Option<string>

    /** The mount effect: whatever storage holds, or empty lists. */
    constructor (savedMeds: Option<seq<Med>>, savedLogs: Option<seq<MedLog>>, marks: map<string, string>)
      ensures medications == savedMeds.GetOr([]) && logs == savedLogs.GetOr([])
      ensures storedMeds == savedMeds && storedLogs == savedLogs && lastNotified == marks
      ensures editingId == None && form == BlankForm && !showAddModal && expandedMedId == None
    {
      medications := savedMeds.GetOr([]);
      logs := savedLogs.GetOr([]);
      storedMeds := savedMeds;
      storedLogs := savedLogs;
      lastNotified := marks;
      editingId := None;
      form := BlankForm;
      showAddModal := false;
      expandedMedId := None;
    }

    /** `openAddModal`. */
    method OpenAddModal()
      modifies this`editingId, this`form, this`showAddModal
      ensures editingId == None && form == BlankForm && showAddModal
    {
      editingId := None;
      form := BlankForm;
      showAddModal := true;
    }

    /** `openEditModal`. */
    method OpenEditModal(m: Med)
      modifies this`editingId, this`form, this`showAddModal
      ensures editingId == Some(m.id) && form == FormOf(m) && showAddModal
    {
      editingId := Some(m.id);
      form := FormOf(m);
      showAddModal := true;
    }

    /**
     * `handleSaveMedication`, with `granted` the answer to the permission request
     * (asked only when a reminder is wanted) and `now` the time in milliseconds.
     */
    method SaveMedication(granted: bool, now: int)
      modifies this`medications, this`storedMeds, this`editingId, this`form, this`showAddModal
      ensures !Accepts(old(form)) ==>
                medications == old(medications) && storedMeds == old(storedMeds)
                && editingId == old(editingId) && form == old(form) && showAddModal == old(showAddModal)
      ensures Accepts(old(form)) ==>
                medications == SavedMeds(old(medications), old(editingId), old(form), granted, now)
                && storedMeds == Some(medications)
                && editingId == None && form == BlankForm && !showAddModal
    {
      if !Accepts(form) {
        return;
      }
      medications := SavedMeds(medications, editingId, form, granted, now);
      storedMeds := Some(medications);
      showAddModal := false;
      editingId := None;
      form := BlankForm;
    }

    /** `handleDeleteMedication`. */
    method DeleteMed(id: string)
      modifies this`medications, this`storedMeds, this`logs, this`storedLogs
      ensures (medications, logs) == DeleteMedication(old(medications), old(logs), id)
      ensures storedMeds == Some(medications) && storedLogs == Some(logs)
    {
      var r := DeleteMedication(medications, logs, id);
      medications := r.0;
      storedMeds := Some(medications);
      logs := r.1;
      storedLogs := Some(logs);
    }

    /** `toggleTaken`, with `today` the local day key and `now` the time in milliseconds. */
    method ToggleTaken(medId: string, today: string, now: int)
      modifies this`logs, this`storedLogs
      ensures logs == ToggleTakenLogs(old(logs), medId, today, now) && storedLogs == Some(logs)
    {
      logs := ToggleTakenLogs(logs, medId, today, now);
      storedLogs := Some(logs);
    }

    /** `handleTakeAll`: storage is written only when something was added. */
    method TakeAll(today: string, now: int)
      modifies this`logs, this`storedLogs
      ensures logs == TakeAllLogs(old(logs), medications, today, now)
      ensures logs != old(logs) ==> storedLogs == Some(logs)
      ensures logs == old(logs) ==> storedLogs == old(storedLogs)
    {
      var added := CollectNewLogs(medications, logs, today, now);
      if |added| > 0 {
        logs := logs + added;
        storedLogs := Some(logs);
      }
    }

    /** Clicking a card opens its history, or closes it when it is the open one. */
    method ToggleHistory(id: string)
      modifies this`expandedMedId
      ensures expandedMedId == (if old(expandedMedId) == Some(id) then None else Some(id))
    {
      expandedMedId := if expandedMedId == Some(id) then None else Some(id);
    }

    /**
     * One tick of the reminder checker at clock `hour:minute` on the day whose
     * `toDateString()` is `todayDate`; `supported` says whether the browser has
     * notifications at all, `granted` whether they are permitted.
     */
    method CheckReminders(hour: nat, minute: nat, todayDate: string, supported: bool, granted: bool)
      returns (shown: seq<Reminder>)
      modifies this`lastNotified
      ensures !supported ==> shown == [] && lastNotified == old(lastNotified)
      ensures supported ==>
                CheckState(shown, lastNotified)
                  == CheckAll(medications, CheckState([], old(lastNotified)), ClockText(hour, minute), todayDate + ClockText(hour, minute), granted)
    {
      shown := [];
      if !supported {
        return;
      }
      var currentTime := ClockText(hour, minute);
      var stamp := todayDate + currentTime;
      var i := 0;
      while i < |medications|
        invariant 0 <= i <= |medications|
        invariant CheckState(shown, lastNotified)
                    == CheckAll(medications[..i], CheckState([], old(lastNotified)), currentTime, stamp, granted)
      {
        assert medications[..i + 1][..i] == medications[..i];
        var m := medications[i];
        ghost var before := CheckState(shown, lastNotified);
        assert CheckAll(medications[..i + 1], CheckState([], old(lastNotified)), currentTime, stamp, granted)
                 == CheckOne(m, before, currentTime, stamp, granted);
        if m.reminderEnabled && m.time == currentTime {
          if !(m.id in lastNotified && lastNotified[m.id] == stamp) {
            if granted {
              shown := shown + [ReminderFor(m)];
            }
            lastNotified := lastNotified[m.id := stamp];
          }
        }
        assert CheckState(shown, lastNotified) == CheckOne(m, before, currentTime, stamp, granted);
        i := i + 1;
      }
      assert medications[..|medications|] == medications;
    }
  }
}
