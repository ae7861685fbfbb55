/**
 * The per-day breakdown the history analysis script builds from an exported
 * user document before handing it to the language model: for each target
 * day, the habits created that day, how many of them are marked done, one
 * line per habit, and the day's note.
 */
module HistoryAnalysis {
  import opened Wrappers

  /** A habit as exported: `createdAt` and `category` may be missing. */
  datatype StoredHabit = StoredHabit(id: string, text: string, createdAt: Option<string>, category: Option<string>)

  /** The exported document; a field that is missing or null is `None`. */
  datatype UserData = UserData(
    habits: Option<seq<StoredHabit>>,
    completions: Option<map<string, seq<string>>>,
    notes: Option<map<string, string>>)

  /** A task line's `status` is one of the two strings the script writes. */
  datatype TaskLine = TaskLine(text: string, status: string, category: string)

  datatype DayReport = DayReport(totalTasks: nat, completedCount: nat, tasks: seq<TaskLine>, note: string)

  /** The TypeError raised when a property of a missing field is read. */
  datatype ScriptError = HabitsMissing | CompletionsMissing | NotesMissing

  const TargetDates: seq<string> := ["2026-01-18", "2026-01-19", "2026-01-20", "2026-01-21"]

  const DefaultCategory: string := "General"

  const Done: string := "DONE"

  const Pending: string := "PENDING"

  /** `h.category || "General"`: a missing or empty category falls back to the default. */
  function CategoryOf(h: StoredHabit): (c: string)
    ensures h.category.Some? && h.category.value != [] ==> c == h.category.value
    ensures h.category.None? || h.category == Some([]) ==> c == DefaultCategory
  {
    match h.category
    case Some(c) => if c == [] then DefaultCategory else c
    case None => DefaultCategory
  }

  /** `notes[date] || ""`. */
  function NoteFor(notes: map<string, string>, date: string): (n: string)
    ensures date !in notes ==> n == []
    ensures date in notes ==> n == notes[date]
  {
    if date in notes && notes[date] != [] then notes[date] else []
  }

  /** `completions[date] || []`. */
  function DayCompletions(completions: map<string, seq<string>>, date: string): seq<string> {
    if date in completions then completions[date] else []
  }

  /** `habits.filter(h => h.createdAt === date)`. */
  function DayHabits(habits: seq<StoredHabit>, date: string): (r: seq<StoredHabit>)
    ensures forall h :: multiset(r)[h] == if h.createdAt == Some(date) then multiset(habits)[h] else 0
    ensures forall k :: 0 <= k < |r| ==> r[k].createdAt == Some(date)
  {
    if habits == [] then [] else
      var rest := DayHabits(habits[1..], date);
      assert habits == [habits[0]] + habits[1..];
      if habits[0].createdAt == Some(date) then [habits[0]] + rest else rest
  }

  /** The day's habits keep their order: filtering distributes over concatenation. */
  lemma {:induction false} DayHabitsConcat(a: seq<StoredHabit>, b: seq<StoredHabit>, date: string)
    ensures DayHabits(a + b, date) == DayHabits(a, date) + DayHabits(b, date)
  {
    if a != [] {
      var ab := a + b;
      assert ab[0] == a[0];
      assert ab[1..] == a[1..] + b;
      DayHabitsConcat(a[1..], b, date);
      var rest := DayHabits(a[1..], date) + DayHabits(b, date);
      if a[0].createdAt == Some(date) {
        assert DayHabits(ab, date) == [a[0]] + rest;
        assert DayHabits(a, date) == [a[0]] + DayHabits(a[1..], date);
        assert [a[0]] + rest == ([a[0]] + DayHabits(a[1..], date)) + DayHabits(b, date);
      } else {
        assert DayHabits(ab, date) == rest;
        assert DayHabits(a, date) == DayHabits(a[1..], date);
      }
    } else {
      assert a + b == b;
    }
  }

  /** `dayHabits.filter(h => dayCompletions.includes(h.id)).length`. */
  function CountCompleted(dayHabits: seq<StoredHabit>, ids: seq<string>): (n: nat)
    ensures n <= |dayHabits|
  {
    if dayHabits == [] then 0 else
      (if dayHabits[0].id in ids then 1 else 0) + CountCompleted(dayHabits[1..], ids)
  }

  /** `dayHabits.map(h => ({text, status, category}))`. */
  function Tasks(dayHabits: seq<StoredHabit>, ids: seq<string>): (ts: seq<TaskLine>)
    ensures |ts| == |dayHabits|
    ensures forall k :: 0 <= k < |ts| ==>
      && ts[k].text == dayHabits[k].text
      && (ts[k].status == Done || ts[k].status == Pending)
      && (ts[k].status == Done <==> dayHabits[k].id in ids)
      && ts[k].category == CategoryOf(dayHabits[k])
  {
    if dayHabits == [] then [] else
      var h := dayHabits[0];
      var rest := Tasks(dayHabits[1..], ids);
      var ts := [TaskLine(h.text, if h.id in ids then Done else Pending, CategoryOf(h))] + rest;
      assert forall k :: 1 <= k < |ts| ==> ts[k] == rest[k - 1] && dayHabits[k] == dayHabits[1..][k - 1];
      ts
  }

  function CountDone(ts: seq<TaskLine>): nat {
    if ts == [] then 0 else (if ts[0].status == Done then 1 else 0) + CountDone(ts[1..])
  }

  /** The completed count and the DONE lines of the task list always agree. */
  lemma {:induction false} CompletedMatchesDoneLines(dayHabits: seq<StoredHabit>, ids: seq<string>)
    ensures CountCompleted(dayHabits, ids) == CountDone(Tasks(dayHabits, ids))
  {
    if dayHabits != [] {
      CompletedMatchesDoneLines(dayHabits[1..], ids);
      assert Tasks(dayHabits, ids)[1..] == Tasks(dayHabits[1..], ids);
    }
  }

  /** Only ids of the listed habits count: any id none of them has can be added without effect. */
  lemma {:induction false} ForeignIdsIgnored(dayHabits: seq<StoredHabit>, ids: seq<string>, x: string)
    requires forall k :: 0 <= k < |dayHabits| ==> dayHabits[k].id != x
    ensures CountCompleted(dayHabits, ids + [x]) == CountCompleted(dayHabits, ids)
  {
    if dayHabits != [] {
      ForeignIdsIgnored(dayHabits[1..], ids, x);
    }
  }

  /** The entry for one day. */
  function Report(habits: seq<StoredHabit>, completions: map<string, seq<string>>, notes: map<string, string>, date: string): (r: DayReport)
    ensures r.totalTasks == |DayHabits(habits, date)| && |r.tasks| == r.totalTasks
    ensures r.completedCount <= r.totalTasks
    ensures r.completedCount == CountDone(r.tasks)
    ensures forall k :: 0 <= k < |r.tasks| ==>
      (r.tasks[k].status == Done <==> DayHabits(habits, date)[k].id in DayCompletions(completions, date))
    ensures r.note == NoteFor(notes, date)
  {
    var dayHabits := DayHabits(habits, date);
    var ids := DayCompletions(completions, date);
    CompletedMatchesDoneLines(dayHabits, ids);
    DayReport(|dayHabits|, CountCompleted(dayHabits, ids), Tasks(dayHabits, ids), NoteFor(notes, date))
  }

  /**
   * `dailyBreakdown` over the given dates. Reading a property of a missing
   * `habits`, `completions` or `notes` field throws, in that order, as soon
   * as there is a date to process.
   */
  function DailyBreakdown(data: UserData, dates: seq<string>): (r: Result<map<string, DayReport>, ScriptError>)
    ensures dates == [] ==> r == Success(map[])
    ensures dates != [] && data.habits.None? ==> r == Failure(HabitsMissing)
    ensures dates != [] && data.habits.Some? && data.completions.None? ==> r == Failure(CompletionsMissing)
    ensures dates != [] && data.habits.Some? && data.completions.Some? && data.notes.None? ==> r == Failure(NotesMissing)
    ensures data.habits.Some? && data.completions.Some? && data.notes.Some? ==>
      && r.Success?
      && (forall d :: d in r.value <==> d in dates)
      && (forall d :: d in r.value ==> r.value[d] == Report(data.habits.value, data.completions.value, data.notes.value, d))
  {
    if dates == [] then Success(map[])
    else if data.habits.None? then Failure(HabitsMissing)
    else if data.completions.None? then Failure(CompletionsMissing)
    else if data.notes.None? then Failure(NotesMissing)
    else Success(map d | d in dates :: Report(data.habits.value, data.completions.value, data.notes.value, d))
  }

  /** The script's own run: one entry per target date and no other key. */
  lemma {:induction false} TargetBreakdownKeys(data: UserData)
    requires data.habits.Some? && data.completions.Some? && data.notes.Some?
    ensures DailyBreakdown(data, TargetDates).Success?
    ensures DailyBreakdown(data, TargetDates).value.Keys == {"2026-01-18", "2026-01-19", "2026-01-20", "2026-01-21"}
  {
    var r := DailyBreakdown(data, TargetDates).value;
    assert forall d :: d in TargetDates <==> d in {"2026-01-18", "2026-01-19", "2026-01-20", "2026-01-21"};
  }
}
