/**
 * The pure state transitions of the habit tracker screen: the habit list,
 * the per-day completion lists, and the progress percentage shown for a day.
 */
module HabitTracker {
  import opened JsString

  /** A habit as the screen stores it: an opaque id and its text. */
  datatype Habit = Habit(id: string, text: string)

  /** Day string to the ids of the habits marked done on that day. */
  type Completions = map<string, seq<string>>

  /** `completions[date] || []`: a stored list, even an empty one, is used as is. */
  function DayIds(c: Completions, date: string): seq<string> {
    if date in c then c[date] else []
  }

  predicate HasId(habits: seq<Habit>, id: string) {
    exists k :: 0 <= k < |habits| && habits[k].id == id
  }

  /**
   * `addHabit`: blank input is ignored; otherwise one habit with the given
   * fresh id and the trimmed text is appended at the end.
   */
  function AddHabit(habits: seq<Habit>, text: string, id: string): (r: seq<Habit>)
    ensures AllWhitespace(text) ==> r == habits
    ensures !AllWhitespace(text) ==> |r| == |habits| + 1 && r[..|habits|] == habits
    ensures !AllWhitespace(text) ==> r[|habits|].id == id && r[|habits|].text == Trim(text)
    ensures !AllWhitespace(text) ==> r[|habits|].text != [] && NoOuterWhitespace(r[|habits|].text)
  {
    TrimEmptyIff(text);
    TrimSpec(text);
    if Trim(text) == [] then habits else habits + [Habit(id, Trim(text))]
  }

  /** `deleteHabit`: every habit with that id is dropped, the others keep their order. */
  function DeleteHabit(habits: seq<Habit>, id: string): (r: seq<Habit>)
    ensures forall h :: h in r <==> h in habits && h.id != id
    ensures !HasId(r, id)
    ensures |r| <= |habits|
    ensures !HasId(habits, id) ==> r == habits
  {
    if habits == [] then [] else
      var rest := DeleteHabit(habits[1..], id);
      assert HasId(habits[1..], id) ==> HasId(habits, id) by {
        if HasId(habits[1..], id) {
          var k :| 0 <= k < |habits[1..]| && habits[1..][k].id == id;
          assert habits[k + 1].id == id;
        }
      }
      assert forall h :: h in habits <==> h == habits[0] || h in habits[1..];
      if habits[0].id == id then rest else
        var r := [habits[0]] + rest;
        assert forall k :: 0 < k < |r| ==> r[k] == rest[k - 1];
        r
  }

  /** Deleting distributes over concatenation: the survivors keep their relative order. */
  lemma {:induction false} DeleteHabitConcat(a: seq<Habit>, b: seq<Habit>, id: string)
    ensures DeleteHabit(a + b, id) == DeleteHabit(a, id) + DeleteHabit(b, id)
  {
    if a != [] {
      assert (a + b)[1..] == a[1..] + b;
      DeleteHabitConcat(a[1..], b, id);
    } else {
      assert a + b == b;
    }
  }

  /** Deleting a freshly added habit gives back the list from before the add. */
  lemma {:induction false} DeleteUndoesAdd(habits: seq<Habit>, text: string, id: string)
    requires !HasId(habits, id)
    ensures DeleteHabit(AddHabit(habits, text, id), id) == habits
  {
    if !AllWhitespace(text) {
      DeleteHabitConcat(habits, [Habit(id, Trim(text))], id);
    }
  }

  /** `filter(hid => hid !== id)` on a day's id list. */
  function RemoveAll(ids: seq<string>, id: string): (r: seq<string>)
    ensures multiset(r) == multiset(ids)[id := 0]
    ensures id !in ids ==> r == ids
  {
    if ids == [] then [] else
      var rest := RemoveAll(ids[1..], id);
      assert ids == [ids[0]] + ids[1..];
      if ids[0] == id then rest else [ids[0]] + rest
  }

  lemma {:induction false} RemoveAllConcat(a: seq<string>, b: seq<string>, id: string)
    ensures RemoveAll(a + b, id) == RemoveAll(a, id) + RemoveAll(b, id)
  {
    if a != [] {
      assert (a + b)[1..] == a[1..] + b;
      RemoveAllConcat(a[1..], b, id);
    } else {
      assert a + b == b;
    }
  }

  /**
   * `toggleHabit`: the id is appended to the day's list when absent and
   * every occurrence is removed when present; the day's key is written even
   * when its list becomes empty, and every other day is untouched.
   */
  function ToggleHabit(c: Completions, id: string, date: string): (r: Completions)
    ensures date in r
    ensures forall d :: d != date ==> (d in r <==> d in c)
    ensures forall d :: d in c && d != date ==> r[d] == c[d]
    ensures id in r[date] <==> id !in DayIds(c, date)
    ensures id !in DayIds(c, date) ==> r[date] == DayIds(c, date) + [id]
    ensures id in DayIds(c, date) ==> multiset(r[date]) == multiset(DayIds(c, date))[id := 0]
  {
    var current := DayIds(c, date);
    var next := if id !in current then current + [id] else RemoveAll(current, id);
    assert id !in multiset(RemoveAll(current, id));
    c[date := next]
  }

  /** Toggling twice restores whether the id is done on that day; nothing else changes. */
  lemma {:induction false} ToggleTwiceRestoresMembership(c: Completions, id: string, date: string)
    ensures var c2 := ToggleHabit(ToggleHabit(c, id, date), id, date);
      && (id in DayIds(c2, date) <==> id in DayIds(c, date))
      && (forall d :: d != date ==> (d in c2 <==> d in c))
      && (forall d :: d in c && d != date ==> c2[d] == c[d])
  {
  }

  /** When the id was not done, toggling twice brings back exactly the original day list. */
  lemma {:induction false} ToggleTwiceFromAbsent(c: Completions, id: string, date: string)
    requires id !in DayIds(c, date)
    ensures DayIds(ToggleHabit(ToggleHabit(c, id, date), id, date), date) == DayIds(c, date)
  {
    var xs := DayIds(c, date);
    RemoveAllConcat(xs, [id], id);
    assert RemoveAll([id], id) == [];
  }

  /** When the id was done, toggling twice moves it to the end: the list can change. */
  lemma {:induction false} ToggleTwiceFromPresentReorders()
    ensures var c := map["2026-01-18" := ["a", "b"]];
      DayIds(ToggleHabit(ToggleHabit(c, "a", "2026-01-18"), "a", "2026-01-18"), "2026-01-18") == ["b", "a"]
  {
    var c := map["2026-01-18" := ["a", "b"]];
    var c1 := ToggleHabit(c, "a", "2026-01-18");
    assert RemoveAll(["b"], "a") == ["b"];
    assert c1["2026-01-18"] == ["b"];
  }

  /**
   * `getProgress`: 0 for an empty habit list; otherwise the day's completion
   * count as a percentage of the number of habits, rounded half up.
   */
  function Progress(habits: seq<Habit>, c: Completions, date: string): (r: nat)
    ensures |habits| == 0 ==> r == 0
    ensures |habits| > 0 ==>
      2 * |habits| * r <= 200 * |DayIds(c, date)| + |habits| < 2 * |habits| * (r + 1)
  {
    if |habits| == 0 then 0 else
      var n := |habits|;
      var d := |DayIds(c, date)|;
      (200 * d + n) / (2 * n)
  }

  /** Rounding half up, over the reals: the exact percentage lies in `[r - 1/2, r + 1/2)`. */
  lemma {:induction false} ProgressNearest(habits: seq<Habit>, c: Completions, date: string)
    requires |habits| > 0
    ensures var r := Progress(habits, c, date);
      var n := |habits|;
      var d := |DayIds(c, date)|;
      (r as real) - 0.5 <= 100.0 * (d as real) / (n as real) < (r as real) + 0.5
  {
    HalfUpBounds(Progress(habits, c, date), |habits|, |DayIds(c, date)|);
  }

  /** The integer half-up bounds, read over the reals. */
  lemma {:induction false} HalfUpBounds(r: int, n: int, d: int)
    requires n > 0 && 2 * n * r <= 200 * d + n < 2 * n * (r + 1)
    ensures (r as real) - 0.5 <= 100.0 * (d as real) / (n as real) < (r as real) + 0.5
  {
    var R, N, D := r as real, n as real, d as real;
    var x := 100.0 * D / N;
    var m := n * r;
    assert 2 * m <= 200 * d + n < 2 * m + 2 * n;
    assert 2.0 * (m as real) <= 200.0 * D + N < 2.0 * (m as real) + 2.0 * N;
    CastProduct(n, r);
    DivTimes(100.0 * D, N);
    assert (R - 0.5) * N == N * R - 0.5 * N;
    assert (R + 0.5) * N == N * R + 0.5 * N;
    CancelAtMost(R - 0.5, x, N);
    CancelLess(x, R + 0.5, N);
  }

  /** Converting to a real commutes with multiplication. */
  lemma {:induction false} CastProduct(a: int, b: int)
    ensures (a * b) as real == (a as real) * (b as real)
  {
  }

  /** Real division by a positive number is undone by multiplying back. */
  lemma {:induction false} DivTimes(a: real, n: real)
    requires n > 0.0
    ensures a / n * n == a
  {
  }

  /** Dividing both sides of `a * n <= b * n` by a positive `n`. */
  lemma {:induction false} CancelAtMost(a: real, b: real, n: real)
    requires n > 0.0 && a * n <= b * n
    ensures a <= b
  {
    assert (b - a) * n == b * n - a * n;
  }

  /** Dividing both sides of `a * n < b * n` by a positive `n`. */
  lemma {:induction false} CancelLess(a: real, b: real, n: real)
    requires n > 0.0 && a * n < b * n
    ensures a < b
  {
    assert (b - a) * n == b * n - a * n;
  }

  /** With no more completions than habits the percentage is at most 100. */
  lemma {:induction false} ProgressAtMost100(habits: seq<Habit>, c: Completions, date: string)
    requires |DayIds(c, date)| <= |habits|
    ensures Progress(habits, c, date) <= 100
  {
    if |habits| > 0 {
      var n := |habits|;
      var r := Progress(habits, c, date);
      assert 2 * n * r <= 200 * n + n;
      assert (101 - r) * (2 * n) == 202 * n - 2 * n * r;
      PositiveFactor(101 - r, 2 * n);
    }
  }

  lemma {:induction false} PositiveFactor(a: int, m: nat)
    requires m > 0 && a * m > 0
    ensures a > 0
  {
    if m > 1 {
      assert a * m == a * (m - 1) + a;
      if a * (m - 1) > 0 {
        PositiveFactor(a, m - 1);
      }
    }
  }

  /** Completion ids matching no habit still count, so the percentage can pass 100. */
  lemma {:induction false} ProgressCanExceed100()
    ensures Progress([Habit("1", "Read")], map["2026-01-18" := ["1", "2"]], "2026-01-18") == 200
  {
  }

  /** One habit for the day: 0% before it is toggled, 100% after. */
  lemma {:induction false} ProgressAfterToggle()
    ensures var hs := [Habit("1", "Read")];
      && Progress(hs, map[], "2026-01-18") == 0
      && Progress(hs, ToggleHabit(map[], "1", "2026-01-18"), "2026-01-18") == 100
  {
  }
}
