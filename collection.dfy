/** The two list operations the controller runs over `#workouts`:
    `find` by id (`_getClickedWorkout`) and `filter` by id
    (`_deleteWorkout`). Both call `w.id` on every entry they visit, so an
    `undefined` entry makes them throw. */
module Collection {
  import opened Numbers
  import opened Workouts

  /** The outcome of `workouts.find(w => w.id === id)`: the index of the
      first match, no match (`undefined`), or a TypeError thrown on reaching
      an `undefined` entry first. */
  datatype Lookup = Found(index: nat) | Missing | Crash

  /** The first `n` entries are defined and none has the id `id`. */
  predicate Passes(ws: seq<Option<Workout>>, n: nat, id: string)
    requires n <= |ws|
  {
    forall j :: 0 <= j < n ==> ws[j].Some? && ws[j].value.id != id
  }

  /** `_getClickedWorkout` for a click on the entry carrying `id` (a click
      outside every entry behaves as an id no workout has). */
  function Find(ws: seq<Option<Workout>>, id: string): (r: Lookup)
    ensures r.Found? ==> r.index < |ws| && ws[r.index].Some? && ws[r.index].value.id == id
                         && Passes(ws, r.index, id)
    ensures r.Missing? <==> Passes(ws, |ws|, id)
    ensures r.Crash? <==> exists j :: 0 <= j < |ws| && ws[j].None? && Passes(ws, j, id)
  {
    if ws == [] then Missing
    else if ws[0].None? then Crash
    else if ws[0].value.id == id then Found(0)
    else
      match Find(ws[1..], id)
      case Found(i) => Found(i + 1)
      case other => other
  }

  /** A list without `undefined` entries never makes `find` throw. */
  lemma FindInPresent(ws: seq<Option<Workout>>, id: string)
    requires AllPresent(ws)
    ensures !Find(ws, id).Crash?
  {
  }

  /** Overwriting a defined entry with a workout of the same id changes what
      `find` returns for no id. */
  lemma {:induction false} FindAfterReplace(ws: seq<Option<Workout>>, i: nat, w: Workout, id: string)
    requires i < |ws| && ws[i].Some? && ws[i].value.id == w.id
    ensures Find(ws[i := Some(w)], id) == Find(ws, id)
  {
    var ws' := ws[i := Some(w)];
    if i > 0 {
      assert ws'[0] == ws[0];
      assert ws'[1..] == ws[1..][i - 1 := Some(w)];
      FindAfterReplace(ws[1..], i - 1, w, id);
    } else {
      assert ws'[0].value.id == ws[0].value.id;
      assert ws'[1..] == ws[1..];
    }
  }

  /** The number of defined entries with the id `id`. */
  function CountId(ws: seq<Option<Workout>>, id: string): (n: nat)
    ensures n <= |ws|
    ensures n == 0 <==> forall j :: 0 <= j < |ws| && ws[j].Some? ==> ws[j].value.id != id
  {
    if ws == [] then 0
    else (if ws[0].Some? && ws[0].value.id == id then 1 else 0) + CountId(ws[1..], id)
  }

  /** `workouts.filter(w => w.id !== id)` on a list without `undefined`
      entries: every entry with the id goes, every other stays, and the
      length drops by the number removed. */
  function WithoutId(ws: seq<Option<Workout>>, id: string): (r: seq<Option<Workout>>)
    requires AllPresent(ws)
    ensures AllPresent(r)
    ensures forall j :: 0 <= j < |r| ==> r[j].value.id != id
    ensures forall e :: e in r <==> e in ws && e.value.id != id
    ensures |r| == |ws| - CountId(ws, id)
    ensures CountId(ws, id) == 0 ==> r == ws
  {
    if ws == [] then []
    else (if ws[0].value.id == id then [] else [ws[0]]) + WithoutId(ws[1..], id)
  }

  /** `filter` keeps the surviving entries in their original order: it
      works piecewise on any split of the list. */
  lemma {:induction false} WithoutIdSplit(a: seq<Option<Workout>>, b: seq<Option<Workout>>, id: string)
    requires AllPresent(a) && AllPresent(b)
    ensures AllPresent(a + b)
    ensures WithoutId(a + b, id) == WithoutId(a, id) + WithoutId(b, id)
  {
    if a != [] {
      assert (a + b)[1..] == a[1..] + b;
      WithoutIdSplit(a[1..], b, id);
    } else {
      assert a + b == b;
    }
  }

  /** Deleting twice by the same id removes nothing the first time left. */
  lemma WithoutIdIdempotent(ws: seq<Option<Workout>>, id: string)
    requires AllPresent(ws)
    ensures WithoutId(WithoutId(ws, id), id) == WithoutId(ws, id)
  {
    var r := WithoutId(ws, id);
    assert CountId(r, id) == 0;
  }
}
