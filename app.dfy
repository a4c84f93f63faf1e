/** The `App` controller with the map, the DOM and the storage calls taken
    out: what each user action does to the workout collection, to the
    editing state and to the stored payload. */
module Controller {
  import opened Numbers
  import opened Workouts
  import opened Validation
  import opened Storage
  import opened Collection

  /** The form as the submit handler reads it: the type selector's value and
      the four numeric fields after `+input.value`. */
  datatype Form = Form(kind: string, distance: Num, duration: Num, cadence: Num, elevation: Num)

  /** The form passes the check the running branch applies. */
  predicate RunningForm(form: Form)
  {
    form.kind == "running" && RunningAccepted(form.distance, form.duration, form.cadence)
  }

  /** The form passes the check the cycling branch applies. */
  predicate CyclingForm(form: Form)
  {
    form.kind == "cycling" && CyclingAccepted(form.distance, form.duration, form.elevation)
  }

  /** The `workout` variable of `_newWorkout` when it reaches the push: a
      new workout created at `now` with the fresh id `id`, placed at
      `coords`, or `undefined` when the form was rejected. */
  function Built(form: Form, coords: Coords, id: string, now: Date): (r: Option<Workout>)
    ensures r.Some? <==> RunningForm(form) || CyclingForm(form)
    ensures r.Some? ==>
              && WellFormed(r.value)
              && Tag(r.value.kind) == form.kind
              && r.value.id == id && r.value.date == now && r.value.clicks == 0
              && r.value.coords == coords
              && r.value.distance == form.distance.value > 0.0
              && r.value.duration == form.duration.value > 0.0
              && r.value.description == Describe(r.value.kind, now)
    ensures RunningForm(form) ==>
              && r.value.cadence == Some(form.cadence.value)
              && r.value.pace == Some(Finite(r.value.duration / r.value.distance))
    ensures CyclingForm(form) ==>
              && r.value.elevation == Some(form.elevation.value)
              && r.value.speed == Some(Finite(r.value.distance / (r.value.duration / 60.0)))
    ensures RunningForm(form) ==> r.value.elevation == None
    ensures CyclingForm(form) ==> r.value.cadence == None
  {
    if form.kind == "running" then
      if RunningAccepted(form.distance, form.duration, form.cadence) then
        Some(NewRunning(form.distance.value, form.duration.value, coords,
                        Some(form.cadence.value), id, now))
      else None
    else if form.kind == "cycling" then
      if CyclingAccepted(form.distance, form.duration, form.elevation) then
        Some(NewCycling(form.distance.value, form.duration.value, coords,
                        Some(form.elevation.value), id, now))
      else None
    else None
  }

  /** The worked cases of the validation rule: a zero distance, a zero
      duration or a negative cadence rejects a run; 5 km, 30 min and
      cadence 150 make a run with pace 6; a cycling form with elevation
      -50 is accepted and gives speed 15. */
  lemma CreateExamples(coords: Coords, id: string, now: Date)
    ensures Built(Form("running", Finite(0.0), Finite(30.0), Finite(150.0), NaN), coords, id, now).None?
    ensures Built(Form("running", Finite(5.0), Finite(0.0), Finite(150.0), NaN), coords, id, now).None?
    ensures Built(Form("running", Finite(5.0), Finite(30.0), Finite(-1.0), NaN), coords, id, now).None?
    ensures Built(Form("running", Finite(5.0), Finite(30.0), Finite(150.0), NaN), coords, id, now).value.pace
              == Some(Finite(6.0))
    ensures Built(Form("cycling", Finite(10.0), Finite(40.0), NaN, Finite(-50.0)), coords, id, now).value.speed
              == Some(Finite(15.0))
  {
  }

  /** `_approveEditedWorkouts` applied to the workout `w` being edited: the
      branch is chosen by the form's type, not by `w`'s, and on success it
      overwrites distance, duration and the form's metric only; pace, speed
      and description are not recomputed. A rejected form leaves `w` as it
      was. */
  function Edited(w: Workout, form: Form): (r: Workout)
    ensures r.kind == w.kind && r.id == w.id && r.date == w.date && r.clicks == w.clicks
    ensures r.coords == w.coords && r.description == w.description && r.symbol == w.symbol
    ensures r.pace == w.pace && r.speed == w.speed
    ensures WellFormed(w) ==> WellFormed(r)
    ensures RunningForm(form) ==>
              && r.distance == form.distance.value && r.duration == form.duration.value
              && r.cadence == Some(form.cadence.value) && r.elevation == w.elevation
    ensures CyclingForm(form) ==>
              && r.distance == form.distance.value && r.duration == form.duration.value
              && r.elevation == Some(form.elevation.value) && r.cadence == w.cadence
    ensures !RunningForm(form) && !CyclingForm(form) ==> r == w
  {
    if RunningForm(form) then
      w.(distance := form.distance.value, duration := form.duration.value,
         cadence := Some(form.cadence.value))
    else if CyclingForm(form) then
      w.(distance := form.distance.value, duration := form.duration.value,
         elevation := Some(form.elevation.value))
    else w
  }

  /** After an accepted edit that changes the ratio of duration to distance,
      a running workout's stored pace no longer matches its values. */
  lemma EditLeavesPaceStale(w: Workout, form: Form)
    requires w.kind == Running && w.distance != 0.0
    requires w.pace == Some(Finite(w.duration / w.distance))
    requires RunningForm(form)
    requires form.duration.value / form.distance.value != w.duration / w.distance
    ensures var r := Edited(w, form); r.pace != Some(Finite(r.duration / r.distance))
  {
  }

  /** A reload repairs the stale pace of an edited running workout: the
      restored workout's pace is the edited duration over the edited
      distance, since restore recomputes it from the stored values. */
  lemma ReloadRefreshesStalePace(w: Workout, form: Form, now: Date)
    requires w.kind == Running && RunningForm(form)
    ensures var r := RestoreRecord(ToRecord(Edited(w, form)), now);
      && r.Some?
      && r.value.pace == Some(Finite(form.duration.value / form.distance.value))
  {
    var e := Edited(w, form);
    assert Tag(e.kind) == "running";
    var q := Quotient(e.duration, e.distance);
    assert q.value * e.distance == e.duration;
  }

  /** The collection after an edit of the workout with the id `id`: the
      first entry with that id is edited (the object the edit form was
      opened on); when none is left (it was deleted meanwhile), the edited
      object is no longer in the collection, which stays as it was. */
  function EditById(ws: seq<Option<Workout>>, id: string, form: Form): (r: seq<Option<Workout>>)
    ensures |r| == |ws|
    ensures forall j :: 0 <= j < |ws| ==> (r[j].Some? <==> ws[j].Some?)
    ensures forall j :: 0 <= j < |ws| && ws[j].Some? ==> r[j].value.id == ws[j].value.id
    ensures Find(ws, id).Found? ==>
              var i := Find(ws, id).index;
              && r[i] == Some(Edited(ws[i].value, form))
              && forall j :: 0 <= j < |ws| && j != i ==> r[j] == ws[j]
    ensures !Find(ws, id).Found? ==> r == ws
  {
    match Find(ws, id)
    case Found(i) => ws[i := Some(Edited(ws[i].value, form))]
    case _ => ws
  }

  /** An edit keeps every workout well formed and changes what `find`
      returns for no id. */
  lemma EditByIdKeepsShape(ws: seq<Option<Workout>>, id: string, form: Form)
    requires forall j :: 0 <= j < |ws| && ws[j].Some? ==> WellFormed(ws[j].value)
    ensures var r := EditById(ws, id, form);
      && (forall j :: 0 <= j < |r| && r[j].Some? ==> WellFormed(r[j].value))
      && forall x :: Find(r, x) == Find(ws, x)
  {
    var found := Find(ws, id);
    if found.Found? {
      var i := found.index;
      forall x ensures Find(EditById(ws, id, form), x) == Find(ws, x) {
        FindAfterReplace(ws, i, Edited(ws[i].value, form), x);
      }
    }
  }

  /** A delete keeps every workout well formed, and `find` never throws on
      what it leaves. */
  lemma WithoutIdKeepsShape(ws: seq<Option<Workout>>, id: string)
    requires AllPresent(ws)
    requires forall j :: 0 <= j < |ws| && ws[j].Some? ==> WellFormed(ws[j].value)
    ensures var r := WithoutId(ws, id);
      && (forall j :: 0 <= j < |r| && r[j].Some? ==> WellFormed(r[j].value))
      && forall x :: !Find(r, x).Crash?
  {
    var r := WithoutId(ws, id);
    forall j | 0 <= j < |r| && r[j].Some?
      ensures WellFormed(r[j].value)
    {
      assert r[j] in ws;
    }
    forall x
      ensures !Find(r, x).Crash?
    {
      FindInPresent(r, x);
    }
  }

  /** The controller's state. The edit form's `#edittingWorkout` reference
      is kept as the id of the workout it was opened on (see `Valid`). */
  class App {
    /** `#workouts`; `None` entries are `undefined` workouts. */
    var workouts: seq<Option<Workout>>
    /** `#edittingMode` */
    var editing: bool
    /** The id of `#edittingWorkout`, `None` while it is `undefined`. */
    var editTarget: Option<string>
    /** The 'workouts' storage key: `None` while it is unset. */
    var storage: Option<seq<Option<Record>>>

    /** Every defined workout keeps its shape, and an edit target exists
        only in editing mode and is reached by `find` without a throw. */
    ghost predicate Valid()
      reads this
    {
      && (forall i :: 0 <= i < |workouts| && workouts[i].Some? ==> WellFormed(workouts[i].value))
      && (editTarget.Some? ==> editing && !Find(workouts, editTarget.value).Crash?)
    }

    /** `new App()` with the storage holding `stored` and the clock reading
        `now`: an empty collection, not editing, then `_getLocalStorage`. */
    constructor (stored: Option<seq<Option<Record>>>, now: Date)
      ensures Valid()
      ensures storage == stored && !editing && editTarget == None
      ensures workouts == match Restored(stored, now) case Some(ws) => ws case None => []
    {
      workouts := [];
      editing := false;
      editTarget := None;
      storage := stored;
      new;
      LoadStorage(now);
    }

    /** `_setLocalStorage`: the whole collection replaces the stored payload. */
    method Save()
      modifies this`storage
      ensures storage == Some(Serialise(workouts))
    {
      storage := Some(Serialise(workouts));
    }

    /** `_getLocalStorage`: installs the restored collection, or leaves the
        collection as it was when nothing is stored or a stored entry is
        `null`. */
    method LoadStorage(now: Date)
      requires Valid() && editTarget == None
      modifies this`workouts
      ensures Valid()
      ensures workouts == match Restored(storage, now) case Some(ws) => ws case None => old(workouts)
    {
      var restored := Restored(storage, now);
      if restored.Some? {
        workouts := restored.value;
      }
    }

    /** `_newWorkout`: the collection always grows by one entry, the new
        workout or `undefined` when the form is rejected. Only an accepted
        form reaches the save; a rejected one throws in the marker
        rendering first. */
    method NewWorkout(form: Form, coords: Coords, id: string, now: Date)
      requires Valid() && !editing
      modifies this`workouts, this`storage
      ensures Valid()
      ensures workouts == old(workouts) + [Built(form, coords, id, now)]
      ensures |workouts| == |old(workouts)| + 1
      ensures workouts[|workouts| - 1].None? <==> !RunningForm(form) && !CyclingForm(form)
      ensures storage == if workouts[|workouts| - 1].Some? then Some(Serialise(workouts))
                         else old(storage)
    {
      var workout := Built(form, coords, id, now);
      workouts := workouts + [workout];
      if workout.Some? {
        Save();
      }
    }

    /** `_editWorkout`: switches editing mode on for good and points the edit
        form at the workout `find` returns; when `find` throws, the previous
        target stays. */
    method BeginEdit(id: string)
      requires Valid()
      modifies this`editing, this`editTarget
      ensures Valid()
      ensures editing
      ensures editTarget == match Find(workouts, id)
                           case Found(_) => Some(id)
                           case Missing => None
                           case Crash => old(editTarget)
    {
      editing := true;
      var found := Find(workouts, id);
      match found
      case Found(_) => editTarget := Some(id);
      case Missing => editTarget := None;
      case Crash =>
    }

    /** `_approveEditedWorkouts`: edits the target in place and saves. With
        no target, reading its fields throws and nothing changes. The target
        is either the first entry with its id or gone from the collection:
        looking it up never throws. */
    method ApproveEdit(form: Form)
      requires Valid() && editing
      modifies this`workouts, this`storage
      ensures Valid()
      ensures editTarget.None? ==> workouts == old(workouts) && storage == old(storage)
      ensures editTarget.Some? ==> !Find(old(workouts), editTarget.value).Crash?
      ensures editTarget.Some? ==>
                && workouts == EditById(old(workouts), editTarget.value, form)
                && storage == Some(Serialise(workouts))
    {
      if editTarget.None? {
        return;
      }
      var edited := EditById(workouts, editTarget.value, form);
      EditByIdKeepsShape(workouts, editTarget.value, form);
      assert Find(edited, editTarget.value) == Find(workouts, editTarget.value);
      workouts := edited;
      assert Valid();
      Save();
    }

    /** The form's submit handler: while editing mode is on (and it is never
        switched off) every submit is an edit, so the collection no longer
        grows. */
    method Submit(form: Form, coords: Coords, id: string, now: Date)
      requires Valid()
      modifies this`workouts, this`storage
      ensures Valid()
      ensures !editing ==> workouts == old(workouts) + [Built(form, coords, id, now)]
      ensures !editing ==> storage == if Built(form, coords, id, now).Some? then Some(Serialise(workouts))
                                      else old(storage)
      ensures editing && editTarget.Some? ==>
                && workouts == EditById(old(workouts), editTarget.value, form)
                && storage == Some(Serialise(workouts))
      ensures editing && editTarget.None? ==> workouts == old(workouts) && storage == old(storage)
      ensures editing ==> |workouts| == |old(workouts)|
    {
      if editing {
        ApproveEdit(form);
      } else {
        NewWorkout(form, coords, id, now);
      }
    }

    /** `_deleteWorkout` for a click on the entry carrying `id`: when `find`
        reaches that workout and no entry is `undefined`, every workout with
        its id is removed and the rest saved in order; otherwise `find`,
        the `workout.id` read or `filter` throws and nothing changes. */
    method Delete(id: string)
      requires Valid()
      modifies this`workouts, this`storage
      ensures Valid()
      ensures old(Find(workouts, id)).Found? && AllPresent(old(workouts)) ==>
                workouts == WithoutId(old(workouts), id) && storage == Some(Serialise(workouts))
      ensures !(old(Find(workouts, id)).Found? && AllPresent(old(workouts))) ==>
                workouts == old(workouts) && storage == old(storage)
    {
      var found := Find(workouts, id);
      if found.Found? && AllPresent(workouts) {
        var kept := WithoutId(workouts, id);
        WithoutIdKeepsShape(workouts, id);
        workouts := kept;
        assert Valid();
        Save();
      }
    }
  }
}
