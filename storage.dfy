/** The persisted form of the collection: the plain records that
    `JSON.stringify` writes under the 'workouts' key, and their
    reconstruction into workouts by `_getLocalStorage`. */
module Storage {
  import opened Numbers
  import opened Workouts

  /** The plain object a workout becomes once serialised and parsed back:
      the same fields, with the `type` tag as free text. A stored entry may
      also be `null` (an `undefined` workout), modelled as `None`. */
  datatype Record = Record(
    tag: string,
    id: string,
    date: Date,
    clicks: int,
    distance: real,
    duration: real,
    coords: Coords,
    cadence: Option<real>,
    elevation: Option<real>,
    pace: Option<Num>,
    speed: Option<Num>,
    description: string,
    symbol: string)

  /** The record of one workout, derived fields carried verbatim. */
  function ToRecord(w: Workout): Record
  {
    Record(Tag(w.kind), w.id, w.date, w.clicks, w.distance, w.duration, w.coords,
           w.cadence, w.elevation, w.pace, w.speed, w.description, w.symbol)
  }

  /** `_setLocalStorage`'s payload: one entry per workout, in order, with
      `null` where the collection holds `undefined`. */
  function Serialise(ws: seq<Option<Workout>>): (data: seq<Option<Record>>)
    ensures |data| == |ws|
    ensures forall i :: 0 <= i < |ws| ==>
              data[i] == if ws[i].Some? then Some(ToRecord(ws[i].value)) else None
  {
    if ws == [] then []
    else [if ws[0].Some? then Some(ToRecord(ws[0].value)) else None] + Serialise(ws[1..])
  }

  /** The callback of `data.map` in `_getLocalStorage` for one (non-null)
      record: the constructor its tag names, run at `now` with the stored
      distance, duration, coords and metric, then the stored id, clicks and
      date written over the fresh ones. Any other tag yields `undefined`. */
  function RestoreRecord(rec: Record, now: Date): (r: Option<Workout>)
    ensures r.Some? <==> rec.tag == "running" || rec.tag == "cycling"
    ensures r.Some? ==>
              && WellFormed(r.value)
              && Tag(r.value.kind) == rec.tag
              && r.value.id == rec.id && r.value.clicks == rec.clicks && r.value.date == rec.date
              && r.value.distance == rec.distance && r.value.duration == rec.duration
              && r.value.coords == rec.coords
              && (r.value.kind == Running ==> r.value.cadence == rec.cadence)
              && (r.value.kind == Cycling ==> r.value.elevation == rec.elevation)
              && r.value.description == Describe(r.value.kind, now)
              && r.value.symbol == SymbolOf(rec.tag)
    ensures r.Some? && r.value.kind == Running ==>
              && r.value.pace == Some(Quotient(rec.duration, rec.distance))
              && r.value.speed == None && r.value.elevation == None
    ensures r.Some? && r.value.kind == Cycling ==>
              && r.value.speed == Some(Quotient(rec.distance, rec.duration / 60.0))
              && r.value.pace == None && r.value.cadence == None
  {
    if rec.tag == "running" then
      Some(NewRunning(rec.distance, rec.duration, rec.coords, rec.cadence, rec.id, now)
             .(clicks := rec.clicks, date := rec.date))
    else if rec.tag == "cycling" then
      Some(NewCycling(rec.distance, rec.duration, rec.coords, rec.elevation, rec.id, now)
             .(clicks := rec.clicks, date := rec.date))
    else None
  }

  /** `data.map(...)` over a payload without `null` entries. */
  function RestoreAll(data: seq<Option<Record>>, now: Date): (ws: seq<Option<Workout>>)
    requires AllPresent(data)
    ensures |ws| == |data|
    ensures forall i :: 0 <= i < |ws| ==> ws[i] == RestoreRecord(data[i].value, now)
  {
    if data == [] then []
    else [RestoreRecord(data[0].value, now)] + RestoreAll(data[1..], now)
  }

  /** The collection `_getLocalStorage` installs, or `None` when it leaves
      the collection as it was: no stored payload (`if (!data) return;`),
      or a `null` entry, on which the `w.type` read throws before the
      assignment. */
  function Restored(stored: Option<seq<Option<Record>>>, now: Date): (r: Option<seq<Option<Workout>>>)
    ensures r.Some? <==> stored.Some? && AllPresent(stored.value)
    ensures r.Some? ==> |r.value| == |stored.value|
    ensures r.Some? ==> forall i :: 0 <= i < |r.value| ==>
              (r.value[i].Some? <==> stored.value[i].value.tag in {"running", "cycling"})
    ensures r.Some? ==> r.value == RestoreAll(stored.value, now)
  {
    match stored
    case None => None
    case Some(data) => if AllPresent(data) then Some(RestoreAll(data, now)) else None
  }

  /** Saving a collection without `undefined` entries and restoring it gives
      back a collection of the same length in which every workout keeps its
      kind, id, clicks, date, distance, duration, coords and metric; its
      pace or speed is recomputed and its description is made at `now`. */
  lemma RoundTrip(ws: seq<Option<Workout>>, now: Date)
    requires AllPresent(ws)
    ensures Restored(Some(Serialise(ws)), now).Some?
    ensures var back := Restored(Some(Serialise(ws)), now).value;
      && |back| == |ws|
      && forall i :: 0 <= i < |ws| ==> SameInputs(back[i], ws[i].value)
  {
    var data := Serialise(ws);
    assert AllPresent(data);
    var back := RestoreAll(data, now);
    forall i | 0 <= i < |ws|
      ensures SameInputs(back[i], ws[i].value)
    {
      var w := ws[i].value;
      assert data[i] == Some(ToRecord(w));
      assert Tag(w.kind) == "running" || Tag(w.kind) == "cycling";
    }
  }

  /** `restored` is a workout with the kind, identity and entered values of
      `w`. */
  predicate SameInputs(restored: Option<Workout>, w: Workout)
  {
    && restored.Some?
    && restored.value.kind == w.kind
    && restored.value.id == w.id
    && restored.value.clicks == w.clicks
    && restored.value.date == w.date
    && restored.value.distance == w.distance
    && restored.value.duration == w.duration
    && restored.value.coords == w.coords
    && (w.kind == Running ==> restored.value.cadence == w.cadence)
    && (w.kind == Cycling ==> restored.value.elevation == w.elevation)
  }

  /** One `undefined` entry anywhere in a saved collection makes the next
      restore throw, so nothing of the saved collection comes back. */
  lemma AbsentEntryBlocksRestore(ws: seq<Option<Workout>>, now: Date, k: nat)
    requires k < |ws| && ws[k].None?
    ensures Restored(Some(Serialise(ws)), now).None?
  {
    assert Serialise(ws)[k].None?;
  }

  /** A restored workout's description is dated at the reload, not at the
      stored date: whenever the two fall on different calendar days, the
      restored description differs from the one the workout was saved
      with. */
  lemma RestoredDescriptionUsesReloadDate(w: Workout, now: Date)
    requires WellFormed(w) && w.description == Describe(w.kind, w.date)
    requires now.day != w.date.day || now.month != w.date.month
    ensures RestoreRecord(ToRecord(w), now).Some?
    ensures RestoreRecord(ToRecord(w), now).value.description != w.description
  {
    var r := RestoreRecord(ToRecord(w), now).value;
    assert r.kind == w.kind by {
      assert Tag(r.kind) == Tag(w.kind);
    }
    if r.description == w.description {
      DescribeInjective(w.kind, now, w.kind, w.date);
    }
  }
}
