/** The workout entities: the `Workout` base with its `Running` and
    `Cycling` variants, their derived pace or speed, the description label
    and the symbol. */
module Workouts {
  import opened Numbers

  datatype Kind = Running | Cycling

  /** The `type` field of each variant. */
  function Tag(kind: Kind): (tag: string)
    ensures tag == "running" || tag == "cycling"
    ensures tag == "running" <==> kind == Running
  {
    match kind
    case Running => "running"
    case Cycling => "cycling"
  }

  /** The result of `Date.prototype.getMonth()`. */
  type MonthIndex = m: int | 0 <= m < 12

  /** The result of `Date.prototype.getDate()`. */
  type DayOfMonth = d: int | 1 <= d <= 31 witness 1

  /** A `Date`: the instant (milliseconds since the epoch) together with the
      local calendar month and day the host derives from it. */
  datatype Date = Date(time: int, month: MonthIndex, day: DayOfMonth)

  /** A map position `[lat, lng]`. */
  datatype Coords = Coords(lat: real, lng: real)

  /** A workout object. `cadence` and `elevation` are `None` while the object
      has no such property; `pace` is present on running workouts and
      `speed` on cycling ones. `symbol` is the source's `sympol`. */
  datatype Workout = Workout(
    kind: Kind,
    id: string,
    date: Date,
    clicks: int,
    distance: real,
    duration: real,
    coords: Coords,
    cadence: Option<real>,
    elevation: Option<real>,
    pace: Option<Num>,
    speed: Option<Num>,
    description: string,
    symbol: string)

  const Months: seq<string> := [
    "January", "February", "March", "April", "May", "June", "July",
    "August", "September", "October", "November", "December"]

  /** U+1F3C3 U+200D U+2642 U+FE0F, the man-running emoji. */
  const RunnerGlyph: string := "\U{1F3C3}\U{200D}\U{2642}\U{FE0F}"

  /** U+1F6B4, the person-biking emoji. */
  const CyclistGlyph: string := "\U{1F6B4}"

  // ---------------------------------------------------------------------
  // Text helpers

  predicate IsDigit(c: char)
  {
    '0' <= c <= '9'
  }

  predicate AllDigits(s: string)
  {
    forall i :: 0 <= i < |s| ==> IsDigit(s[i])
  }

  /** `String.prototype.toUpperCase` on the ASCII letters the type tags use. */
  function UpperAscii(c: char): char
  {
    if 'a' <= c <= 'z' then (c as int - 32) as char else c
  }

  /** `word[0].toUpperCase() + word.slice(1)` */
  function Capitalised(word: string): string
    requires |word| > 0
  {
    [UpperAscii(word[0])] + word[1..]
  }

  /** The decimal text a template literal gives a non-negative integer. */
  function DecimalText(n: nat): (s: string)
    ensures |s| > 0 && AllDigits(s)
    ensures n < 10 <==> |s| == 1
  {
    if n < 10 then ['0' + n as char]
    else DecimalText(n / 10) + ['0' + (n % 10) as char]
  }

  /** Reads back the value of a decimal text. */
  function DecimalValue(s: string): nat
    requires AllDigits(s)
  {
    if s == [] then 0
    else DecimalValue(s[..|s| - 1]) * 10 + (s[|s| - 1] as int - '0' as int)
  }

  lemma {:induction false} DecimalRoundTrip(n: nat)
    ensures DecimalValue(DecimalText(n)) == n
  {
    var s := DecimalText(n);
    if n >= 10 {
      DecimalRoundTrip(n / 10);
      assert s[..|s| - 1] == DecimalText(n / 10);
    }
  }

  /** Distinct days have distinct decimal texts. */
  lemma DecimalTextInjective(a: nat, b: nat)
    requires DecimalText(a) == DecimalText(b)
    ensures a == b
  {
    DecimalRoundTrip(a);
    DecimalRoundTrip(b);
  }

  /** In a digit string followed by a space, the space is the first
      character that is not a digit. */
  lemma FirstSpace(x: string, y: string, k: nat)
    requires AllDigits(x) && k <= |x|
    ensures (x + " " + y)[k] == ' ' <==> k == |x|
  {
    if k < |x| {
      assert (x + " " + y)[k] == x[k];
    }
  }

  /** A digit string followed by a space is found again, whatever follows. */
  lemma DigitsThenSpace(x: string, y: string, x': string, y': string)
    requires AllDigits(x) && AllDigits(x')
    requires x + " " + y == x' + " " + y'
    ensures x == x' && y == y'
  {
    var s := x + " " + y;
    var n := if |x| < |x'| then |x| else |x'|;
    FirstSpace(x, y, n);
    FirstSpace(x', y', n);
    assert |x| == |x'|;
    assert x == s[..|x|] == x';
    assert y == s[|x| + 1..] == y';
  }

  /** The twelve month names are pairwise distinct. */
  lemma MonthNamesDistinct(i: MonthIndex, j: MonthIndex)
    requires MonthName(i) == MonthName(j)
    ensures i == j
  {
  }

  // ---------------------------------------------------------------------
  // Description and symbol

  /** `_setDescription`: the type with its first letter upper-cased, " on ",
      the day of the month, a space and the month's name. */
  function Describe(kind: Kind, date: Date): string
  {
    Heading(kind) + (DecimalText(date.day) + " " + MonthName(date.month))
  }

  /** `months[m]`; the index is always within the table. */
  function MonthName(m: MonthIndex): string
  {
    Months[m]
  }

  /** The description keeps the kind and the calendar day it was made from:
      two equal descriptions name the same kind, day and month. */
  lemma DescribeInjective(k: Kind, d: Date, k': Kind, d': Date)
    requires Describe(k, d) == Describe(k', d')
    ensures k == k' && d.day == d'.day && d.month == d'.month
  {
    var day, day' := DecimalText(d.day), DecimalText(d'.day);
    var month, month' := MonthName(d.month), MonthName(d'.month);
    HeadingSplit(k, day + " " + month, k', day' + " " + month');
    DigitsThenSpace(day, month, day', month');
    DecimalTextInjective(d.day, d'.day);
    MonthNamesDistinct(d.month, d'.month);
  }

  /** The heading is found again in front of any text that follows it. */
  lemma HeadingSplit(k: Kind, rest: string, k': Kind, rest': string)
    requires Heading(k) + rest == Heading(k') + rest'
    ensures k == k' && rest == rest'
  {
    var s := Heading(k) + rest;
    assert s[0] == Heading(k)[0] && s[0] == Heading(k')[0];
    assert rest == s[11..] == rest';
  }

  /** The part of a description that names the kind. */
  function Heading(kind: Kind): (h: string)
    ensures h == if kind == Running then "Running on " else "Cycling on "
  {
    Capitalised(Tag(kind)) + " on "
  }

  /** `_setSympol`: the runner glyph exactly for the type 'running', the
      cyclist glyph otherwise. */
  function SymbolOf(tag: string): (symbol: string)
    ensures symbol == RunnerGlyph <==> tag == "running"
    ensures symbol == RunnerGlyph || symbol == CyclistGlyph
  {
    if tag == "running" then RunnerGlyph else CyclistGlyph
  }

  // ---------------------------------------------------------------------
  // Construction

  /** The shape every workout object keeps: the derived metric of its kind
      and only that one, its kind's symbol, and a description that starts
      with its kind. */
  predicate WellFormed(w: Workout)
  {
    && (w.kind == Running ==> w.pace.Some? && w.speed.None?)
    && (w.kind == Cycling ==> w.speed.Some? && w.pace.None?)
    && w.symbol == SymbolOf(Tag(w.kind))
    && Heading(w.kind) <= w.description
  }

  /** `new Running(distance, duration, coords, cadence)` created at `date`
      with the fresh id `id`. */
  function NewRunning(distance: real, duration: real, coords: Coords, cadence: Option<real>,
                      id: string, date: Date): (w: Workout)
    ensures w.kind == Running && WellFormed(w)
    ensures w.distance == distance && w.duration == duration
    ensures w.coords == coords && w.cadence == cadence && w.elevation == None
    ensures w.id == id && w.date == date && w.clicks == 0
    ensures distance != 0.0 ==> w.pace == Some(Finite(duration / distance))
    ensures distance == 0.0 ==> w.pace.Some? && !IsFinite(w.pace.value)
    ensures w.symbol == RunnerGlyph
    ensures w.description == Describe(Running, date)
  {
    Workout(Running, id, date, 0, distance, duration, coords, cadence, None,
            Some(Quotient(duration, distance)), None,
            Describe(Running, date), SymbolOf(Tag(Running)))
  }

  /** `new Cycling(distance, duration, coords, elevation)` created at `date`
      with the fresh id `id`. */
  function NewCycling(distance: real, duration: real, coords: Coords, elevation: Option<real>,
                      id: string, date: Date): (w: Workout)
    ensures w.kind == Cycling && WellFormed(w)
    ensures w.distance == distance && w.duration == duration
    ensures w.coords == coords && w.elevation == elevation && w.cadence == None
    ensures w.id == id && w.date == date && w.clicks == 0
    ensures duration != 0.0 ==> w.speed == Some(Finite(distance / (duration / 60.0)))
    ensures duration == 0.0 ==> w.speed.Some? && !IsFinite(w.speed.value)
    ensures w.symbol == CyclistGlyph
    ensures w.description == Describe(Cycling, date)
  {
    Workout(Cycling, id, date, 0, distance, duration, coords, None, elevation,
            None, Some(Quotient(distance, duration / 60.0)),
            Describe(Cycling, date), SymbolOf(Tag(Cycling)))
  }

  /** `_click`: one more click, nothing else changes. */
  function Click(w: Workout): (r: Workout)
    ensures r.clicks == w.clicks + 1
    ensures r.(clicks := w.clicks) == w
    ensures WellFormed(w) ==> WellFormed(r)
  {
    w.(clicks := w.clicks + 1)
  }

  /** Worked values: 5 km in 30 minutes is a pace of 6 min/km, 10 km in
      40 minutes a speed of 15 km/h. */
  lemma DerivedMetricExamples(coords: Coords, id: string, date: Date)
    ensures NewRunning(5.0, 30.0, coords, Some(150.0), id, date).pace == Some(Finite(6.0))
    ensures NewCycling(10.0, 40.0, coords, Some(-50.0), id, date).speed == Some(Finite(15.0))
  {
  }
}
