/** `eventos_especiales` and `identificar_evento`: the special event whose date list holds a day,
    events being tried in declaration order. */
module Events {
  import opened Calendar
  import Seqs

  /** One dictionary entry: the event name and its listed days. */
  datatype Event = Event(name: string, dates: seq<Date>)

  /** The events in declaration order. */
  const SpecialEvents: seq<Event> := [
    Event("Año Nuevo", [Date(2019, 1, 1), Date(2020, 1, 1)]),
    Event("San Valentín", [Date(2019, 2, 14)]),
    Event("Día de San Patricio", [Date(2019, 3, 17)]),
    Event("Pascua", [Date(2019, 4, 21)]),
    Event("Día de la Madre", [Date(2019, 5, 12)]),
    Event("Día del Padre", [Date(2019, 6, 16)]),
    Event("Independencia de EE.UU.", [Date(2019, 7, 4)]),
    Event("Back to School",
          [Date(2019, 8, 15), Date(2019, 8, 16), Date(2019, 8, 17), Date(2019, 8, 18), Date(2019, 8, 19)]),
    Event("Labor Day", [Date(2019, 9, 2)]),
    Event("Halloween", [Date(2019, 10, 31)]),
    Event("Veterans Day", [Date(2019, 11, 11)]),
    Event("Black Friday", [Date(2019, 11, 29)]),
    Event("Cyber Monday", [Date(2019, 12, 2)]),
    Event("Navidad", [Date(2019, 12, 24), Date(2019, 12, 25)]),
    Event("Año Nuevo 2020", [Date(2020, 1, 1)])
  ]

  /** The label of days that belong to no event. */
  const NormalDay: string := "Día Normal"

  /** The name of the first event of `events` listing `d`, or `NormalDay` when none does. */
  function FirstEvent(events: seq<Event>, d: Date): (name: string)
    ensures (forall i :: 0 <= i < |events| ==> d !in events[i].dates) ==> name == NormalDay
    ensures forall i :: 0 <= i < |events| && d in events[i].dates && (forall j :: 0 <= j < i ==> d !in events[j].dates)
              ==> name == events[i].name
    ensures name == NormalDay || exists i :: 0 <= i < |events| && name == events[i].name && d in events[i].dates
    ensures (forall i :: 0 <= i < |events| ==> events[i].name != NormalDay) ==>
              (name == NormalDay <==> forall i :: 0 <= i < |events| ==> d !in events[i].dates)
  {
    var i := Seqs.FirstIndex(events, (e: Event) => d in e.dates);
    if i < |events| then events[i].name else NormalDay
  }

  /** An event every one of whose days is listed by an earlier event with another name is never reported. */
  lemma {:induction false} Shadowed(events: seq<Event>, d: Date, early: nat, late: nat)
    requires early < late < |events|
    requires forall x :: x in events[late].dates ==> x in events[early].dates
    requires forall i :: 0 <= i < |events| && i != late ==> events[i].name != events[late].name
    requires events[late].name != NormalDay
    ensures FirstEvent(events, d) != events[late].name
  {
    var f := Seqs.FirstIndex(events, (e: Event) => d in e.dates);
    if f < |events| {
      if f == late {
        Seqs.FirstIndexBefore(events, (e: Event) => d in e.dates, early);
        assert false;
      }
      assert FirstEvent(events, d) == events[f].name;
    }
  }

  /** `identificar_evento(fecha)` for the day of an order. */
  function IdentifyEvent(d: Date): (name: string)
    ensures name == NormalDay || exists i :: 0 <= i < |SpecialEvents| && name == SpecialEvents[i].name && d in SpecialEvents[i].dates
    ensures name == NormalDay <==> forall i :: 0 <= i < |SpecialEvents| ==> d !in SpecialEvents[i].dates
  {
    NoEventIsNormal();
    FirstEvent(SpecialEvents, d)
  }

  lemma NoEventIsNormal()
    ensures forall i :: 0 <= i < |SpecialEvents| ==> SpecialEvents[i].name != NormalDay
  {
  }

  /** `'Año Nuevo 2020'` is never returned: its only day is already listed under `'Año Nuevo'`. */
  lemma NewYear2020Unreachable(d: Date)
    ensures IdentifyEvent(d) != "Año Nuevo 2020"
  {
    Shadowed(SpecialEvents, d, 0, 14);
  }

  /** Both New Year's days are tagged `'Año Nuevo'`. */
  lemma NewYearExamples()
    ensures IdentifyEvent(Date(2019, 1, 1)) == "Año Nuevo"
    ensures IdentifyEvent(Date(2020, 1, 1)) == "Año Nuevo"
  {
  }

  /** The first day of the Back to School window is tagged with it. */
  lemma BackToSchoolFirstDay()
    ensures IdentifyEvent(Date(2019, 8, 15)) == "Back to School"
  {
    var d := Date(2019, 8, 15);
    assert d in SpecialEvents[7].dates;
    forall j | 0 <= j < 7 ensures d !in SpecialEvents[j].dates {
      NotListedBefore(d, j);
    }
  }

  lemma NotListedBefore(d: Date, j: nat)
    requires d == Date(2019, 8, 15) && j < 7
    ensures d !in SpecialEvents[j].dates
  {
  }

  /** Multi-day events are lists of days, not ranges: the day after Back to School is a normal day. */
  lemma DayAfterBackToSchool()
    ensures IdentifyEvent(Date(2019, 8, 20)) == NormalDay
  {
    var d := Date(2019, 8, 20);
    forall i | 0 <= i < |SpecialEvents| ensures d !in SpecialEvents[i].dates {
      NotListed(d, i);
    }
  }

  lemma NotListed(d: Date, i: nat)
    requires d == Date(2019, 8, 20) && i < |SpecialEvents|
    ensures d !in SpecialEvents[i].dates
  {
  }
}
