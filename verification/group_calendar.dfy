/** The group calendar (GroupCalendar): which events fall on a day, how a day
    tile is classed and badged, and the handlers that update the calendar's
    state. Timestamps are integers counting milliseconds of local time; the
    events table, confirm dialogs and delete results are inputs. */
module GroupCalendar {
  import opened Basics

  /** Milliseconds in a day. */
  const DayMs: int := 86400000

  datatype CalendarEvent = CalendarEvent(
    id: string, groupId: string, userId: string, title: string,
    description: Option<string>, startTime: int, endTime: int)

  /** The local day a timestamp falls on. */
  function DayOf(t: int): int {
    t / DayMs
  }

  /** `setHours(0, 0, 0, 0)`: the first millisecond of the day of `t`. */
  function StartOfDay(t: int): (r: int)
    ensures r <= t < r + DayMs
    ensures DayOf(r) == DayOf(t) && DayOf(r - 1) < DayOf(t)
  {
    DayOf(t) * DayMs
  }

  /** `setHours(23, 59, 59, 999)`: the last millisecond of the day of `t`. */
  function EndOfDay(t: int): (r: int)
    ensures r - DayMs < t <= r
    ensures DayOf(r) == DayOf(t) && DayOf(r + 1) > DayOf(t)
  {
    DayOf(t) * DayMs + DayMs - 1
  }

  /** The filter of `getEventsForDay` / `getEventCountForDay`, at millisecond level. */
  predicate OnDay(e: CalendarEvent, date: int) {
    StartOfDay(date) >= StartOfDay(e.startTime) && StartOfDay(date) <= EndOfDay(e.endTime)
  }

  /** An event falls on a day exactly when the day lies between its start day
      and its end day, time of day ignored. An event whose end day comes before
      its start day falls on no day; one that ends earlier on its start day
      still falls on that day. */
  lemma OnDayIffWithinDays(e: CalendarEvent, date: int)
    ensures OnDay(e, date) <==> DayOf(e.startTime) <= DayOf(date) <= DayOf(e.endTime)
    ensures DayOf(e.endTime) < DayOf(e.startTime) ==> !OnDay(e, date)
  {
    var d, s, f := DayOf(date), DayOf(e.startTime), DayOf(e.endTime);
    assert d * DayMs >= s * DayMs <==> d >= s;
    assert d * DayMs <= f * DayMs + DayMs - 1 <==> d <= f;
  }

  /** `b` keeps all of `a`'s elements in order, possibly with others between them. */
  predicate IsSubsequence<T(==)>(a: seq<T>, b: seq<T>)
    decreases |b|
  {
    if a == [] then true
    else if b == [] then false
    else if a[0] == b[0] then IsSubsequence(a[1..], b[1..])
    else IsSubsequence(a, b[1..])
  }

  /** `getEventsForDay`: the events on `date`, in their original order. */
  function EventsForDay(events: seq<CalendarEvent>, date: int): (r: seq<CalendarEvent>)
    ensures forall e :: e in r <==> e in events && OnDay(e, date)
    ensures forall e :: multiset(r)[e] == if OnDay(e, date) then multiset(events)[e] else 0
    ensures IsSubsequence(r, events)
  {
    if events == [] then []
    else
      var rest := EventsForDay(events[1..], date);
      assert events == [events[0]] + events[1..];
      if OnDay(events[0], date) then
        var r := [events[0]] + rest;
        assert r[1..] == rest;
        r
      else
        rest
  }

  /** `getEventCountForDay`: a separate count over the same filter. */
  function EventCountForDay(events: seq<CalendarEvent>, date: int): nat {
    if events == [] then 0
    else (if OnDay(events[0], date) then 1 else 0) + EventCountForDay(events[1..], date)
  }

  /** The tile count and the detail list agree, because both use one predicate. */
  lemma {:induction false} CountIsLengthOfDayEvents(events: seq<CalendarEvent>, date: int)
    ensures EventCountForDay(events, date) == |EventsForDay(events, date)|
  {
    if events != [] {
      CountIsLengthOfDayEvents(events[1..], date);
    }
  }

  /** `tileClassName`: a selected day is always "selected-day"; otherwise the
      class follows the day's event count (none for 0). */
  function TileClassName(events: seq<CalendarEvent>, selectedDate: int, date: int): (r: Option<string>)
    ensures DayOf(date) == DayOf(selectedDate) ==> r == Some("selected-day")
    ensures DayOf(date) != DayOf(selectedDate) ==>
      && (r.None? <==> |EventsForDay(events, date)| == 0)
      && (r == Some("event-day-1") <==> |EventsForDay(events, date)| == 1)
      && (r == Some("event-day-2") <==> |EventsForDay(events, date)| == 2)
      && (r == Some("event-day-3plus") <==> |EventsForDay(events, date)| >= 3)
  {
    var eventCount := EventCountForDay(events, date);
    CountIsLengthOfDayEvents(events, date);
    var isSelected := DayOf(date) == DayOf(selectedDate);
    if isSelected then Some("selected-day")
    else if eventCount > 0 then
      if eventCount == 1 then Some("event-day-1")
      else if eventCount == 2 then Some("event-day-2")
      else Some("event-day-3plus")
    else None
  }

  /** The calendar's views; tiles are badged only in the month view. */
  datatype View = Month | Year | Decade | Century

  /** The three badge colours, one per colour index. */
  const BadgeColors: seq<string> := [
    "bg-gradient-to-r from-red-500 to-red-600",
    "bg-gradient-to-r from-orange-500 to-orange-600",
    "bg-gradient-to-r from-amber-500 to-amber-600"
  ]

  datatype TileBadge = TileBadge(colorIndex: nat, colorClass: string, text: string)

  /** `tileContent`: no badge outside the month view or on a day without events;
      otherwise the colour index is min(count - 1, 2) and the label the count,
      or "9+" above nine. */
  function TileContent(events: seq<CalendarEvent>, view: View, date: int): (r: Option<TileBadge>)
    ensures r.None? <==> view != Month || |EventsForDay(events, date)| == 0
    ensures r.Some? ==>
      var n := |EventsForDay(events, date)|;
      && r.value.colorIndex <= 2
      && r.value.colorIndex == (if n - 1 < 2 then n - 1 else 2)
      && r.value.colorClass == BadgeColors[r.value.colorIndex]
      && (r.value.text == "9+" <==> n > 9)
      && (n <= 9 ==> |r.value.text| == 1 && AllDigits(r.value.text) && DecimalValue(r.value.text) == n)
  {
    if view == Month then
      var eventCount := EventCountForDay(events, date);
      CountIsLengthOfDayEvents(events, date);
      if eventCount == 0 then None
      else
        var colorIndex := if eventCount - 1 < 2 then eventCount - 1 else 2;
        DecimalRoundTrip(eventCount);
        Some(TileBadge(colorIndex, BadgeColors[colorIndex],
                       if eventCount > 9 then "9+" else DecimalText(eventCount)))
    else None
  }

  /** The value react-calendar hands to `onChange`: null, a date, or a range whose
      ends may be null. */
  datatype CalendarValue = NoValue | OneDate(date: int) | DateRange(first: Option<int>, second: Option<int>)

  /** What the events query answers: rows (possibly null data), a query error
      with its message and HTTP status, or a thrown exception with its message. */
  datatype FetchReply =
    | Rows(data: Option<seq<CalendarEvent>>)
    | QueryError(message: string, status: nat)
    | Thrown(message: string)

  /** The message shown for a failed events query. */
  function QueryErrorText(message: string, status: nat): (r: string)
    ensures message != "" ==> r == message
    ensures message == "" ==> r == "Server responded with status " + DecimalText(status)
  {
    if message != "" then message else "Server responded with status " + DecimalText(status)
  }

  class Calendar {
    var selectedDate: int
    var events: seq<CalendarEvent>
    var loading: bool
    var fetchError: Option<string>
    var showDetail: bool
    var detailEvents: seq<CalendarEvent>
    var selectedEvent: Option<CalendarEvent>

    /** The initial state; `now` stands for `new Date()`. */
    constructor (now: int)
      ensures selectedDate == now && events == [] && !loading && fetchError == None
      ensures !showDetail && detailEvents == [] && selectedEvent == None
    {
      selectedDate := now;
      events := [];
      loading := false;
      fetchError := None;
      showDetail := false;
      detailEvents := [];
      selectedEvent := None;
    }

    /** `fetchEvents`, once its query has answered `reply`. A query error empties
        the events and records its message; a thrown error records its message
        and keeps the events; rows replace the events (null data as none). */
    method FetchEvents(reply: FetchReply)
      modifies this`loading, this`fetchError, this`events
      ensures !loading
      ensures reply.Rows? ==> fetchError == None && events == (if reply.data.Some? then reply.data.value else [])
      ensures reply.QueryError? ==> fetchError == Some(QueryErrorText(reply.message, reply.status)) && events == []
      ensures reply.Thrown? ==> fetchError == Some(OrElse(Some(reply.message), "Unexpected error"))
                                && events == old(events)
    {
      loading := true;
      fetchError := None;
      match reply {
        case Rows(data) =>
          loading := false;
          events := if data.Some? then data.value else [];
        case QueryError(message, status) =>
          loading := false;
          fetchError := Some(QueryErrorText(message, status));
          events := [];
        case Thrown(message) =>
          loading := false;
          fetchError := Some(if message != "" then message else "Unexpected error");
      }
    }

    /** `handleDateChange`: a date, or the first end of a range when it is a
        date, becomes the selection; anything else leaves it as it was. */
    method HandleDateChange(value: CalendarValue)
      modifies this`selectedDate
      ensures value.OneDate? ==> selectedDate == value.date
      ensures value.DateRange? && value.first.Some? ==> selectedDate == value.first.value
      ensures value.NoValue? || (value.DateRange? && value.first.None?) ==> selectedDate == old(selectedDate)
    {
      match value {
        case NoValue =>
          return;
        case OneDate(date) =>
          selectedDate := date;
        case DateRange(first, _) =>
          if first.Some? {
            selectedDate := first.value;
          }
      }
    }

    /** `handleDayClick`: select the day, list its events, clear the chosen
        event and open the detail view. */
    method HandleDayClick(date: int)
      modifies this`selectedDate, this`detailEvents, this`selectedEvent, this`showDetail
      ensures selectedDate == date
      ensures detailEvents == EventsForDay(events, date)
      ensures selectedEvent == None && showDetail
    {
      selectedDate := date;
      var dayEvents := EventsForDay(events, date);
      detailEvents := dayEvents;
      selectedEvent := None;
      showDetail := true;
    }

    /** `handleDeleteEvent`: a declined confirm does nothing; a failed delete
        only raises an alert (returned); a successful one closes the detail
        view and refetches, whose answer is `refetch`. */
    method HandleDeleteEvent(confirmed: bool, deleteError: Option<string>, refetch: FetchReply)
      returns (deleteIssued: bool, alertText: Option<string>)
      modifies this`showDetail, this`loading, this`fetchError, this`events
      ensures deleteIssued == confirmed
      ensures !confirmed || deleteError.Some? ==>
        && showDetail == old(showDetail) && events == old(events)
        && fetchError == old(fetchError) && loading == old(loading)
      ensures alertText.Some? <==> confirmed && deleteError.Some?
      ensures alertText.Some? ==> alertText.value == OrElse(deleteError, "ลบกิจกรรมไม่สำเร็จ")
      ensures confirmed && deleteError.None? ==> !showDetail && !loading
      ensures confirmed && deleteError.None? && refetch.Rows? ==>
        fetchError == None && events == (if refetch.data.Some? then refetch.data.value else [])
      ensures confirmed && deleteError.None? && refetch.QueryError? ==>
        fetchError == Some(QueryErrorText(refetch.message, refetch.status)) && events == []
      ensures confirmed && deleteError.None? && refetch.Thrown? ==>
        fetchError == Some(OrElse(Some(refetch.message), "Unexpected error")) && events == old(events)
    {
      if !confirmed {
        return false, None;
      }
      deleteIssued := true;
      if deleteError.Some? {
        alertText := Some(OrElse(deleteError, "ลบกิจกรรมไม่สำเร็จ"));
        return;
      }
      alertText := None;
      showDetail := false;
      FetchEvents(refetch);
    }
  }
}
