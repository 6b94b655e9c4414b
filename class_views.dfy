/** The view helpers of the class search, calendar and analytics views (classes/views.py):
    the applied-filter list, the grouping of calendar events by date, the time-of-day and
    day-of-week session filters and the analytics reporting period. Times are integer seconds
    since 1970-01-01 00:00 UTC, and dates and hours are read in UTC. */
module ClassViews {
  import opened Wrappers
  import opened Strings
  import opened Seqs

  const SecondsPerHour := 3600
  const SecondsPerDay := 86400

  /** `request.query_params.get(key)`: the (last) value sent for `key`, if any. */
  function Param(params: map<string, string>, key: string): Option<string> {
    if key in params then Some(params[key]) else None
  }

  // ---------------------------------------------------------------------------------------
  // ClassSearchView._get_applied_filters

  /** One entry of the applied-filter list. */
  datatype AppliedFilter = AppliedFilter(name: string, value: string, param: string)

  /** `filter_mapping`: each search parameter and its display name, in declaration order. */
  const FilterMapping: seq<(string, string)> := [
    ("category_id", "Category"),
    ("difficulty", "Difficulty Level"),
    ("location_type", "Location Type"),
    ("instructor_id", "Instructor"),
    ("min_price", "Min Price"),
    ("max_price", "Max Price"),
    ("min_duration", "Min Duration"),
    ("max_duration", "Max Duration"),
    ("featured_only", "Featured Only"),
    ("available_only", "Available Only"),
    ("start_date", "Start Date"),
    ("end_date", "End Date"),
    ("time_of_day", "Time of Day"),
    ("day_of_week", "Day of Week"),
    ("min_rating", "Min Rating"),
    ("min_capacity", "Min Capacity"),
    ("max_capacity", "Max Capacity")
  ]

  /** The parameter names of a mapping, in order. */
  function Keys(mapping: seq<(string, string)>): (r: seq<string>)
    ensures |r| == |mapping|
    ensures forall i :: 0 <= i < |r| ==> r[i] == mapping[i].0
  {
    if mapping == [] then [] else Keys(mapping[..|mapping| - 1]) + [mapping[|mapping| - 1].0]
  }

  /** The parameter names of an applied-filter list, in order. */
  function ParamsOf(filters: seq<AppliedFilter>): (r: seq<string>)
    ensures |r| == |filters|
  {
    if filters == [] then [] else ParamsOf(filters[..|filters| - 1]) + [filters[|filters| - 1].param]
  }

  /** The applied-filter list for `mapping`: an entry for each mapped parameter sent with a
      non-empty value, in mapping order. */
  function AppliedFilters(mapping: seq<(string, string)>, params: map<string, string>): seq<AppliedFilter> {
    if mapping == [] then []
    else
      var (param, name) := mapping[|mapping| - 1];
      AppliedFilters(mapping[..|mapping| - 1], params)
      + (if Given(Param(params, param)) then [AppliedFilter(name, params[param], param)] else [])
  }

  /** The list names exactly the parameters that were sent with a value, in mapping order. */
  lemma {:induction false} AppliedFiltersParams(mapping: seq<(string, string)>, params: map<string, string>)
    ensures ParamsOf(AppliedFilters(mapping, params)) == Filter(Keys(mapping), (p: string) => Given(Param(params, p)))
  {
    if mapping != [] {
      var init := mapping[..|mapping| - 1];
      AppliedFiltersParams(init, params);
      assert Keys(mapping)[..|mapping| - 1] == Keys(init);
      var fs := AppliedFilters(mapping, params);
      var fi := AppliedFilters(init, params);
      if Given(Param(params, mapping[|mapping| - 1].0)) {
        assert fs[..|fs| - 1] == fi;
      } else {
        assert fs == fi;
      }
    }
  }

  /** Each entry carries a mapped parameter, its display name and the non-empty value sent. */
  lemma {:induction false} AppliedFiltersEntries(mapping: seq<(string, string)>, params: map<string, string>)
    ensures forall f :: f in AppliedFilters(mapping, params) ==>
      (f.param, f.name) in mapping && f.param in params && f.value == params[f.param] && f.value != ""
  {
    if mapping != [] {
      var init := mapping[..|mapping| - 1];
      AppliedFiltersEntries(init, params);
      var fi := AppliedFilters(init, params);
      var (param, name) := mapping[|mapping| - 1];
      forall f | f in AppliedFilters(mapping, params)
        ensures (f.param, f.name) in mapping && f.param in params && f.value == params[f.param] && f.value != ""
      {
        if f in fi {
          var k :| 0 <= k < |init| && init[k] == (f.param, f.name);
          assert mapping[k] == init[k];
        } else {
          assert f == AppliedFilter(name, params[param], param);
          assert mapping[|mapping| - 1] == (f.param, f.name);
        }
      }
    }
  }

  /** No parameter appears twice in the mapping, so no parameter is reported twice. */
  lemma FilterMappingKeysDistinct()
    ensures forall i, j :: 0 <= i < j < |FilterMapping| ==> FilterMapping[i].0 != FilterMapping[j].0
  {
  }

  /** `_get_applied_filters`: walks the mapping and appends an entry for every parameter sent
      with a non-empty value. */
  method GetAppliedFilters(params: map<string, string>) returns (filters: seq<AppliedFilter>)
    ensures filters == AppliedFilters(FilterMapping, params)
    ensures |filters| <= |FilterMapping|
  {
    filters := [];
    for i := 0 to |FilterMapping|
      invariant filters == AppliedFilters(FilterMapping[..i], params)
      invariant |filters| <= i
    {
      assert FilterMapping[..i + 1][..i] == FilterMapping[..i];
      var (param, displayName) := FilterMapping[i];
      var value := Param(params, param);
      if value.Some? && value.value != "" {
        filters := filters + [AppliedFilter(displayName, value.value, param)];
      }
    }
    assert FilterMapping[..|FilterMapping|] == FilterMapping;
  }

  // ---------------------------------------------------------------------------------------
  // ClassCalendarView._group_by_date

  /** A calendar event: the session's id and start time (the other event fields are copied
      from the session and play no part in the grouping). */
  datatype Event = Event(id: nat, startTime: int)

  /** The event's date, `strftime('%Y-%m-%d')` of its start, as a day number. */
  function DayOf(e: Event): int {
    e.startTime / SecondsPerDay
  }

  /** One date group: the date and its events. */
  datatype DateGroup = DateGroup(day: int, events: seq<Event>)

  /** The events of `es` on day `d`, in their original order. */
  function OnDay(es: seq<Event>, d: int): (r: seq<Event>)
    ensures |r| <= |es|
    ensures forall x :: x in r ==> x in es && DayOf(x) == d
  {
    if es == [] then []
    else OnDay(es[..|es| - 1], d) + (if DayOf(es[|es| - 1]) == d then [es[|es| - 1]] else [])
  }

  predicate Distinct(ds: seq<int>) {
    forall i, j :: 0 <= i < j < |ds| ==> ds[i] != ds[j]
  }

  /** The dates of `es`, each once, in order of their first event. */
  function Days(es: seq<Event>): seq<int> {
    if es == [] then []
    else
      var init := Days(es[..|es| - 1]);
      var d := DayOf(es[|es| - 1]);
      if d in init then init else init + [d]
  }

  /** A date is listed exactly when some event falls on it. */
  lemma {:induction false} DaysMembership(es: seq<Event>, d: int)
    ensures d in Days(es) <==> exists i :: 0 <= i < |es| && DayOf(es[i]) == d
  {
    if es != [] {
      var init := es[..|es| - 1];
      DaysMembership(init, d);
      if exists i :: 0 <= i < |init| && DayOf(init[i]) == d {
        var i :| 0 <= i < |init| && DayOf(init[i]) == d;
        assert es[i] == init[i];
      }
      if exists i :: 0 <= i < |es| && DayOf(es[i]) == d {
        var i :| 0 <= i < |es| && DayOf(es[i]) == d;
        if i < |init| {
          assert es[i] == init[i];
        }
      }
    }
  }

  /** No date is listed twice. */
  lemma {:induction false} DaysDistinct(es: seq<Event>)
    ensures Distinct(Days(es))
  {
    if es != [] {
      DaysDistinct(es[..|es| - 1]);
    }
  }

  /** The groups before sorting: one per date, in order of first appearance, holding that
      date's events in input order. */
  function Grouping(es: seq<Event>): (r: seq<DateGroup>)
    ensures |r| == |Days(es)|
    ensures forall k :: 0 <= k < |r| ==> r[k] == DateGroup(Days(es)[k], OnDay(es, Days(es)[k]))
  {
    var ds := Days(es);
    seq(|ds|, k requires 0 <= k < |ds| => DateGroup(ds[k], OnDay(es, ds[k])))
  }

  /** The index of the group for day `d`, or `|groups|` when there is none. */
  function FindGroup(groups: seq<DateGroup>, d: int): (k: nat)
    ensures k <= |groups|
    ensures k < |groups| ==> groups[k].day == d
    ensures forall j :: 0 <= j < k ==> groups[j].day != d
  {
    if groups == [] then 0
    else if groups[0].day == d then 0
    else 1 + FindGroup(groups[1..], d)
  }

  /** A day with no event has no events. */
  lemma OnDayNone(es: seq<Event>, d: int)
    requires d !in Days(es)
    ensures OnDay(es, d) == []
  {
    if OnDay(es, d) != [] {
      var x := OnDay(es, d)[0];
      assert x in OnDay(es, d);
      var i :| 0 <= i < |es| && es[i] == x;
      DaysMembership(es, d);
    }
  }

  /** Looking a date up among the groups finds its group exactly when the date has events. */
  lemma FindGroupInGrouping(es: seq<Event>, d: int)
    ensures var k := FindGroup(Grouping(es), d);
            (k == |Days(es)| <==> d !in Days(es)) && (k < |Days(es)| ==> Days(es)[k] == d)
  {
    var g, ds := Grouping(es), Days(es);
    var k := FindGroup(g, d);
    if k < |g| {
      assert g[k].day == ds[k];
    }
  }

  /** The events of `es + [e]` on day `d`: those of `es`, then `e` when it is on `d`. */
  lemma OnDayAppend(es: seq<Event>, e: Event, d: int)
    ensures OnDay(es + [e], d) == OnDay(es, d) + (if DayOf(e) == d then [e] else [])
  {
    assert (es + [e])[..|es|] == es;
  }

  /** An event on a new date opens a new group at the end. */
  lemma GroupingAppendNew(es: seq<Event>, e: Event)
    requires DayOf(e) !in Days(es)
    ensures Grouping(es + [e]) == Grouping(es) + [DateGroup(DayOf(e), [e])]
  {
    var es' := es + [e];
    var d, ds := DayOf(e), Days(es);
    assert Days(es') == ds + [d] by {
      assert es'[..|es'| - 1] == es;
    }
    var g, g' := Grouping(es), Grouping(es');
    var r := g + [DateGroup(d, [e])];
    assert |g'| == |r|;
    forall j | 0 <= j < |g'| ensures g'[j] == r[j] {
      if j < |g| {
        OnDayAppend(es, e, ds[j]);
      } else {
        OnDayNone(es, d);
        OnDayAppend(es, e, d);
      }
    }
  }

  /** An event on a known date joins that date's group. */
  lemma GroupingAppendExisting(es: seq<Event>, e: Event, k: nat)
    requires k < |Days(es)| && Days(es)[k] == DayOf(e)
    ensures var g := Grouping(es); Grouping(es + [e]) == g[k := g[k].(events := g[k].events + [e])]
  {
    var es' := es + [e];
    assert es'[..|es'| - 1] == es;
    var ds := Days(es);
    assert Days(es') == ds;
    DaysDistinct(es);
    var g, g' := Grouping(es), Grouping(es');
    forall j | 0 <= j < |g| ensures g'[j] == g[k := g[k].(events := g[k].events + [e])][j] {
      OnDayAppend(es, e, ds[j]);
    }
  }

  /** Events with non-decreasing start times. */
  predicate SortedByStart(s: seq<Event>) {
    forall i, j :: 0 <= i < j < |s| ==> s[i].startTime <= s[j].startTime
  }

  /** Every start time in `s` is at most `t`. */
  predicate StartsBy(s: seq<Event>, t: int) {
    forall i :: 0 <= i < |s| ==> s[i].startTime <= t
  }

  /** `x` placed into `s` after the trailing events that start later than it. */
  function InsertByStart(s: seq<Event>, x: Event): (r: seq<Event>)
    ensures |r| == |s| + 1
    ensures multiset(r) == multiset(s) + multiset{x}
  {
    if s == [] || s[|s| - 1].startTime <= x.startTime then s + [x]
    else
      var init, last := s[..|s| - 1], s[|s| - 1];
      assert s == init + [last];
      InsertByStart(init, x) + [last]
  }

  /** Inserting keeps a common upper bound of the start times. */
  lemma {:induction false} InsertStartsBy(s: seq<Event>, x: Event, t: int)
    requires StartsBy(s, t) && x.startTime <= t
    ensures StartsBy(InsertByStart(s, x), t)
  {
    if !(s == [] || s[|s| - 1].startTime <= x.startTime) {
      InsertStartsBy(s[..|s| - 1], x, t);
    }
  }

  /** Inserting into a sorted sequence keeps it sorted. */
  lemma {:induction false} InsertSorted(s: seq<Event>, x: Event)
    requires SortedByStart(s)
    ensures SortedByStart(InsertByStart(s, x))
  {
    if !(s == [] || s[|s| - 1].startTime <= x.startTime) {
      var init, last := s[..|s| - 1], s[|s| - 1];
      InsertSorted(init, x);
      InsertStartsBy(init, x, last.startTime);
    }
  }

  /** `events.sort(key=start_time)`: the events ordered by start time. */
  function SortByStart(s: seq<Event>): (r: seq<Event>)
    ensures SortedByStart(r)
    ensures multiset(r) == multiset(s)
    ensures |r| == |s|
  {
    if s == [] then []
    else
      assert s == s[..|s| - 1] + [s[|s| - 1]];
      InsertSorted(SortByStart(s[..|s| - 1]), s[|s| - 1]);
      InsertByStart(SortByStart(s[..|s| - 1]), s[|s| - 1])
  }

  /** The collecting loop of `_group_by_date`: a group per date in order of first
      appearance, each event appended to its date's group. */
  method CollectByDate(events: seq<Event>) returns (groups: seq<DateGroup>)
    ensures groups == Grouping(events)
  {
    groups := [];
    for i := 0 to |events|
      invariant groups == Grouping(events[..i])
    {
      var event := events[i];
      assert events[..i + 1] == events[..i] + [event];
      var k := FindGroup(groups, DayOf(event));
      FindGroupInGrouping(events[..i], DayOf(event));
      if k == |groups| {
        GroupingAppendNew(events[..i], event);
        groups := groups + [DateGroup(DayOf(event), [])];
      } else {
        GroupingAppendExisting(events[..i], event, k);
      }
      groups := groups[k := groups[k].(events := groups[k].events + [event])];
    }
    assert events[..|events|] == events;
  }

  /** The sorting loop of `_group_by_date`: every group's events sorted by start time, the
      dates and their order unchanged. */
  method SortGroups(unsorted: seq<DateGroup>) returns (groups: seq<DateGroup>)
    ensures |groups| == |unsorted|
    ensures forall k :: 0 <= k < |groups| ==>
      groups[k] == DateGroup(unsorted[k].day, SortByStart(unsorted[k].events))
  {
    groups := unsorted;
    for k := 0 to |groups|
      invariant |groups| == |unsorted|
      invariant forall j :: 0 <= j < k ==> groups[j] == DateGroup(unsorted[j].day, SortByStart(unsorted[j].events))
      invariant forall j :: k <= j < |groups| ==> groups[j] == unsorted[j]
    {
      groups := groups[k := groups[k].(events := SortByStart(groups[k].events))];
    }
  }

  /** `_group_by_date` on the events in queryset order: one group per date, in order of the
      date's first event, holding exactly that date's events sorted by start time. */
  method GroupByDate(events: seq<Event>) returns (groups: seq<DateGroup>)
    ensures |groups| == |Days(events)|
    ensures forall k :: 0 <= k < |groups| ==>
      groups[k].day == Days(events)[k] && groups[k].events == SortByStart(OnDay(events, groups[k].day))
  {
    var collected := CollectByDate(events);
    groups := SortGroups(collected);
  }

  /** The sorted group of day `d`: the events of `es` on `d`, sorted by start time. */
  function SortedGroup(es: seq<Event>, d: int): seq<Event> {
    SortByStart(OnDay(es, d))
  }

  /** Every event lands in exactly one group: the group of its own date. */
  lemma EachEventInOneGroup(es: seq<Event>, x: Event)
    requires x in es
    ensures DayOf(x) in Days(es)
    ensures forall d :: d in Days(es) ==> (x in SortedGroup(es, d) <==> d == DayOf(x))
  {
    var i :| 0 <= i < |es| && es[i] == x;
    DaysMembership(es, DayOf(x));
    forall d | d in Days(es) ensures x in SortedGroup(es, d) <==> d == DayOf(x) {
      assert x in multiset(SortedGroup(es, d)) <==> x in multiset(OnDay(es, d));
      if d == DayOf(x) {
        OnDayKeeps(es, x);
      }
    }
  }

  /** An event of `es` is among the events of its own date. */
  lemma {:induction false} OnDayKeeps(es: seq<Event>, x: Event)
    requires x in es
    ensures x in OnDay(es, DayOf(x))
  {
    var init := es[..|es| - 1];
    if x != es[|es| - 1] {
      assert x in init by {
        var k :| 0 <= k < |es| && es[k] == x;
        assert init[k] == x;
      }
      OnDayKeeps(init, x);
    }
  }

  /** The number of events held by `groups`. */
  function TotalEvents(groups: seq<DateGroup>): nat {
    if groups == [] then 0 else TotalEvents(groups[..|groups| - 1]) + |groups[|groups| - 1].events|
  }

  lemma {:induction false} TotalEventsAppend(g: seq<DateGroup>, h: seq<DateGroup>)
    ensures TotalEvents(g + h) == TotalEvents(g) + TotalEvents(h)
  {
    if h != [] {
      assert (g + h)[..|g + h| - 1] == g + h[..|h| - 1];
      TotalEventsAppend(g, h[..|h| - 1]);
    } else {
      assert g + h == g;
    }
  }

  /** Adding one event to one group adds one to the total. */
  lemma TotalEventsGrow(g: seq<DateGroup>, k: nat, e: Event)
    requires k < |g|
    ensures TotalEvents(g[k := g[k].(events := g[k].events + [e])]) == TotalEvents(g) + 1
  {
    var g' := g[k := g[k].(events := g[k].events + [e])];
    assert g == g[..k] + [g[k]] + g[k + 1..];
    assert g' == g[..k] + [g'[k]] + g[k + 1..];
    TotalEventsAppend(g[..k] + [g[k]], g[k + 1..]);
    TotalEventsAppend(g[..k] + [g'[k]], g[k + 1..]);
    TotalEventsAppend(g[..k], [g[k]]);
    TotalEventsAppend(g[..k], [g'[k]]);
    assert TotalEvents([g[k]]) == |g[k].events| by { assert [g[k]][..0] == []; }
    assert TotalEvents([g'[k]]) == |g'[k].events| by { assert [g'[k]][..0] == []; }
  }

  /** The groups hold as many events as there were sessions. */
  lemma {:induction false} GroupingTotal(es: seq<Event>)
    ensures TotalEvents(Grouping(es)) == |es|
  {
    if es != [] {
      var init, e := es[..|es| - 1], es[|es| - 1];
      assert es == init + [e];
      GroupingTotal(init);
      var g := Grouping(init);
      var k := FindGroup(g, DayOf(e));
      FindGroupInGrouping(init, DayOf(e));
      if k == |g| {
        GroupingAppendNew(init, e);
        TotalEventsAppend(g, [DateGroup(DayOf(e), [e])]);
        assert TotalEvents([DateGroup(DayOf(e), [e])]) == 1 by {
          assert [DateGroup(DayOf(e), [e])][..0] == [];
        }
      } else {
        GroupingAppendExisting(init, e, k);
        TotalEventsGrow(g, k, e);
      }
    }
  }

  /** Sorting each group keeps each group's size, so the total is still the number of
      sessions. */
  lemma {:induction false} SortedTotal(g: seq<DateGroup>, sorted: seq<DateGroup>)
    requires |sorted| == |g|
    requires forall k :: 0 <= k < |g| ==> |sorted[k].events| == |g[k].events|
    ensures TotalEvents(sorted) == TotalEvents(g)
  {
    if g != [] {
      SortedTotal(g[..|g| - 1], sorted[..|sorted| - 1]);
    }
  }

  /** The first event of `es` on day `d`. */
  function FirstOn(es: seq<Event>, d: int): (k: nat)
    requires d in Days(es)
    ensures k < |es| && DayOf(es[k]) == d
    ensures forall j :: 0 <= j < k ==> DayOf(es[j]) != d
  {
    if DayOf(es[0]) == d then 0
    else
      assert d in Days(es[1..]) by {
        DaysMembership(es, d);
        var i :| 0 <= i < |es| && DayOf(es[i]) == d;
        assert es[1..][i - 1] == es[i];
        DaysMembership(es[1..], d);
      }
      1 + FirstOn(es[1..], d)
  }

  /** The groups come in the order of their dates' first events. */
  lemma {:induction false} DaysInFirstAppearanceOrder(es: seq<Event>)
    ensures forall i, j :: 0 <= i < j < |Days(es)| ==> FirstOn(es, Days(es)[i]) < FirstOn(es, Days(es)[j])
  {
    if es != [] {
      var init, e := es[..|es| - 1], es[|es| - 1];
      assert es == init + [e];
      DaysInFirstAppearanceOrder(init);
      var ds := Days(init);
      forall i | 0 <= i < |ds| ensures FirstOn(es, ds[i]) == FirstOn(init, ds[i]) {
        var a, b := FirstOn(es, ds[i]), FirstOn(init, ds[i]);
        assert es[b] == init[b];
      }
      if DayOf(e) !in ds {
        assert Days(es) == ds + [DayOf(e)];
        assert FirstOn(es, DayOf(e)) == |init| by {
          DaysMembership(init, DayOf(e));
          forall j | 0 <= j < |init| ensures DayOf(es[j]) != DayOf(e) {
            assert es[j] == init[j];
          }
        }
      }
    }
  }

  // ---------------------------------------------------------------------------------------
  // ClassSearchView.get_queryset: the time-of-day and day-of-week session filters

  /** The UTC hour of a start time, as `__hour` reads it. */
  function HourOf(t: int): (h: int)
    ensures 0 <= h < 24
  {
    (t % SecondsPerDay) / SecondsPerHour
  }

  /** The `time_of_day` filter on one session's start hour: "morning" is 6 to 12, "afternoon"
      12 to 17, "evening" 17 to 22 and "night" 22 to 6; a missing, empty or unknown value
      filters nothing. A class is listed when one of its sessions passes. */
  predicate TimeOfDayKeeps(timeOfDay: Option<string>, hour: int) {
    if !Given(timeOfDay) then true
    else if timeOfDay.value == "morning" then 6 <= hour < 12
    else if timeOfDay.value == "afternoon" then 12 <= hour < 17
    else if timeOfDay.value == "evening" then 17 <= hour < 22
    else if timeOfDay.value == "night" then hour >= 22 || hour < 6
    else true
  }

  const TimesOfDay: seq<string> := ["morning", "afternoon", "evening", "night"]

  /** The four buckets partition the day: every hour falls in exactly one of them. */
  lemma TimeOfDayPartition(hour: int)
    requires 0 <= hour < 24
    ensures exists b :: b in TimesOfDay && TimeOfDayKeeps(Some(b), hour)
    ensures forall b1, b2 :: b1 in TimesOfDay && b2 in TimesOfDay && b1 != b2 ==>
      !(TimeOfDayKeeps(Some(b1), hour) && TimeOfDayKeeps(Some(b2), hour))
  {
    if 6 <= hour < 12 {
      assert TimeOfDayKeeps(Some(TimesOfDay[0]), hour);
    } else if 12 <= hour < 17 {
      assert TimeOfDayKeeps(Some(TimesOfDay[1]), hour);
    } else if 17 <= hour < 22 {
      assert TimeOfDayKeeps(Some(TimesOfDay[2]), hour);
    } else {
      assert TimeOfDayKeeps(Some(TimesOfDay[3]), hour);
    }
  }

  /** An unknown bucket name filters nothing. */
  lemma TimeOfDayUnknown(timeOfDay: string, hour: int)
    requires timeOfDay !in TimesOfDay
    ensures TimeOfDayKeeps(Some(timeOfDay), hour)
  {
  }

  /** Python's `weekday()` of a start time: 0 is Monday, ..., 6 Sunday (1970-01-01 was a
      Thursday). */
  function PythonWeekday(t: int): (w: int)
    ensures 0 <= w <= 6
  {
    (t / SecondsPerDay + 3) % 7
  }

  /** Django's `__week_day` of a start time: the same day numbered from 1 = Sunday, 2 = Monday
      to 7 = Saturday. */
  function DjangoWeekDay(t: int): (w: int)
    ensures 1 <= w <= 7
    ensures PythonWeekday(t) == 0 ==> w == 2
    ensures PythonWeekday(t) == 6 ==> w == 1
  {
    (PythonWeekday(t) + 1) % 7 + 1
  }

  /** The `week_day` value the `day_of_week` filter passes, as written: the parsed number plus
      one; `None` when the parameter is missing, empty or not an integer (no filter). */
  function DayOfWeekFilterAsWritten(dayOfWeek: Option<string>): (w: Option<int>)
    ensures w.Some? ==> Given(dayOfWeek) && ParseInt(dayOfWeek.value) == Some(w.value - 1)
  {
    if !Given(dayOfWeek) then None
    else match ParseInt(dayOfWeek.value)
      case None => None
      case Some(n) => Some(n + 1)
  }

  /** A session passes a `week_day` filter when its Django week day is the one filtered on. */
  predicate WeekDayKeeps(filter: Option<int>, t: int) {
    filter.None? || DjangoWeekDay(t) == filter.value
  }

  /** Django's number of the day with Python weekday `p` is `n + 1` exactly when `p` is the
      day before `n`, and is `(n + 1) % 7 + 1` exactly when `p` is `n`. */
  lemma WeekdayShift(p: int, n: int)
    requires 0 <= p <= 6 && 0 <= n <= 6
    ensures (p + 1) % 7 + 1 == n + 1 <==> p == (n + 6) % 7
    ensures (p + 1) % 7 + 1 == (n + 1) % 7 + 1 <==> p == n
  {
  }

  /** As written, the number n (0 = Monday by the parameter's own convention) selects the
      sessions of the day before: "0" selects Sundays, "1" Mondays. */
  lemma DayOfWeekAsWrittenOffByOne(n: int, t: int)
    requires 0 <= n <= 6
    ensures WeekDayKeeps(DayOfWeekFilterAsWritten(Some(IntToString(n))), t) <==> PythonWeekday(t) == (n + 6) % 7
  {
    DayOfWeekFiltersOfNumber(n);
    WeekdayShift(PythonWeekday(t), n);
  }

  /** The counterexample: on Monday 1970-01-05 a session is not selected by "0", the
      parameter's own number for Monday. */
  lemma DayOfWeekMondayNotSelected()
    ensures PythonWeekday(4 * SecondsPerDay) == 0
    ensures !WeekDayKeeps(DayOfWeekFilterAsWritten(Some("0")), 4 * SecondsPerDay)
  {
    ParseIntToString(0);
    assert IntToString(0) == "0";
  }

  /** The `week_day` value for the parameter's convention (0 = Monday ... 6 = Sunday): Django's
      number of that day; a number outside 0 to 6 still matches no day. */
  function DayOfWeekFilter(dayOfWeek: Option<string>): (w: Option<int>)
    ensures w.None? <==> !Given(dayOfWeek) || ParseInt(dayOfWeek.value).None?
  {
    if !Given(dayOfWeek) then None
    else match ParseInt(dayOfWeek.value)
      case None => None
      case Some(n) => Some(DjangoNumber(n))
  }

  /** Django's number of the day the parameter numbers n; n + 1, which matches no day, for a
      number outside 0 to 6. */
  function DjangoNumber(n: int): int {
    if 0 <= n <= 6 then (n + 1) % 7 + 1 else n + 1
  }

  /** With the corrected mapping the number n selects exactly the sessions whose weekday is n,
      and a number outside 0 to 6 selects none. */
  lemma DayOfWeekSelectsThatDay(n: int, t: int)
    ensures WeekDayKeeps(DayOfWeekFilter(Some(IntToString(n))), t) <==> PythonWeekday(t) == n
  {
    DayOfWeekFiltersOfNumber(n);
    if 0 <= n <= 6 {
      WeekdayShift(PythonWeekday(t), n);
    }
  }

  /** What both mappings make of the rendered number n. */
  lemma DayOfWeekFiltersOfNumber(n: int)
    ensures DayOfWeekFilterAsWritten(Some(IntToString(n))) == Some(n + 1)
    ensures DayOfWeekFilter(Some(IntToString(n))) == Some(DjangoNumber(n))
  {
    ParseIntToString(n);
    assert Given(Some(IntToString(n)));
  }

  // ---------------------------------------------------------------------------------------
  // The analytics views' reporting period

  /** The number of days the `period` parameter covers ('month' when it is missing). */
  function PeriodDays(period: Option<string>): (days: nat)
    ensures days in {7, 30, 365}
    ensures days == 7 <==> period == Some("week")
    ensures days == 365 <==> period == Some("year")
  {
    var p := period.GetOr("month");
    if p == "week" then 7
    else if p == "month" then 30
    else if p == "year" then 365
    else 30
  }

  /** The start of the reporting window at time `now`. */
  function PeriodStart(period: Option<string>, now: int): (start: int)
    ensures now - start == PeriodDays(period) * SecondsPerDay
  {
    now - PeriodDays(period) * SecondsPerDay
  }

  /** A missing period, "month" and any unrecognised value all mean the last 30 days. */
  lemma PeriodDefaultsToMonth(period: Option<string>, now: int)
    requires period != Some("week") && period != Some("year")
    ensures PeriodStart(period, now) == PeriodStart(None, now) == now - 30 * SecondsPerDay
  {
  }
}
