// The XMLTV guide built from the scraped events (peacock_07_1.py:131-201):
// seven channels, greedy first-fit placement of the events in order of
// start, and per channel a timeline from now to 04:00 tomorrow in which
// "Signed Off" filler covers every gap, with a numbered text listing of
// the real programmes.
module EpgGuide {
  import opened Options
  import opened Text
  import opened Calendar
  import opened EpgEvents

  const MaxChannels: nat := 7
  const EndHour: int := 4

  /** The elements appended to the `tv` root: channels and programmes. */
  datatype Element =
    | ChannelElement(id: string, displayName: string)
    | Programme(start: int, stop: int, channel: string, title: string)

  /** One entry of the `channels` list: its id and the events placed on it. */
  datatype Channel = Channel(id: string, schedule: seq<Event>)

  function ChannelId(index: nat): string
  {
    "peacocksports" + Decimal(index)
  }

  function DisplayName(index: nat): string
  {
    "Peacock Sports " + Decimal(index)
  }

  /** Different indices give different channel ids. */
  lemma ChannelIdsDistinct(i: nat, j: nat)
    requires i != j
    ensures ChannelId(i) != ChannelId(j)
  {
    var p := "peacocksports";
    assert Decimal(i) == ChannelId(i)[|p|..];
    assert Decimal(j) == ChannelId(j)[|p|..];
  }

  /** The channels `add_channel(1)` … `add_channel(n)` append, in order. */
  function FreshChannels(n: nat): (r: seq<Channel>)
    ensures |r| == n
  {
    seq(n, k requires 0 <= k < n => Channel(ChannelId(k + 1), []))
  }

  /** The `<channel>` elements `add_channel(1)` … `add_channel(n)` append, in order. */
  function ChannelElements(n: nat): (r: seq<Element>)
    ensures |r| == n
  {
    seq(n, k requires 0 <= k < n => ChannelElement(ChannelId(k + 1), DisplayName(k + 1)))
  }

  lemma FreshChannelsGrow(n: nat)
    ensures FreshChannels(n + 1) == FreshChannels(n) + [Channel(ChannelId(n + 1), [])]
    ensures ChannelElements(n + 1) == ChannelElements(n) + [ChannelElement(ChannelId(n + 1), DisplayName(n + 1))]
  {
    assert FreshChannels(n + 1)[..n] == FreshChannels(n);
    assert ChannelElements(n + 1)[..n] == ChannelElements(n);
  }

  /**
   * The seven channels have the ids peacocksports1 … peacocksports7, no
   * two the same, and start with empty schedules.
   */
  lemma FreshChannelsDistinct(n: nat)
    ensures forall k :: 0 <= k < n ==> FreshChannels(n)[k].id == ChannelId(k + 1) && FreshChannels(n)[k].schedule == []
    ensures forall j, k :: 0 <= j < k < n ==> FreshChannels(n)[j].id != FreshChannels(n)[k].id
  {
    var initial := FreshChannels(n);
    forall k | 0 <= k < n
      ensures initial[k].id == ChannelId(k + 1) && initial[k].schedule == []
    {
    }
    forall j, k | 0 <= j < k < n
      ensures initial[j].id != initial[k].id
    {
      ChannelIdsDistinct(j + 1, k + 1);
    }
  }

  // ---------------------------------------------------------------------
  // Sorting by start: `sorted(..., key=lambda x: x["start"])`, which is stable

  predicate Sorted(s: seq<Event>)
  {
    forall i, j :: 0 <= i < j < |s| ==> s[i].start <= s[j].start
  }

  /** Inserts `e` after every element whose start is not later than its own. */
  function InsertByStart(s: seq<Event>, e: Event): (r: seq<Event>)
    ensures |r| == |s| + 1
    ensures multiset(r) == multiset(s) + multiset{e}
  {
    if s == [] || s[|s| - 1].start <= e.start then s + [e]
    else
      assert s == s[..|s| - 1] + [s[|s| - 1]];
      InsertByStart(s[..|s| - 1], e) + [s[|s| - 1]]
  }

  function SortByStart(s: seq<Event>): (r: seq<Event>)
    ensures |r| == |s|
    ensures multiset(r) == multiset(s)
  {
    if s == [] then []
    else
      assert s == s[..|s| - 1] + [s[|s| - 1]];
      InsertByStart(SortByStart(s[..|s| - 1]), s[|s| - 1])
  }

  /** An event starting no earlier than every event of a sorted sequence may follow them. */
  lemma SortedSnoc(s: seq<Event>, e: Event)
    requires Sorted(s)
    requires forall x :: x in s ==> x.start <= e.start
    ensures Sorted(s + [e])
  {
    var r := s + [e];
    forall i, j | 0 <= i < j < |r|
      ensures r[i].start <= r[j].start
    {
      if j == |s| {
        assert r[i] == s[i] && s[i] in s;
      }
    }
  }

  lemma {:induction false} InsertKeepsSorted(s: seq<Event>, e: Event)
    requires Sorted(s)
    ensures Sorted(InsertByStart(s, e))
  {
    if s == [] || s[|s| - 1].start <= e.start {
      assert InsertByStart(s, e) == s + [e];
      forall x | x in s
        ensures x.start <= e.start
      {
        var k :| 0 <= k < |s| && s[k] == x;
        assert s[k].start <= s[|s| - 1].start;
      }
      SortedSnoc(s, e);
    } else {
      var init, last := s[..|s| - 1], s[|s| - 1];
      SortedPrefix(s);
      InsertKeepsSorted(init, e);
      var r := InsertByStart(init, e);
      assert InsertByStart(s, e) == r + [last];
      assert multiset(r) == multiset(init) + multiset{e};
      forall x | x in r
        ensures x.start <= last.start
      {
        assert x in multiset(r);
        if x != e {
          assert x in multiset(init);
          var k :| 0 <= k < |init| && init[k] == x;
          assert s[k] == x;
        }
      }
      SortedSnoc(r, last);
    }
  }

  /** The sort yields its input ordered by start. */
  lemma {:induction false} SortIsSorted(s: seq<Event>)
    ensures Sorted(SortByStart(s))
  {
    if s != [] {
      SortIsSorted(s[..|s| - 1]);
      InsertKeepsSorted(SortByStart(s[..|s| - 1]), s[|s| - 1]);
    }
  }

  lemma SplitLast(s: seq<Event>)
    requires s != []
    ensures s == s[..|s| - 1] + [s[|s| - 1]]
  {
  }

  /** Dropping the last event keeps the order, and the event before it starts no later. */
  lemma SortedPrefix(s: seq<Event>)
    requires s != [] && Sorted(s)
    ensures Sorted(s[..|s| - 1])
    ensures |s| > 1 ==> s[..|s| - 1][|s| - 2].start <= s[|s| - 1].start
  {
  }

  /** Sorting what is already in order changes nothing. */
  lemma {:induction false} SortOfSortedIsIdentity(s: seq<Event>)
    requires Sorted(s)
    ensures SortByStart(s) == s
  {
    if s != [] {
      var init := s[..|s| - 1];
      var last := s[|s| - 1];
      SortedPrefix(s);
      assert SortByStart(s) == InsertByStart(SortByStart(init), last);
      SortOfSortedIsIdentity(init);
      assert InsertByStart(init, last) == init + [last];
      SplitLast(s);
    }
  }

  /** The events of `s` that start at `t`, in their order in `s`. */
  function StartingAt(s: seq<Event>, t: int): (r: seq<Event>)
    ensures forall e :: e in r ==> e.start == t
  {
    if s == [] then []
    else StartingAt(s[..|s| - 1], t) + (if s[|s| - 1].start == t then [s[|s| - 1]] else [])
  }

  lemma {:induction false} StartingAtConcat(a: seq<Event>, b: seq<Event>, t: int)
    ensures StartingAt(a + b, t) == StartingAt(a, t) + StartingAt(b, t)
  {
    if b == [] {
      assert a + b == a;
    } else {
      var front, x := b[..|b| - 1], b[|b| - 1];
      var tail := if x.start == t then [x] else [];
      var ab := a + b;
      ConcatLast(a, b);
      assert StartingAt(ab, t) == StartingAt(a + front, t) + tail;
      assert StartingAt(b, t) == StartingAt(front, t) + tail;
      StartingAtConcat(a, front, t);
      Regroup(StartingAt(a, t), StartingAt(front, t), tail);
    }
  }

  /** Without its last element, `a + b` is `a` and the rest of `b`. */
  lemma ConcatLast<T>(a: seq<T>, b: seq<T>)
    requires b != []
    ensures (a + b)[..|a + b| - 1] == a + b[..|b| - 1] && (a + b)[|a + b| - 1] == b[|b| - 1]
  {
  }

  lemma Regroup<T>(x: seq<T>, y: seq<T>, z: seq<T>)
    ensures x + y + z == x + (y + z)
  {
  }

  lemma StartingAtOne(x: Event, t: int)
    ensures StartingAt([x], t) == if x.start == t then [x] else []
  {
    assert [x][..0] == [];
  }

  lemma {:induction false} InsertKeepsTies(s: seq<Event>, e: Event, t: int)
    ensures StartingAt(InsertByStart(s, e), t) == StartingAt(s + [e], t)
  {
    if s == [] || s[|s| - 1].start <= e.start {
    } else {
      var init := s[..|s| - 1];
      var last := s[|s| - 1];
      var mid := InsertByStart(init, e);
      assert InsertByStart(s, e) == mid + [last];
      assert s == init + [last];
      var one := StartingAt([e], t);
      var other := StartingAt([last], t);
      assert one + other == other + one by {
        StartingAtOne(e, t);
        StartingAtOne(last, t);
      }
      calc {
        StartingAt(mid + [last], t);
        { StartingAtConcat(mid, [last], t); }
        StartingAt(mid, t) + other;
        { InsertKeepsTies(init, e, t); StartingAtConcat(init, [e], t); }
        StartingAt(init, t) + one + other;
        { Regroup(StartingAt(init, t), one, other); Regroup(StartingAt(init, t), other, one); }
        StartingAt(init, t) + other + one;
        { StartingAtConcat(init, [last], t); }
        StartingAt(init + [last], t) + one;
        { StartingAtConcat(init + [last], [e], t); }
        StartingAt(init + [last] + [e], t);
      }
    }
  }

  /** The sort is stable: events with the same start keep their relative order. */
  lemma {:induction false} SortIsStable(s: seq<Event>, t: int)
    ensures StartingAt(SortByStart(s), t) == StartingAt(s, t)
  {
    if s != [] {
      var init, last := s[..|s| - 1], s[|s| - 1];
      var sorted := SortByStart(init);
      assert s == init + [last];
      calc {
        StartingAt(SortByStart(s), t);
        StartingAt(InsertByStart(sorted, last), t);
        { InsertKeepsTies(sorted, last, t); }
        StartingAt(sorted + [last], t);
        { StartingAtConcat(sorted, [last], t); }
        StartingAt(sorted, t) + StartingAt([last], t);
        { SortIsStable(init, t); }
        StartingAt(init, t) + StartingAt([last], t);
        { StartingAtConcat(init, [last], t); }
        StartingAt(s, t);
      }
    }
  }

  // ---------------------------------------------------------------------
  // First-fit placement (peacock_07_1.py:147-159)

  /** `e["end"] <= event["start"] or e["start"] >= event["end"]`: `e` does not overlap `ev`. */
  predicate Disjoint(e: Event, ev: Event)
  {
    e.end <= ev.start || e.start >= ev.end
  }

  /** The channel test: an empty schedule, or one whose every event is disjoint from `ev`. */
  predicate Free(schedule: seq<Event>, ev: Event)
  {
    forall e :: e in schedule ==> Disjoint(e, ev)
  }

  /** Every event of the schedule is disjoint from every one placed after it. */
  predicate NoOverlap(schedule: seq<Event>)
  {
    forall i, j :: 0 <= i < j < |schedule| ==> Disjoint(schedule[i], schedule[j])
  }

  /** The first channel from `k` on whose schedule is free for `ev`. */
  function FirstFitFrom(chs: seq<Channel>, ev: Event, k: nat): (r: Option<nat>)
    requires k <= |chs|
    ensures r.Some? ==> k <= r.value < |chs| && Free(chs[r.value].schedule, ev)
    ensures r.Some? ==> forall j :: k <= j < r.value ==> !Free(chs[j].schedule, ev)
    ensures r.None? <==> forall j :: k <= j < |chs| ==> !Free(chs[j].schedule, ev)
    decreases |chs| - k
  {
    if k == |chs| then None
    else if Free(chs[k].schedule, ev) then Some(k)
    else FirstFitFrom(chs, ev, k + 1)
  }

  function FirstFit(chs: seq<Channel>, ev: Event): Option<nat>
  {
    FirstFitFrom(chs, ev, 0)
  }

  /** The channels after `ev` is appended to the first free one, or unchanged when none is free. */
  function Placed(chs: seq<Channel>, ev: Event): (r: seq<Channel>)
    ensures |r| == |chs|
    ensures forall j :: 0 <= j < |chs| ==> r[j].id == chs[j].id
  {
    match FirstFit(chs, ev)
    case None => chs
    case Some(i) => chs[i := chs[i].(schedule := chs[i].schedule + [ev])]
  }

  /**
   * A channel that placement changed got `ev` appended, was free for it,
   * and every channel before it was not; no other channel changed.
   */
  lemma PlacedChangesFirstFreeOnly(chs: seq<Channel>, ev: Event, j: nat)
    requires j < |chs| && Placed(chs, ev)[j] != chs[j]
    ensures Placed(chs, ev)[j].schedule == chs[j].schedule + [ev]
    ensures Free(chs[j].schedule, ev)
    ensures forall k :: 0 <= k < j ==> !Free(chs[k].schedule, ev) && Placed(chs, ev)[k] == chs[k]
    ensures forall k :: j < k < |chs| ==> Placed(chs, ev)[k] == chs[k]
  {
  }

  /** Placement changes something exactly when some channel is free for `ev`. */
  lemma PlacedIffSomeFree(chs: seq<Channel>, ev: Event)
    ensures Placed(chs, ev) != chs <==> exists j :: 0 <= j < |chs| && Free(chs[j].schedule, ev)
  {
    if i :| 0 <= i < |chs| && Free(chs[i].schedule, ev) {
      var r := Placed(chs, ev);
      var f := FirstFit(chs, ev).value;
      assert |r[f].schedule| == |chs[f].schedule| + 1;
    }
  }

  /** Appending only to a free channel keeps every schedule free of overlaps. */
  lemma PlacedKeepsNoOverlap(chs: seq<Channel>, ev: Event)
    requires forall c :: c in chs ==> NoOverlap(c.schedule)
    ensures forall c :: c in Placed(chs, ev) ==> NoOverlap(c.schedule)
  {
    if FirstFit(chs, ev).Some? {
      var i := FirstFit(chs, ev).value;
      var s := chs[i].schedule;
      assert chs[i] in chs;
      forall a, b | 0 <= a < b < |s + [ev]|
        ensures Disjoint((s + [ev])[a], (s + [ev])[b])
      {
        if b == |s| {
          assert s[a] in s;
        }
      }
      assert NoOverlap((s + [ev]));
    }
  }

  /** All the events on the channels, channel after channel. */
  function AllEvents(chs: seq<Channel>): seq<Event>
  {
    if chs == [] then [] else AllEvents(chs[..|chs| - 1]) + chs[|chs| - 1].schedule
  }

  /** Replacing channel `i` trades its events for the new channel's. */
  lemma {:induction false} AllEventsOfUpdate(chs: seq<Channel>, i: nat, c: Channel)
    requires i < |chs|
    ensures multiset(AllEvents(chs[i := c])) + multiset(chs[i].schedule) ==
              multiset(AllEvents(chs)) + multiset(c.schedule)
  {
    var n := |chs| - 1;
    var u := chs[i := c];
    var front := chs[..n];
    assert AllEvents(u) == AllEvents(u[..n]) + u[n].schedule;
    assert AllEvents(chs) == AllEvents(front) + chs[n].schedule;
    if i == n {
      assert u[..n] == front;
    } else {
      assert u[..n] == front[i := c] && u[n] == chs[n];
      assert chs[i] == front[i];
      AllEventsOfUpdate(front, i, c);
      SwapInSum(multiset(AllEvents(u[..n])), multiset(AllEvents(front)),
                multiset(chs[i].schedule), multiset(c.schedule), multiset(chs[n].schedule));
    }
  }

  /** A trade that balances still balances with the same `z` added to both sides. */
  lemma SwapInSum<T>(after: multiset<T>, before: multiset<T>, x: multiset<T>, y: multiset<T>, z: multiset<T>)
    requires after + x == before + y
    ensures after + z + x == before + z + y
  {
    forall e
      ensures (after + z + x)[e] == (before + z + y)[e]
    {
      assert (after + x)[e] == (before + y)[e];
    }
  }

  lemma {:induction false} AllEventsIncludes(chs: seq<Channel>, i: nat)
    requires i < |chs|
    ensures multiset(chs[i].schedule) <= multiset(AllEvents(chs))
  {
    if i < |chs| - 1 {
      assert chs[i] == chs[..|chs| - 1][i];
      AllEventsIncludes(chs[..|chs| - 1], i);
    }
  }

  /** Placement adds `ev` to exactly one channel when it is placed, and loses nothing. */
  lemma PlacedAddsOnce(chs: seq<Channel>, ev: Event)
    ensures multiset(AllEvents(Placed(chs, ev))) ==
              multiset(AllEvents(chs)) + (if Placed(chs, ev) != chs then multiset{ev} else multiset{})
  {
    match FirstFit(chs, ev)
    case None =>
    case Some(i) =>
      var c := chs[i].(schedule := chs[i].schedule + [ev]);
      AllEventsOfUpdate(chs, i, c);
      var after, was, x := multiset(AllEvents(chs[i := c])), multiset(AllEvents(chs)), multiset(chs[i].schedule);
      assert multiset(c.schedule) == x + multiset{ev};
      assert after + x == was + multiset{ev} + x;
      forall e
        ensures after[e] == (was + multiset{ev})[e]
      {
        assert (after + x)[e] == (was + multiset{ev} + x)[e];
      }
      assert after == was + multiset{ev};
      assert |c.schedule| == |chs[i].schedule| + 1;
      assert Placed(chs, ev)[i] != chs[i];
  }

  /** Placement keeps every event and adds at most `ev`. */
  lemma PlacedBounds(chs: seq<Channel>, ev: Event)
    ensures multiset(AllEvents(chs)) <= multiset(AllEvents(Placed(chs, ev)))
    ensures multiset(AllEvents(Placed(chs, ev))) <= multiset(AllEvents(chs)) + multiset{ev}
  {
    PlacedAddsOnce(chs, ev);
    var was, now := multiset(AllEvents(chs)), multiset(AllEvents(Placed(chs, ev)));
    if Placed(chs, ev) != chs {
      assert now == was + multiset{ev};
    } else {
      assert now == was;
    }
  }

  /** The channels after every event of `evs` has been offered in turn. */
  function PlaceAll(chs: seq<Channel>, evs: seq<Event>): (r: seq<Channel>)
    ensures |r| == |chs|
    ensures forall j :: 0 <= j < |chs| ==> r[j].id == chs[j].id
  {
    if evs == [] then chs else Placed(PlaceAll(chs, evs[..|evs| - 1]), evs[|evs| - 1])
  }

  /** Offering one more event places it on the channels the earlier ones left. */
  lemma PlaceAllStep(chs: seq<Channel>, evs: seq<Event>, i: nat)
    requires i < |evs|
    ensures PlaceAll(chs, evs[..i + 1]) == Placed(PlaceAll(chs, evs[..i]), evs[i])
  {
    assert evs[..i + 1][..i] == evs[..i];
  }

  /** Every placed event is one that was offered, each one at most once. */
  lemma {:induction false} PlaceAllAddsOffered(chs: seq<Channel>, evs: seq<Event>)
    ensures multiset(AllEvents(chs)) <= multiset(AllEvents(PlaceAll(chs, evs)))
    ensures multiset(AllEvents(PlaceAll(chs, evs))) <= multiset(AllEvents(chs)) + multiset(evs)
  {
    if evs != [] {
      var init, ev := evs[..|evs| - 1], evs[|evs| - 1];
      var before := PlaceAll(chs, init);
      assert PlaceAll(chs, evs) == Placed(before, ev);
      PlaceAllAddsOffered(chs, init);
      PlacedBounds(before, ev);
      MultisetOfLast(evs);
      BoundsCompose(multiset(AllEvents(chs)), multiset(AllEvents(before)), multiset(AllEvents(Placed(before, ev))),
                    multiset(init), multiset{ev});
    }
  }

  lemma MultisetOfLast(s: seq<Event>)
    requires s != []
    ensures multiset(s) == multiset(s[..|s| - 1]) + multiset{s[|s| - 1]}
  {
    assert s == s[..|s| - 1] + [s[|s| - 1]];
  }

  lemma BoundsCompose(was: multiset<Event>, mid: multiset<Event>, now: multiset<Event>, a: multiset<Event>, b: multiset<Event>)
    requires was <= mid <= was + a
    requires mid <= now <= mid + b
    ensures was <= now <= was + (a + b)
  {
    forall x
      ensures was[x] <= now[x] <= (was + (a + b))[x]
    {
      assert was[x] <= mid[x] <= (was + a)[x];
      assert mid[x] <= now[x] <= (mid + b)[x];
    }
  }

  /** No schedule ever holds two overlapping events. */
  lemma {:induction false} PlaceAllNoOverlap(chs: seq<Channel>, evs: seq<Event>)
    requires forall c :: c in chs ==> NoOverlap(c.schedule)
    ensures forall c :: c in PlaceAll(chs, evs) ==> NoOverlap(c.schedule)
  {
    if evs != [] {
      PlaceAllNoOverlap(chs, evs[..|evs| - 1]);
      PlacedKeepsNoOverlap(PlaceAll(chs, evs[..|evs| - 1]), evs[|evs| - 1]);
    }
  }

  lemma EventOfChannel(chs: seq<Channel>, j: nat, e: Event)
    requires j < |chs| && e in chs[j].schedule
    ensures e in multiset(AllEvents(chs))
  {
    AllEventsIncludes(chs, j);
    assert e in multiset(chs[j].schedule);
  }

  /** Events offered in order of start leave every schedule in order of start. */
  lemma {:induction false} PlaceAllSorted(chs: seq<Channel>, evs: seq<Event>)
    requires forall c :: c in chs ==> c.schedule == []
    requires Sorted(evs)
    ensures forall c :: c in PlaceAll(chs, evs) ==> Sorted(c.schedule)
  {
    if evs != [] {
      var init := evs[..|evs| - 1];
      var ev := evs[|evs| - 1];
      var before := PlaceAll(chs, init);
      PlaceAllSorted(chs, init);
      PlacedEventsOffered(chs, init);
      if FirstFit(before, ev).Some? {
        var i := FirstFit(before, ev).value;
        var s := before[i].schedule;
        assert before[i] in before;
        forall a, b | 0 <= a < b < |s + [ev]|
          ensures (s + [ev])[a].start <= (s + [ev])[b].start
        {
          if b == |s| {
            assert s[a] in s;
            assert s[a] in init;
            var k :| 0 <= k < |init| && init[k] == s[a];
            assert evs[k] == s[a];
          }
        }
        assert Sorted(s + [ev]);
      }
    }
  }

  lemma {:induction false} EmptyChannels(chs: seq<Channel>)
    requires forall c :: c in chs ==> c.schedule == []
    ensures AllEvents(chs) == []
  {
    if chs != [] {
      assert chs[|chs| - 1] in chs;
      EmptyChannels(chs[..|chs| - 1]);
    }
  }

  // ---------------------------------------------------------------------
  // The timeline of one channel (peacock_07_1.py:166-201)

  /** `time_pointer.replace(hour=END_HOUR, minute=0) + timedelta(days=1)`. */
  function EndOfDay(now: int): int
  {
    now / MinutesPerDay * MinutesPerDay + 60 * EndHour + MinutesPerDay
  }

  /** The end of the guide is 04:00 on the day after now, so always after now. */
  lemma EndOfDayIsTomorrowAtFour(now: int)
    requires Representable(now) && Representable(EndOfDay(now))
    ensures now < EndOfDay(now)
    ensures DayNumber(DateAt(EndOfDay(now))) == DayNumber(DateAt(now)) + 1
    ensures HourAt(EndOfDay(now)) == EndHour && MinuteAt(EndOfDay(now)) == 0
  {
  }

  /** What a channel shows over a stretch of time: filler, or one of its events. */
  datatype Entry = SignedOff(from: int, until: int) | Show(event: Event)

  function Begin(x: Entry): int
  {
    match x
    case SignedOff(from, _) => from
    case Show(e) => e.start
  }

  function Finish(x: Entry): int
  {
    match x
    case SignedOff(_, until) => until
    case Show(e) => e.end
  }

  /**
   * The entries emitted for a schedule walked in order from `pointer`:
   * filler up to each event that starts after the pointer, the event, the
   * pointer moved to the event's end; and, once the schedule is done,
   * filler up to `endOfDay` if the pointer is before it.
   */
  function Timeline(schedule: seq<Event>, pointer: int, endOfDay: int): seq<Entry>
    decreases |schedule|
  {
    if schedule == [] then Gap(pointer, endOfDay)
    else Gap(pointer, schedule[0].start) + [Show(schedule[0])] + Timeline(schedule[1..], schedule[0].end, endOfDay)
  }

  /** Filler from the pointer up to `until`, when the pointer is before it. */
  function Gap(pointer: int, until: int): seq<Entry>
  {
    if pointer < until then [SignedOff(pointer, until)] else []
  }

  /**
   * `xs`, taken from `from`, leaves no gap before `to`: each entry begins
   * no later than where the one before it finished; filler begins exactly
   * there, is not empty, and runs exactly to the next event or to `to`;
   * and the last entry finishes no earlier than `to`.
   */
  predicate Covers(xs: seq<Entry>, from: int, to: int)
    decreases |xs|
  {
    if xs == [] then to <= from
    else
      Begin(xs[0]) <= from &&
      (xs[0].SignedOff? ==>
         xs[0].from == from && from < xs[0].until &&
         (if |xs| == 1 then xs[0].until == to else xs[1].Show? && xs[0].until == xs[1].event.start)) &&
      Covers(xs[1..], Finish(xs[0]), to)
  }

  /** The timeline covers the time from the pointer to the end of the guide without a gap. */
  lemma {:induction false} TimelineCovers(schedule: seq<Event>, pointer: int, endOfDay: int)
    ensures Covers(Timeline(schedule, pointer, endOfDay), pointer, endOfDay)
    decreases |schedule|
  {
    if schedule != [] {
      var p := schedule[0];
      var rest := Timeline(schedule[1..], p.end, endOfDay);
      TimelineCovers(schedule[1..], p.end, endOfDay);
      var tail := [Show(p)] + rest;
      assert tail[1..] == rest;
      assert Covers(tail, p.start, endOfDay);
      if p.start > pointer {
        var xs := [SignedOff(pointer, p.start)] + tail;
        assert xs[1..] == tail;
        assert Timeline(schedule, pointer, endOfDay) == xs;
      } else {
        assert Timeline(schedule, pointer, endOfDay) == tail;
      }
    }
  }

  /** The events among the entries, in order. */
  function Shows(xs: seq<Entry>): seq<Event>
    decreases |xs|
  {
    if xs == [] then []
    else (if xs[0].Show? then [xs[0].event] else []) + Shows(xs[1..])
  }

  lemma {:induction false} ShowsConcat(a: seq<Entry>, b: seq<Entry>)
    ensures Shows(a + b) == Shows(a) + Shows(b)
    decreases |a|
  {
    if a == [] {
      assert a + b == b;
    } else {
      var x := a[0];
      var head := if x.Show? then [x.event] else [];
      var ab := a + b;
      assert ab[0] == x && ab[1..] == a[1..] + b;
      assert Shows(ab) == head + Shows(a[1..] + b);
      assert Shows(a) == head + Shows(a[1..]);
      ShowsConcat(a[1..], b);
      assert head + (Shows(a[1..]) + Shows(b)) == (head + Shows(a[1..])) + Shows(b);
    }
  }

  /** The real programmes of the timeline are the schedule, in its order: none dropped, none added. */
  lemma {:induction false} TimelineShowsSchedule(schedule: seq<Event>, pointer: int, endOfDay: int)
    ensures Shows(Timeline(schedule, pointer, endOfDay)) == schedule
    decreases |schedule|
  {
    if schedule != [] {
      var p := schedule[0];
      TimelineShowsSchedule(schedule[1..], p.end, endOfDay);
      GapShowsNothing(pointer, p.start);
      ShowsOfStep(Gap(pointer, p.start), p, Timeline(schedule[1..], p.end, endOfDay));
      assert schedule == [p] + schedule[1..];
    }
  }

  lemma GapShowsNothing(pointer: int, until: int)
    ensures Shows(Gap(pointer, until)) == []
  {
    if pointer < until {
      assert [SignedOff(pointer, until)][1..] == [];
    }
  }

  /** Filler, one event and the rest of a timeline show that event, then what the rest shows. */
  lemma ShowsOfStep(gap: seq<Entry>, p: Event, rest: seq<Entry>)
    requires Shows(gap) == []
    ensures Shows(gap + [Show(p)] + rest) == [p] + Shows(rest)
  {
    ShowsConcat(gap + [Show(p)], rest);
    ShowsConcat(gap, [Show(p)]);
    assert Shows([Show(p)]) == [p] by {
      assert [Show(p)][1..] == [];
    }
  }

  // ---------------------------------------------------------------------
  // Output: programme elements and the text listing

  /** `<programme>` for an entry of a channel; filler is titled "Signed Off". */
  function Render(x: Entry, channel: string): (r: Element)
    ensures r.Programme? && r.start == Begin(x) && r.stop == Finish(x) && r.channel == channel
    ensures r.title == (if x.Show? then x.event.title else "Signed Off")
  {
    match x
    case SignedOff(from, until) => Programme(from, until, channel, "Signed Off")
    case Show(e) => Programme(e.start, e.end, channel, e.title)
  }

  function Rendered(xs: seq<Entry>, channel: string): (r: seq<Element>)
    ensures |r| == |xs|
  {
    if xs == [] then []
    else Rendered(xs[..|xs| - 1], channel) + [Render(xs[|xs| - 1], channel)]
  }

  /** The programme elements of every channel in turn, each timeline running from now. */
  function Programmes(chs: seq<Channel>, now: int): seq<Element>
  {
    if chs == [] then []
    else
      var last := chs[|chs| - 1];
      Programmes(chs[..|chs| - 1], now) + Rendered(Timeline(SortByStart(last.schedule), now, EndOfDay(now)), last.id)
  }

  /** One record of the text file: the event's number, the event, its channel's number. */
  datatype Listed = Listed(number: nat, event: Event, channel: nat)

  /**
   * The first line written for a record: "Event ", the record's number
   * in digits, ": ", the title and the channel's number as " (Channel n)".
   */
  function FirstLine(number: nat, title: string, channel: nat): (r: string)
    ensures var k := |Decimal(number)|;
            |r| > 6 + k && r[..6] == "Event " && r[6 + k] == ':' && r[|r| - 1] == '\n' &&
            (forall i :: 6 <= i < 6 + k ==> IsDigit(r[i])) && Value(r[6..6 + k]) == number &&
            r[6 + k..] == ": " + title + " (Channel " + Decimal(channel) + ")\n"
  {
    var num, mid := Decimal(number), ": " + title + " (Channel " + Decimal(channel) + ")\n";
    NumberThenRest("Event ", num, mid);
    "Event " + num + mid
  }

  /** The second line written for a record: start and end as `%Y-%m-%d %H:%M`, then a blank line. */
  function TimesLine(start: int, end: int): (r: string)
    requires Representable(start) && Representable(end)
    ensures |r| == 37 && r[..16] == ClockText(start) && r[16..19] == " - " && r[19..35] == ClockText(end) && r[35..] == "\n\n"
  {
    var a, b := ClockText(start), ClockText(end);
    var r := a + " - " + b + "\n\n";
    assert r[..16] == a && r[19..35] == b;
    r
  }

  /** The two lines written for a record (peacock_07_1.py:188-189). */
  function ListedText(l: Listed): (r: string)
    requires Representable(l.event.start) && Representable(l.event.end)
    ensures |r| > 37 && r[..|r| - 37] == FirstLine(l.number, l.event.title, l.channel) &&
            r[|r| - 37..] == TimesLine(l.event.start, l.event.end)
  {
    var first, second := FirstLine(l.number, l.event.title, l.channel), TimesLine(l.event.start, l.event.end);
    assert (first + second)[..|first|] == first && (first + second)[|first|..] == second;
    first + second
  }

  /** `p`, a run of digits, then `rest`: where each part sits. */
  lemma NumberThenRest(p: string, num: string, rest: string)
    requires forall i :: 0 <= i < |num| ==> IsDigit(num[i])
    ensures var r := p + num + rest;
            r[..|p|] == p && r[|p|..|p| + |num|] == num && r[|p| + |num|..] == rest &&
            forall i :: |p| <= i < |p| + |num| ==> IsDigit(r[i])
  {
    var r := p + num + rest;
    forall i | |p| <= i < |p| + |num|
      ensures IsDigit(r[i])
    {
      assert r[i] == num[i - |p|];
    }
  }

  /** The written lines determine the whole record: number, title, times and channel. */
  lemma ListedTextDetermines(l: Listed, m: Listed)
    requires Representable(l.event.start) && Representable(l.event.end)
    requires Representable(m.event.start) && Representable(m.event.end)
    requires ListedText(l) == ListedText(m)
    ensures l == m
  {
    var r := ListedText(l);
    var s, t := TimesLine(l.event.start, l.event.end), TimesLine(m.event.start, m.event.end);
    assert s == r[|r| - 37..] == t;
    assert s[..16] == t[..16] && s[19..35] == t[19..35];
    ClockTextInjective(l.event.start, m.event.start);
    ClockTextInjective(l.event.end, m.event.end);
    FirstLineDetermines(l.number, l.event.title, l.channel, m.number, m.event.title, m.channel);
  }

  /** The first line determines the number, the title and the channel. */
  lemma FirstLineDetermines(n: nat, t: string, c: nat, n': nat, t': string, c': nat)
    requires FirstLine(n, t, c) == FirstLine(n', t', c')
    ensures n == n' && t == t' && c == c'
  {
    var r := FirstLine(n, t, c);
    var k, j := |Decimal(n)|, |Decimal(n')|;
    // Each colon ends the other's run of digits, so the runs have one length.
    assert !IsDigit(r[6 + k]) && !IsDigit(r[6 + j]);
    var d, d' := Decimal(c), Decimal(c');
    assert ": " + t + " (Channel " + d + ")\n" == r[6 + k..] == ": " + t' + " (Channel " + d' + ")\n";
    RestOfFirstLine(t, d, t', d');
  }

  /** The title and the channel's digits are read back from the rest of the first line. */
  lemma RestOfFirstLine(t: string, c: string, u: string, d: string)
    requires forall i :: 0 <= i < |c| ==> IsDigit(c[i])
    requires forall i :: 0 <= i < |d| ==> IsDigit(d[i])
    requires ": " + t + " (Channel " + c + ")\n" == ": " + u + " (Channel " + d + ")\n"
    ensures t == u && c == d
  {
    var x, y := ": " + t + " (Channel " + c + ")\n", ": " + u + " (Channel " + d + ")\n";
    assert x[..|x| - 2] == ": " + t + " (Channel " + c;
    assert y[..|y| - 2] == ": " + u + " (Channel " + d;
    DigitRunAfter(": " + t + " (Channel ", c, ": " + u + " (Channel ", d);
    assert (": " + t + " (Channel ")[2..|t| + 2] == t;
    assert (": " + u + " (Channel ")[2..|u| + 2] == u;
  }

  /** A run of digits after a text ending in a non-digit is split off the same way in equal strings. */
  lemma DigitRunAfter(p: string, c: string, q: string, d: string)
    requires |p| > 0 && !IsDigit(p[|p| - 1]) && |q| > 0 && !IsDigit(q[|q| - 1])
    requires forall i :: 0 <= i < |c| ==> IsDigit(c[i])
    requires forall i :: 0 <= i < |d| ==> IsDigit(d[i])
    requires p + c == q + d
    ensures p == q && c == d
  {
    var x := p + c;
    assert x[|p| - 1] == p[|p| - 1];
    assert x[|q| - 1] == q[|q| - 1];
    forall i | |p| <= i < |x|
      ensures IsDigit(x[i])
    {
      assert x[i] == c[i - |p|];
    }
    forall i | |q| <= i < |x|
      ensures IsDigit(x[i])
    {
      assert x[i] == d[i - |q|];
    }
    assert |p| == |q|;
    assert p == x[..|p|] && c == x[|p|..];
    assert q == x[..|q|] && d == x[|q|..];
  }

  /** The listing of one channel's events, numbered on from `first`. */
  function ChannelListing(schedule: seq<Event>, first: nat, channel: nat): (r: seq<Listed>)
    ensures |r| == |schedule|
    decreases |schedule|
  {
    if schedule == [] then []
    else [Listed(first, schedule[0], channel)] + ChannelListing(schedule[1..], first + 1, channel)
  }

  /** The `k`-th record of a channel's listing is its `k`-th event, numbered `first + k`. */
  lemma {:induction false} ChannelListingRecords(schedule: seq<Event>, first: nat, channel: nat)
    ensures forall k :: 0 <= k < |schedule| ==>
              ChannelListing(schedule, first, channel)[k] == Listed(first + k, schedule[k], channel)
    decreases |schedule|
  {
    if schedule != [] {
      ChannelListingRecords(schedule[1..], first + 1, channel);
    }
  }

  /** The listing of all channels, channel `i` (from 1) carrying the events of `chs[i - 1]`. */
  function Listing(chs: seq<Channel>): seq<Listed>
  {
    if chs == [] then []
    else
      var before := Listing(chs[..|chs| - 1]);
      before + ChannelListing(SortByStart(chs[|chs| - 1].schedule), |before| + 1, |chs|)
  }

  /** One record for every event on the channels. */
  lemma {:induction false} ListingLength(chs: seq<Channel>)
    ensures |Listing(chs)| == |AllEvents(chs)|
  {
    if chs != [] {
      ListingLength(chs[..|chs| - 1]);
    }
  }

  /** The listing numbers the events 1, 2, 3, … with no gap and no repeat. */
  lemma {:induction false} ListingNumbered(chs: seq<Channel>)
    ensures forall k :: 0 <= k < |Listing(chs)| ==> Listing(chs)[k].number == k + 1
  {
    if chs != [] {
      var init := chs[..|chs| - 1];
      ListingNumbered(init);
      var before := Listing(init);
      var s := SortByStart(chs[|chs| - 1].schedule);
      var added := ChannelListing(s, |before| + 1, |chs|);
      ChannelListingRecords(s, |before| + 1, |chs|);
      assert Listing(chs) == before + added;
      forall k | 0 <= k < |Listing(chs)|
        ensures Listing(chs)[k].number == k + 1
      {
        if k >= |before| {
          assert Listing(chs)[k] == added[k - |before|];
        }
      }
    }
  }

  /** The records go channel by channel, from channel 1 to channel `|chs|`. */
  lemma {:induction false} ListingByChannel(chs: seq<Channel>)
    ensures forall k :: 0 <= k < |Listing(chs)| ==> 1 <= Listing(chs)[k].channel <= |chs|
    ensures forall j, k :: 0 <= j < k < |Listing(chs)| ==> Listing(chs)[j].channel <= Listing(chs)[k].channel
  {
    if chs != [] {
      var init := chs[..|chs| - 1];
      ListingByChannel(init);
      var before := Listing(init);
      var s := SortByStart(chs[|chs| - 1].schedule);
      var added := ChannelListing(s, |before| + 1, |chs|);
      ChannelListingRecords(s, |before| + 1, |chs|);
      var l := Listing(chs);
      assert l == before + added;
      assert forall k :: |before| <= k < |l| ==> l[k].channel == |chs| by {
        forall k | |before| <= k < |l|
          ensures l[k].channel == |chs|
        {
          assert l[k] == added[k - |before|];
        }
      }
      assert forall k :: 0 <= k < |before| ==> l[k] == before[k];
    }
  }

  // ---------------------------------------------------------------------
  // Every instant written is one a datetime holds

  predicate TimedEvents(s: seq<Event>)
  {
    forall e :: e in s ==> Representable(e.start) && Representable(e.end)
  }

  predicate TimedChannels(chs: seq<Channel>)
  {
    forall c :: c in chs ==> TimedEvents(c.schedule)
  }

  lemma SortKeepsTimed(s: seq<Event>)
    requires TimedEvents(s)
    ensures TimedEvents(SortByStart(s))
  {
    forall e | e in SortByStart(s)
      ensures Representable(e.start) && Representable(e.end)
    {
      assert e in multiset(SortByStart(s));
    }
  }

  lemma {:induction false} TimelineTimed(schedule: seq<Event>, pointer: int, endOfDay: int)
    requires TimedEvents(schedule) && Representable(pointer) && Representable(endOfDay)
    ensures forall x :: x in Timeline(schedule, pointer, endOfDay) ==> Representable(Begin(x)) && Representable(Finish(x))
    decreases |schedule|
  {
    if schedule != [] {
      var p := schedule[0];
      assert p in schedule;
      assert TimedEvents(schedule[1..]) by {
        forall e | e in schedule[1..] ensures e in schedule { }
      }
      TimelineTimed(schedule[1..], p.end, endOfDay);
    }
  }

  lemma {:induction false} RenderedTimed(xs: seq<Entry>, channel: string)
    requires forall x :: x in xs ==> Representable(Begin(x)) && Representable(Finish(x))
    ensures forall e :: e in Rendered(xs, channel) ==> e.Programme? && Representable(e.start) && Representable(e.stop)
  {
    if xs != [] {
      assert xs[|xs| - 1] in xs;
      assert forall x :: x in xs[..|xs| - 1] ==> x in xs;
      RenderedTimed(xs[..|xs| - 1], channel);
    }
  }

  /** Every programme of timed channels has a start and stop strftime can write. */
  lemma {:induction false} ProgrammesTimed(chs: seq<Channel>, now: int)
    requires Representable(now) && Representable(EndOfDay(now)) && TimedChannels(chs)
    ensures forall e :: e in Programmes(chs, now) ==> e.Programme? && Representable(e.start) && Representable(e.stop)
  {
    if chs != [] {
      var last := chs[|chs| - 1];
      assert last in chs;
      assert TimedChannels(chs[..|chs| - 1]) by {
        forall c | c in chs[..|chs| - 1] ensures c in chs { }
      }
      ProgrammesTimed(chs[..|chs| - 1], now);
      SortKeepsTimed(last.schedule);
      TimelineTimed(SortByStart(last.schedule), now, EndOfDay(now));
      RenderedTimed(Timeline(SortByStart(last.schedule), now, EndOfDay(now)), last.id);
    }
  }

  /** Every record of a channel's listing is one of its events. */
  lemma {:induction false} ChannelListingEvents(schedule: seq<Event>, first: nat, channel: nat)
    ensures forall l :: l in ChannelListing(schedule, first, channel) ==> l.event in schedule
    decreases |schedule|
  {
    if schedule != [] {
      ChannelListingEvents(schedule[1..], first + 1, channel);
      assert forall e :: e in schedule[1..] ==> e in schedule;
    }
  }

  /** Every record of the listing of timed channels has times strftime can write. */
  lemma {:induction false} ListingTimed(chs: seq<Channel>)
    requires TimedChannels(chs)
    ensures forall l :: l in Listing(chs) ==> Representable(l.event.start) && Representable(l.event.end)
  {
    if chs != [] {
      var last := chs[|chs| - 1];
      assert last in chs;
      assert TimedChannels(chs[..|chs| - 1]) by {
        forall c | c in chs[..|chs| - 1] ensures c in chs { }
      }
      ListingTimed(chs[..|chs| - 1]);
      SortKeepsTimed(last.schedule);
      ChannelListingEvents(SortByStart(last.schedule), |Listing(chs[..|chs| - 1])| + 1, |chs|);
    }
  }

  lemma {:induction false} RenderedConcat(xs: seq<Entry>, ys: seq<Entry>, channel: string)
    ensures Rendered(xs + ys, channel) == Rendered(xs, channel) + Rendered(ys, channel)
    decreases |ys|
  {
    if ys == [] {
      assert xs + ys == xs;
    } else {
      var init := ys[..|ys| - 1];
      var last := Render(ys[|ys| - 1], channel);
      var all := xs + ys;
      ConcatLast(xs, ys);
      RenderedConcat(xs, init, channel);
      assert Rendered(all, channel) == Rendered(xs + init, channel) + [last];
      assert Rendered(ys, channel) == Rendered(init, channel) + [last];
      Regroup(Rendered(xs, channel), Rendered(init, channel), [last]);
    }
  }

  /** One more event of the schedule walked: its filler and itself join what was emitted. */
  lemma TimelineAdvance(out: seq<Entry>, rest: seq<Event>, pointer: int, endOfDay: int, whole: seq<Entry>)
    requires rest != [] && out + Timeline(rest, pointer, endOfDay) == whole
    ensures (out + (Gap(pointer, rest[0].start) + [Show(rest[0])])) + Timeline(rest[1..], rest[0].end, endOfDay) == whole
  {
    var step := Gap(pointer, rest[0].start) + [Show(rest[0])];
    assert Timeline(rest, pointer, endOfDay) == step + Timeline(rest[1..], rest[0].end, endOfDay);
    Regroup(out, step, Timeline(rest[1..], rest[0].end, endOfDay));
  }

  lemma TimelineCloses(out: seq<Entry>, pointer: int, endOfDay: int, whole: seq<Entry>)
    requires out + Timeline([], pointer, endOfDay) == whole
    ensures out + Gap(pointer, endOfDay) == whole
  {
  }

  lemma RenderedAdvance(base: seq<Element>, out: seq<Entry>, step: seq<Entry>, channel: string)
    ensures base + Rendered(out, channel) + Rendered(step, channel) == base + Rendered(out + step, channel)
  {
    RenderedConcat(out, step, channel);
  }

  lemma ListingAdvance(written: seq<Listed>, rest: seq<Event>, next: nat, channel: nat, total: seq<Listed>)
    requires rest != [] && written + ChannelListing(rest, next, channel) == total
    ensures (written + [Listed(next, rest[0], channel)]) + ChannelListing(rest[1..], next + 1, channel) == total
  {
  }

  /** One more channel emitted: its programmes follow those of the channels before it. */
  lemma ProgrammesAdvance(base: seq<Element>, chs: seq<Channel>, c: nat, now: int)
    requires c < |chs|
    ensures base + Programmes(chs[..c], now) +
              Rendered(Timeline(SortByStart(chs[c].schedule), now, EndOfDay(now)), chs[c].id) ==
            base + Programmes(chs[..c + 1], now)
  {
    var upto := chs[..c + 1];
    assert upto[..c] == chs[..c] && upto[c] == chs[c];
    var before := Programmes(chs[..c], now);
    var added := Rendered(Timeline(SortByStart(chs[c].schedule), now, EndOfDay(now)), chs[c].id);
    assert Programmes(upto, now) == before + added;
    assert base + before + added == base + (before + added);
  }

  /** One more channel emitted: its records, numbered on, follow those of the channels before it. */
  lemma ListingAdvanceChannel(base: seq<Listed>, chs: seq<Channel>, c: nat)
    requires c < |chs|
    ensures base + Listing(chs[..c]) +
              ChannelListing(SortByStart(chs[c].schedule), |Listing(chs[..c])| + 1, c + 1) ==
            base + Listing(chs[..c + 1])
  {
    var upto := chs[..c + 1];
    assert upto[..c] == chs[..c] && upto[c] == chs[c];
    var before := Listing(chs[..c]);
    var added := ChannelListing(SortByStart(chs[c].schedule), |before| + 1, c + 1);
    assert Listing(upto) == before + added;
    assert base + before + added == base + (before + added);
  }

  // ---------------------------------------------------------------------
  // The guide under construction: the `tv` root, `channels`, the text file

  class Guide {
    var tv: seq<Element>
    var channels: seq<Channel>
    var txt: seq<Listed>

    constructor ()
      ensures tv == [] && channels == [] && txt == []
    {
      tv := [];
      channels := [];
      txt := [];
    }

    /** `add_channel(index)`: a `<channel>` element and an empty schedule for it. */
    method AddChannel(index: nat) returns (ch: Channel)
      modifies this
      ensures ch == Channel(ChannelId(index), [])
      ensures tv == old(tv) + [ChannelElement(ChannelId(index), DisplayName(index))]
      ensures channels == old(channels) + [ch]
      ensures txt == old(txt)
    {
      tv := tv + [ChannelElement(ChannelId(index), DisplayName(index))];
      ch := Channel(ChannelId(index), []);
      channels := channels + [ch];
    }

    /** `for idx in range(1, MAX_CHANNELS + 1): add_channel(idx)`. */
    method AddChannels()
      modifies this
      ensures tv == old(tv) + ChannelElements(MaxChannels)
      ensures channels == old(channels) + FreshChannels(MaxChannels)
      ensures txt == old(txt)
    {
      var idx := 1;
      while idx <= MaxChannels
        invariant 1 <= idx <= MaxChannels + 1
        invariant tv == old(tv) + ChannelElements(idx - 1)
        invariant channels == old(channels) + FreshChannels(idx - 1)
        invariant txt == old(txt)
      {
        FreshChannelsGrow(idx - 1);
        var _ := AddChannel(idx);
        idx := idx + 1;
      }
    }

    /** One round of the placement loop: `ev` goes to the first free channel, if any. */
    method Place(ev: Event) returns (placed: bool)
      modifies this
      ensures channels == Placed(old(channels), ev)
      ensures placed <==> exists j :: 0 <= j < |old(channels)| && Free(old(channels)[j].schedule, ev)
      ensures tv == old(tv) && txt == old(txt)
    {
      placed := false;
      var i := 0;
      while i < |channels|
        invariant 0 <= i <= |channels| && channels == old(channels)
        invariant FirstFitFrom(channels, ev, 0) == FirstFitFrom(channels, ev, i)
        invariant forall j :: 0 <= j < i ==> !Free(channels[j].schedule, ev)
      {
        if channels[i].schedule == [] || forall e :: e in channels[i].schedule ==> Disjoint(e, ev) {
          channels := channels[i := channels[i].(schedule := channels[i].schedule + [ev])];
          placed := true;
          break;
        }
        i := i + 1;
      }
    }

    /** The placement loop over the events in order of start. */
    method PlaceEvents(events: seq<Event>)
      modifies this
      ensures channels == PlaceAll(old(channels), SortByStart(events))
      ensures tv == old(tv) && txt == old(txt)
    {
      var sorted := SortByStart(events);
      var i := 0;
      while i < |sorted|
        invariant 0 <= i <= |sorted|
        invariant channels == PlaceAll(old(channels), sorted[..i])
        invariant tv == old(tv) && txt == old(txt)
      {
        PlaceAllStep(old(channels), sorted, i);
        var _ := Place(sorted[i]);
        i := i + 1;
      }
      assert sorted[..i] == sorted;
    }

    /**
     * One pass of the inner loop: the "Signed Off" filler before `prog`
     * when it starts after the pointer, then `prog` itself, and its
     * numbered record in the text file.
     */
    method EmitProgramme(id: string, index: nat, prog: Event, pointer: int, number: nat)
      modifies this
      ensures tv == old(tv) + Rendered(Gap(pointer, prog.start) + [Show(prog)], id)
      ensures txt == old(txt) + [Listed(number, prog, index)]
      ensures channels == old(channels)
    {
      if prog.start > pointer {
        tv := tv + [Render(SignedOff(pointer, prog.start), id)];
      }
      tv := tv + [Render(Show(prog), id)];
      txt := txt + [Listed(number, prog, index)];
      assert Gap(pointer, prog.start) + [Show(prog)] == (if prog.start > pointer then [SignedOff(pointer, prog.start), Show(prog)] else [Show(prog)]);
    }

    /** After the last event: "Signed Off" filler up to the end of the guide, if the pointer is before it. */
    method EmitClosing(id: string, pointer: int, endOfDay: int)
      modifies this
      ensures tv == old(tv) + Rendered(Gap(pointer, endOfDay), id)
      ensures txt == old(txt) && channels == old(channels)
    {
      if pointer < endOfDay {
        tv := tv + [Render(SignedOff(pointer, endOfDay), id)];
      }
      assert Rendered([SignedOff(pointer, endOfDay)], id) == [Render(SignedOff(pointer, endOfDay), id)];
    }

    /** EmitProgramme for the first event of `rest`, seen as one more step of the channel's timeline and listing. */
    method EmitNext(id: string, index: nat, rest: seq<Event>, pointer: int, next: nat,
                    ghost out: seq<Entry>, ghost base: seq<Element>, ghost total: seq<Listed>)
      requires rest != []
      requires tv == base + Rendered(out, id)
      requires txt + ChannelListing(rest, next, index) == total
      modifies this
      ensures tv == base + Rendered(out + (Gap(pointer, rest[0].start) + [Show(rest[0])]), id)
      ensures txt + ChannelListing(rest[1..], next + 1, index) == total
      ensures channels == old(channels)
    {
      RenderedAdvance(base, out, Gap(pointer, rest[0].start) + [Show(rest[0])], id);
      ListingAdvance(txt, rest, next, index, total);
      EmitProgramme(id, index, rest[0], pointer, next);
    }

    /** EmitClosing once the schedule is walked: the timeline is complete. */
    method EmitLast(id: string, pointer: int, endOfDay: int,
                    ghost out: seq<Entry>, ghost base: seq<Element>, ghost whole: seq<Entry>)
      requires out + Timeline([], pointer, endOfDay) == whole
      requires tv == base + Rendered(out, id)
      modifies this
      ensures tv == base + Rendered(whole, id)
      ensures txt == old(txt) && channels == old(channels)
    {
      TimelineCloses(out, pointer, endOfDay, whole);
      RenderedAdvance(base, out, Gap(pointer, endOfDay), id);
      EmitClosing(id, pointer, endOfDay);
    }

    /**
     * The body of the output loop for one channel, given its schedule in
     * order: the timeline's programmes appended to `tv`, the events listed
     * from number `counter` on; the counter after it is returned.
     */
    method EmitChannel(id: string, index: nat, sched: seq<Event>, now: int, endOfDay: int, counter: nat)
      returns (next: nat)
      modifies this
      ensures tv == old(tv) + Rendered(Timeline(sched, now, endOfDay), id)
      ensures txt == old(txt) + ChannelListing(sched, counter, index)
      ensures next == counter + |sched|
      ensures channels == old(channels)
    {
      var pointer := now;
      ghost var whole := Timeline(sched, now, endOfDay);
      ghost var listing := ChannelListing(sched, counter, index);
      ghost var out: seq<Entry> := [];
      next := counter;
      var rest := sched;
      while rest != []
        invariant next == counter + |sched| - |rest|
        invariant out + Timeline(rest, pointer, endOfDay) == whole
        invariant tv == old(tv) + Rendered(out, id)
        invariant txt + ChannelListing(rest, next, index) == old(txt) + listing
        invariant channels == old(channels)
        decreases |rest|
      {
        var prog := rest[0];
        TimelineAdvance(out, rest, pointer, endOfDay, whole);
        EmitNext(id, index, rest, pointer, next, out, old(tv), old(txt) + listing);
        out := out + (Gap(pointer, prog.start) + [Show(prog)]);
        next := next + 1;
        pointer := prog.end;
        rest := rest[1..];
      }
      EmitLast(id, pointer, endOfDay, out, old(tv), whole);
    }

    /** The output loop over the channels, numbering events across all of them from 1. */
    method Emit(now: int)
      modifies this
      ensures channels == old(channels)
      ensures tv == old(tv) + Programmes(channels, now)
      ensures txt == old(txt) + Listing(channels)
    {
      var counter := 1;
      var c := 0;
      while c < |channels|
        invariant 0 <= c <= |channels| && channels == old(channels)
        invariant tv == old(tv) + Programmes(channels[..c], now)
        invariant txt == old(txt) + Listing(channels[..c])
        invariant counter == |Listing(channels[..c])| + 1
      {
        var ch := channels[c];
        ProgrammesAdvance(old(tv), channels, c, now);
        ListingAdvanceChannel(old(txt), channels, c);
        counter := EmitChannel(ch.id, c + 1, SortByStart(ch.schedule), now, EndOfDay(now), counter);
        c := c + 1;
      }
      assert channels[..c] == channels;
    }
  }

  /**
   * The whole script after scraping: events from the cards, seven
   * channels, placement, then the programmes and the listing.
   */
  method BuildGuide(cards: seq<Card>, now: int) returns (g: Guide)
    requires Representable(now)
    ensures g.channels == PlaceAll(FreshChannels(MaxChannels), SortByStart(EventsOf(cards, now)))
    ensures forall c :: c in g.channels ==> NoOverlap(c.schedule) && Sorted(c.schedule)
    ensures TimedChannels(g.channels)
    ensures g.tv == ChannelElements(MaxChannels) + Programmes(g.channels, now)
    ensures g.txt == Listing(g.channels)
  {
    var events := BuildEvents(cards, now);
    g := new Guide();
    g.AddChannels();
    assert g.channels == FreshChannels(MaxChannels) by {
      assert [] + FreshChannels(MaxChannels) == FreshChannels(MaxChannels);
    }
    assert g.tv == ChannelElements(MaxChannels) by {
      assert [] + ChannelElements(MaxChannels) == ChannelElements(MaxChannels);
    }
    g.PlaceEvents(events);
    g.Emit(now);
    assert g.txt == Listing(g.channels) by {
      assert [] + Listing(g.channels) == Listing(g.channels);
    }
    EventsAreRepresentable(cards, now);
    FreshChannelsDistinct(MaxChannels);
    PlacedChannelsWellFormed(FreshChannels(MaxChannels), events);
  }

  /**
   * Events placed in order of start onto empty channels leave no overlaps,
   * every schedule in order, and only timed events on the channels.
   */
  lemma PlacedChannelsWellFormed(initial: seq<Channel>, events: seq<Event>)
    requires forall c :: c in initial ==> c.schedule == []
    requires TimedEvents(events)
    ensures forall c :: c in PlaceAll(initial, SortByStart(events)) ==> NoOverlap(c.schedule) && Sorted(c.schedule)
    ensures TimedChannels(PlaceAll(initial, SortByStart(events)))
  {
    var sorted := SortByStart(events);
    var chs := PlaceAll(initial, sorted);
    PlaceAllNoOverlap(initial, sorted);
    SortIsSorted(events);
    PlaceAllSorted(initial, sorted);
    PlacedEventsOffered(initial, sorted);
    forall c, e | c in chs && e in c.schedule
      ensures Representable(e.start) && Representable(e.end)
    {
      assert e in sorted;
      assert e in multiset(sorted);
      assert e in multiset(events);
      assert e in events;
    }
  }

  /** From empty channels, every event on a channel after placement is one that was offered. */
  lemma PlacedEventsOffered(chs: seq<Channel>, evs: seq<Event>)
    requires forall c :: c in chs ==> c.schedule == []
    ensures forall c, e :: c in PlaceAll(chs, evs) && e in c.schedule ==> e in evs
  {
    var placed := PlaceAll(chs, evs);
    PlaceAllAddsOffered(chs, evs);
    EmptyChannels(chs);
    forall c, e | c in placed && e in c.schedule
      ensures e in evs
    {
      var j :| 0 <= j < |placed| && placed[j] == c;
      EventOfChannel(placed, j, e);
      assert e in multiset(evs);
    }
  }
}
