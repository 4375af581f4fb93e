/** Daily activity counters with lazy date rollover (main.py:216-243). The
    source keeps three dictionaries keyed by guild (messages_today,
    new_members_today, last_stats_reset_date); every write to the first two
    happens after the date check has set the third, so the three always share
    their keys and are modelled as one record per guild. */
module Daily {
  import opened Base

  datatype DayCounts = DayCounts(messages: int, newMembers: int, resetDate: int)

  /** The date check of both tracking functions: no entry yet, or an entry from another day. */
  predicate RollsOver(c: Option<DayCounts>, today: int) {
    c.None? || c.value.resetDate != today
  }

  /** `track_daily_message`: on a new date only the message counter restarts;
      the new-member counter is carried over from the previous day. */
  function CountMessage(c: Option<DayCounts>, today: int): (r: DayCounts)
    ensures r.resetDate == today
    ensures r.messages == if RollsOver(c, today) then 1 else c.value.messages + 1
    ensures r.newMembers == if c.Some? then c.value.newMembers else 0
  {
    var base :=
      if RollsOver(c, today) then DayCounts(0, if c.Some? then c.value.newMembers else 0, today)
      else c.value;
    base.(messages := base.messages + 1)
  }

  /** `track_new_member`: the mirror image; on a new date only the
      new-member counter restarts and the message counter is carried over. */
  function CountNewMember(c: Option<DayCounts>, today: int): (r: DayCounts)
    ensures r.resetDate == today
    ensures r.newMembers == if RollsOver(c, today) then 1 else c.value.newMembers + 1
    ensures r.messages == if c.Some? then c.value.messages else 0
  {
    var base :=
      if RollsOver(c, today) then DayCounts(if c.Some? then c.value.messages else 0, 0, today)
      else c.value;
    base.(newMembers := base.newMembers + 1)
  }

  /** An event the counters observe, with the UTC date it happened on. */
  datatype DayEvent = MessageOn(day: int) | JoinOn(day: int)

  function Observe(c: Option<DayCounts>, e: DayEvent): DayCounts {
    match e
    case MessageOn(d) => CountMessage(c, d)
    case JoinOn(d) => CountNewMember(c, d)
  }

  /** The counters after a sequence of events, oldest first. */
  function ObserveAll(c: Option<DayCounts>, events: seq<DayEvent>): Option<DayCounts>
    decreases |events|
  {
    if events == [] then c else ObserveAll(Some(Observe(c, events[0])), events[1..])
  }

  function MessagesIn(events: seq<DayEvent>): nat
    decreases |events|
  {
    if events == [] then 0 else (if events[0].MessageOn? then 1 else 0) + MessagesIn(events[1..])
  }

  function JoinsIn(events: seq<DayEvent>): nat
    decreases |events|
  {
    if events == [] then 0 else (if events[0].JoinOn? then 1 else 0) + JoinsIn(events[1..])
  }

  /** Within one day the counters are plain tallies: each counts exactly its own events. */
  lemma {:induction false} SameDayTallies(c: DayCounts, events: seq<DayEvent>)
    requires forall e :: e in events ==> e.day == c.resetDate
    ensures ObserveAll(Some(c), events)
         == Some(DayCounts(c.messages + MessagesIn(events), c.newMembers + JoinsIn(events), c.resetDate))
    decreases |events|
  {
    if events != [] {
      assert events[0] in events;
      SameDayTallies(Observe(Some(c), events[0]), events[1..]);
    }
  }

  /** The carry-over quirk: three joins on one day, then a message the next
      day, leave the new-member counter at three, not zero. */
  lemma JoinCountSurvivesRollover(day: int)
    ensures ObserveAll(None, [JoinOn(day), JoinOn(day), JoinOn(day), MessageOn(day + 1)])
         == Some(DayCounts(1, 3, day + 1))
  {
    var events := [JoinOn(day), JoinOn(day), JoinOn(day), MessageOn(day + 1)];
    var first := CountNewMember(None, day);
    assert first == DayCounts(0, 1, day);
    assert ObserveAll(None, events) == ObserveAll(Some(first), events[1..]);
    SameDayTallies(first, events[1..3]);
    assert events[1..] == events[1..3] + [MessageOn(day + 1)];
    ObserveAllAppend(Some(first), events[1..3], [MessageOn(day + 1)]);
    var joins := events[1..3];
    assert joins == [JoinOn(day), JoinOn(day)] && joins[1..] == [JoinOn(day)] && joins[1..][1..] == [];
    assert MessagesIn(joins[1..][1..]) == 0 && JoinsIn(joins[1..][1..]) == 0;
    assert MessagesIn(joins[1..]) == 0 && JoinsIn(joins[1..]) == 1;
    assert MessagesIn(joins) == 0 && JoinsIn(joins) == 2;
  }

  lemma {:induction false} ObserveAllAppend(c: Option<DayCounts>, a: seq<DayEvent>, b: seq<DayEvent>)
    ensures ObserveAll(c, a + b) == ObserveAll(ObserveAll(c, a), b)
    decreases |a|
  {
    if a == [] {
      assert a + b == b;
    } else {
      assert (a + b)[0] == a[0] && (a + b)[1..] == a[1..] + b;
      ObserveAllAppend(Some(Observe(c, a[0])), a[1..], b);
    }
  }
}
