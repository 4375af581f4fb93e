/** The two rate trackers of the message pipeline: the spam sliding window
    (main.py:355-369) and the slowmode gate (main.py:333-350). */
module RateLimit {
  import opened Base

  /** `SPAM_WINDOW_SECONDS`: how far back the spam window reaches. */
  const SPAM_WINDOW_SECONDS := 8
  /** `SPAM_MAX_MESSAGES`: window size at which a user is auto-muted. */
  const SPAM_MAX_MESSAGES := 7
  /** `AUTO_MUTE_MINUTES`: length of an automatic mute. */
  const AUTO_MUTE_MINUTES := 15

  /** A timestamp still inside the window ending at `now`. */
  predicate Recent(t: int, now: int) {
    now - t <= SPAM_WINDOW_SECONDS
  }

  /** `[t for t in ts if now - t <= SPAM_WINDOW_SECONDS]`. */
  function Prune(ts: seq<int>, now: int): (r: seq<int>)
    ensures |r| <= |ts|
    ensures forall t :: t in r <==> t in ts && Recent(t, now)
    decreases |ts|
  {
    if ts == [] then []
    else (if Recent(ts[0], now) then [ts[0]] else []) + Prune(ts[1..], now)
  }

  /** Pruning works piecewise: it keeps the surviving entries in their original order. */
  lemma {:induction false} PruneAppend(a: seq<int>, b: seq<int>, now: int)
    ensures Prune(a + b, now) == Prune(a, now) + Prune(b, now)
    decreases |a|
  {
    if a != [] {
      assert (a + b)[0] == a[0];
      assert (a + b)[1..] == a[1..] + b;
      PruneAppend(a[1..], b, now);
      var head := if Recent(a[0], now) then [a[0]] else [];
      calc {
        Prune(a + b, now);
        head + Prune(a[1..] + b, now);
        head + (Prune(a[1..], now) + Prune(b, now));
        (head + Prune(a[1..], now)) + Prune(b, now);
        Prune(a, now) + Prune(b, now);
      }
    } else {
      assert a + b == b;
    }
  }

  /** Entries that all lie inside the window are all kept. */
  lemma {:induction false} PruneKeepsRecent(ts: seq<int>, now: int)
    requires forall t :: t in ts ==> Recent(t, now)
    ensures Prune(ts, now) == ts
    decreases |ts|
  {
    if ts != [] {
      PruneKeepsRecent(ts[1..], now);
    }
  }

  /** The window after a message at `now`: append, then prune. */
  function RecordMessage(window: seq<int>, now: int): seq<int> {
    Prune(window + [now], now)
  }

  /** The new window is the surviving old entries, in order, followed by `now`. */
  lemma RecordMessageShape(window: seq<int>, now: int)
    ensures RecordMessage(window, now) == Prune(window, now) + [now]
    ensures |RecordMessage(window, now)| == |Prune(window, now)| + 1
  {
    PruneAppend(window, [now], now);
  }

  /** What a stored window looks like: it ends with the newest message and
      holds nothing older than the window length before it. */
  predicate WellFormedWindow(w: seq<int>) {
    |w| > 0 && forall t :: t in w ==> Recent(t, w[|w| - 1])
  }

  /** Recording a message always yields a well-formed window. */
  lemma RecordMessageWellFormed(window: seq<int>, now: int)
    ensures WellFormedWindow(RecordMessage(window, now))
    ensures RecordMessage(window, now)[|RecordMessage(window, now)| - 1] == now
  {
    RecordMessageShape(window, now);
  }

  /** Stage 5's decision (main.py:355-369): the window is tracked only when
      moderation and spam protection are on and the author is not a bot, and
      a mute follows once the pruned window holds at least seven messages and
      the author is not staff. */
  predicate AutoMuteFires(moderation: bool, spamProtection: bool, isBot: bool, isStaff: bool, windowSize: nat) {
    moderation && spamProtection && !isBot && windowSize >= SPAM_MAX_MESSAGES && !isStaff
  }

  /** Messages at `times`, oldest first, recorded one after the other into `window`. */
  function Replay(window: seq<int>, times: seq<int>): seq<int>
    decreases |times|
  {
    if times == [] then window
    else RecordMessage(Replay(window, times[..|times| - 1]), times[|times| - 1])
  }

  predicate Sorted(s: seq<int>) {
    forall i, j :: 0 <= i < j < |s| ==> s[i] <= s[j]
  }

  /** Pruning at an earlier time, then at a later one, is pruning at the later one. */
  lemma {:induction false} PruneTwice(ts: seq<int>, earlier: int, now: int)
    requires earlier <= now
    ensures Prune(Prune(ts, earlier), now) == Prune(ts, now)
    decreases |ts|
  {
    if ts != [] {
      PruneTwice(ts[1..], earlier, now);
      var head := if Recent(ts[0], now) then [ts[0]] else [];
      assert Prune(ts, now) == head + Prune(ts[1..], now);
      if Recent(ts[0], earlier) {
        assert Prune(ts, earlier) == [ts[0]] + Prune(ts[1..], earlier);
        PruneAppend([ts[0]], Prune(ts[1..], earlier), now);
        assert [ts[0]][1..] == [];
        assert Prune([ts[0]], now) == head;
      } else {
        assert Prune(ts, earlier) == Prune(ts[1..], earlier);
        assert head == [];
      }
    }
  }

  /** With a clock that does not run backwards, the window after a run of
      messages is exactly the messages of the run sent within the window
      length before the last one, in order. */
  lemma {:induction false} ReplayIsPrunedHistory(times: seq<int>)
    requires Sorted(times) && times != []
    ensures Replay([], times) == Prune(times, times[|times| - 1])
    decreases |times|
  {
    var init, last := times[..|times| - 1], times[|times| - 1];
    assert times == init + [last];
    if init == [] {
      assert Replay([], init) == [];
    } else {
      ReplayIsPrunedHistory(init);
      var previous := init[|init| - 1];
      assert previous <= last;
      PruneAppend(Prune(init, previous), [last], last);
      PruneTwice(init, previous, last);
      PruneAppend(init, [last], last);
    }
  }

  /** Seven messages within five seconds, from any starting time: the window
      holds all seven at the seventh message, so the auto-mute threshold is
      reached then. */
  lemma SevenQuickMessagesFillWindow(start: int)
    ensures |Replay([], [start, start + 1, start + 2, start + 3, start + 4, start + 5, start + 5])| == SPAM_MAX_MESSAGES
  {
    var times := [start, start + 1, start + 2, start + 3, start + 4, start + 5, start + 5];
    ReplayIsPrunedHistory(times);
    PruneKeepsRecent(times, start + 5);
  }

  /** The same seven messages spread over ten seconds: at the seventh the
      first has left the window, which then holds six; before the seventh
      there are at most six messages to count (ReplaySize). The threshold is
      never reached. */
  lemma SpreadMessagesNeverFillWindow(start: int)
    ensures Replay([], [start, start + 2, start + 4, start + 5, start + 6, start + 8, start + 10])
         == [start + 2, start + 4, start + 5, start + 6, start + 8, start + 10]
  {
    var rest := [start + 2, start + 4, start + 5, start + 6, start + 8, start + 10];
    var times := [start] + rest;
    assert times == [start, start + 2, start + 4, start + 5, start + 6, start + 8, start + 10];
    assert times[|times| - 1] == start + 10;
    ReplayIsPrunedHistory(times);
    PruneAppend([start], rest, start + 10);
    assert [start][1..] == [];
    assert Prune([start], start + 10) == [];
    PruneKeepsRecent(rest, start + 10);
  }

  /** Each message adds at most one entry to the window. */
  lemma {:induction false} ReplaySize(window: seq<int>, times: seq<int>)
    ensures |Replay(window, times)| <= |window| + |times|
    decreases |times|
  {
    if times != [] {
      var init, last := times[..|times| - 1], times[|times| - 1];
      ReplaySize(window, init);
      RecordMessageShape(Replay(window, init), last);
      assert |Prune(Replay(window, init), last)| <= |Replay(window, init)|;
    }
  }

  // -----------------------------------------------------------------------
  // Slowmode
  // -----------------------------------------------------------------------

  /** Stage 4's decision (main.py:333-340): a non-bot, non-staff author whose
      last accepted message in a channel with a cooldown is less than the
      cooldown ago loses the message. An author never seen counts as having
      spoken at time 0. */
  predicate SlowmodeDeletes(isBot: bool, isStaff: bool, cooldown: Option<nat>, last: int, now: int) {
    !isBot && cooldown.Some? && now - last < cooldown.value && !isStaff
  }

  /** Staff are never slowed, and neither is anyone in a channel without a cooldown. */
  lemma SlowmodeExemptions(isBot: bool, isStaff: bool, cooldown: Option<nat>, last: int, now: int)
    ensures isStaff || isBot || cooldown.None? ==> !SlowmodeDeletes(isBot, isStaff, cooldown, last, now)
    ensures cooldown.Some? && now - last >= cooldown.value ==> !SlowmodeDeletes(isBot, isStaff, cooldown, last, now)
  {
  }
}
