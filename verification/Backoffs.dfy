/** The creation backoff table (the contract of client-go's flowcontrol.Backoff without jitter)
    and its meaning as a schedule of consecutive failures. */
module Backoffs {
  import opened Text
  import opened Runs

  const MINUTE: Time := 60_000_000_000
  const CREATION_BACKOFF_INITIAL: Time := MINUTE
  const CREATION_BACKOFF_MAX: Time := 10 * MINUTE

  type Delay = d: Time | 0 < d <= CREATION_BACKOFF_MAX witness CREATION_BACKOFF_INITIAL

  datatype Entry = Entry(delay: Delay, lastUpdate: Time)
  type Table = map<string, Entry>

  predicate Expired(e: Entry, at: Time) {
    at - e.lastUpdate > 2 * CREATION_BACKOFF_MAX
  }

  predicate InBackoff(t: Table, key: string, at: Time) {
    key in t && !Expired(t[key], at) && at - t[key].lastUpdate < t[key].delay
  }

  function Min(a: Time, b: Time): Time {
    if a < b then a else b
  }

  /** A failure observed at `at` and stamped with the clock's reading `stamp`. */
  function AfterFailure(t: Table, key: string, at: Time, stamp: Time): Table {
    var delay := if key !in t || Expired(t[key], at) then CREATION_BACKOFF_INITIAL
                 else Min(2 * t[key].delay, CREATION_BACKOFF_MAX);
    t[key := Entry(delay, stamp)]
  }

  function Cleared(t: Table, key: string): Table {
    t - {key}
  }

  function Collected(t: Table, clock: Time): Table {
    map k | k in t && !Expired(t[k], clock) :: t[k]
  }

  /** The shared backoff object of the adapter. */
  class Backoff {
    var entries: Table

    constructor ()
      ensures entries == map[]
    {
      entries := map[];
    }

    method Get(id: string) returns (delay: Time)
      ensures delay == if id in entries then entries[id].delay else 0
    {
      delay := if id in entries then entries[id].delay else 0;
    }

    method IsInBackOffSinceUpdate(id: string, eventTime: Time) returns (b: bool)
      ensures b == InBackoff(entries, id, eventTime)
    {
      if id !in entries {
        return false;
      }
      var entry := entries[id];
      if eventTime - entry.lastUpdate > 2 * CREATION_BACKOFF_MAX {
        return false;
      }
      return eventTime - entry.lastUpdate < entry.delay;
    }

    method Next(id: string, eventTime: Time, clock: Time)
      modifies this
      ensures entries == AfterFailure(old(entries), id, eventTime, clock)
    {
      if id !in entries || eventTime - entries[id].lastUpdate > 2 * CREATION_BACKOFF_MAX {
        entries := entries[id := Entry(CREATION_BACKOFF_INITIAL, clock)];
      } else {
        entries := entries[id := Entry(Min(entries[id].delay * 2, CREATION_BACKOFF_MAX), clock)];
      }
    }

    method Reset(id: string)
      modifies this
      ensures entries == Cleared(old(entries), id)
    {
      entries := map k | k in entries && k != id :: entries[k];
    }

    method GC(clock: Time)
      modifies this
      ensures entries == Collected(old(entries), clock)
      ensures forall k :: k in entries <==> k in old(entries) && clock - old(entries)[k].lastUpdate <= 20 * MINUTE
      ensures forall k :: k in entries ==> entries[k] == old(entries)[k]
    {
      var pending := entries.Keys;
      while pending != {}
        invariant pending <= entries.Keys
        invariant forall k :: k in entries ==> k in old(entries) && entries[k] == old(entries)[k]
        invariant forall k :: k in old(entries) && k !in entries ==> Expired(old(entries)[k], clock)
        invariant forall k :: k in entries && k !in pending ==> !Expired(entries[k], clock)
        decreases |pending|
      {
        var k :| k in pending;
        pending := pending - {k};
        if Expired(entries[k], clock) {
          entries := entries - {k};
        }
      }
    }
  }

  // ---------------------------------------------------------------- the schedule

  datatype Event =
    | Failure(key: string, at: Time, stamp: Time)
    | Success(key: string)
    | Collection(at: Time)

  function Applied(t: Table, e: Event): Table {
    match e
    case Failure(key, at, stamp) => AfterFailure(t, key, at, stamp)
    case Success(key) => Cleared(t, key)
    case Collection(at) => Collected(t, at)
  }

  function Replay(events: seq<Event>): Table {
    if events == [] then map[] else Applied(Replay(events[..|events| - 1]), events[|events| - 1])
  }

  /** How often a key has failed in a row, and when it last did.  Collections do not matter. */
  datatype Streak = Streak(count: nat, last: Time)

  function StreakOf(events: seq<Event>, key: string): Streak {
    if events == [] then Streak(0, 0)
    else
      var before := StreakOf(events[..|events| - 1], key);
      match events[|events| - 1]
      case Failure(k, at, stamp) =>
        if k != key then before
        else if before.count == 0 || at - before.last > 20 * MINUTE then Streak(1, stamp)
        else Streak(before.count + 1, stamp)
      case Success(k) => if k == key then Streak(0, 0) else before
      case Collection(_) => before
  }

  /** The wait after the k-th failure in a row: min(2^(k-1), 10) minutes. */
  function Wait(k: nat): Delay
    requires k > 0
  {
    Min(Pow(2, k - 1) * MINUTE, CREATION_BACKOFF_MAX)
  }

  /** The waits in nanoseconds: one, two, four and eight minutes, and then ten. */
  lemma WaitTable(k: nat)
    requires k > 0
    ensures Wait(k) == match k
                       case 1 => 60_000_000_000
                       case 2 => 120_000_000_000
                       case 3 => 240_000_000_000
                       case 4 => 480_000_000_000
                       case _ => 600_000_000_000
  {
    assert Pow(2, 1) == 2 && Pow(2, 3) == 8;
    if k >= 5 { PowAtLeast(k - 1); }
  }

  lemma {:induction false} PowAtLeast(e: nat)
    requires e >= 4
    ensures Pow(2, e) >= 16
  {
    if e > 4 { PowAtLeast(e - 1); } else { assert Pow(2, 2) == 4; }
  }

  /** An event of the key's own: a failure or a success. */
  predicate Concerns(e: Event, key: string) {
    !e.Collection? && e.key == key
  }

  lemma {:induction false} NoStreak(events: seq<Event>, key: string)
    requires forall e :: e in events ==> !Concerns(e, key)
    ensures StreakOf(events, key).count == 0
  {
    if events != [] {
      assert events[|events| - 1] in events;
      NoStreak(events[..|events| - 1], key);
    }
  }

  /** What a streak is, from the key's last event: after a success it is empty; a failure gives
      its time, and continues the streak before it unless that one is empty or more than twenty
      minutes older. */
  lemma {:induction false} StreakIs(events: seq<Event>, key: string, i: nat)
    requires i < |events| && Concerns(events[i], key)
    requires forall j :: i < j < |events| ==> !Concerns(events[j], key)
    ensures var s, before := StreakOf(events, key), StreakOf(events[..i], key);
            && (events[i].Success? ==> s.count == 0)
            && (events[i].Failure? ==>
                  && s.last == events[i].stamp
                  && s.count == if before.count == 0 || events[i].at - before.last > 20 * 60_000_000_000 then 1
                                else before.count + 1)
  {
    var n := |events| - 1;
    if i < n {
      StreakIs(events[..n], key, i);
      assert events[..n][..i] == events[..i];
    }
  }

  /** No failure is dated before a collection that came earlier. */
  ghost predicate InOrder(events: seq<Event>) {
    forall i, j :: 0 <= i < j < |events| && events[i].Collection? && events[j].Failure? ==> events[i].at <= events[j].at
  }

  ghost predicate NotBeforeCollections(events: seq<Event>, at: Time) {
    forall i :: 0 <= i < |events| && events[i].Collection? ==> events[i].at <= at
  }

  lemma WaitDoubles(k: nat)
    requires k > 0
    ensures Wait(k + 1) == Min(2 * Wait(k), CREATION_BACKOFF_MAX)
    ensures Wait(1) == CREATION_BACKOFF_INITIAL
  {
    assert Pow(2, k) == 2 * Pow(2, k - 1);
  }

  /** The table holds exactly the unexpired streaks, and what collection dropped had expired. */
  lemma {:induction false} TableHoldsStreaks(events: seq<Event>, key: string)
    requires InOrder(events)
    ensures var t, s := Replay(events), StreakOf(events, key);
            && (s.count == 0 ==> key !in t)
            && (s.count > 0 && key in t ==> t[key] == Entry(Wait(s.count), s.last))
            && (s.count > 0 && key !in t ==>
                  exists i :: 0 <= i < |events| && events[i].Collection? &&
                      events[i].at - s.last > 2 * CREATION_BACKOFF_MAX)
  {
    if events != [] {
      var n := |events| - 1;
      var init := events[..n];
      TableHoldsStreaks(init, key);
      var t, s, e := Replay(init), StreakOf(init, key), events[n];
      if s.count > 0 { WaitDoubles(s.count); }
      WaitDoubles(1);
      if s.count > 0 && key !in t {
        var i :| 0 <= i < |init| && init[i].Collection? && init[i].at - s.last > 2 * CREATION_BACKOFF_MAX;
        assert events[i] == init[i];
      }
      if e.Collection? && key in t && key !in Replay(events) {
        assert events[n].at - s.last > 2 * CREATION_BACKOFF_MAX;
      }
    }
  }

  /** Seen from any later moment, a key is in backoff exactly while fewer than min(2^(k-1), 10)
      minutes have passed since the k-th failure in a row. */
  lemma BackoffIsSchedule(events: seq<Event>, key: string, at: Time)
    requires InOrder(events) && NotBeforeCollections(events, at)
    ensures var s := StreakOf(events, key);
            InBackoff(Replay(events), key, at) <==> s.count > 0 && at - s.last < Wait(s.count)
  {
    TableHoldsStreaks(events, key);
    var s := StreakOf(events, key);
    if s.count > 0 { WaitDoubles(s.count); }
  }

  function WithoutCollections(events: seq<Event>): seq<Event> {
    if events == [] then []
    else
      var init, e := WithoutCollections(events[..|events| - 1]), events[|events| - 1];
      if e.Collection? then init else init + [e]
  }

  lemma {:induction false} StreakIgnoresCollections(events: seq<Event>, key: string)
    ensures StreakOf(WithoutCollections(events), key) == StreakOf(events, key)
    ensures forall e :: e in WithoutCollections(events) ==> !e.Collection?
  {
    if events != [] {
      StreakIgnoresCollections(events[..|events| - 1], key);
      var init, e := WithoutCollections(events[..|events| - 1]), events[|events| - 1];
      assert (init + [e])[..|init|] == init;
    }
  }

  /** Garbage collection never changes an answer. */
  lemma CollectionTransparent(events: seq<Event>, key: string, at: Time)
    requires InOrder(events) && NotBeforeCollections(events, at)
    ensures InBackoff(Replay(events), key, at) <==> InBackoff(Replay(WithoutCollections(events)), key, at)
  {
    StreakIgnoresCollections(events, key);
    var plain := WithoutCollections(events);
    forall i | 0 <= i < |plain| ensures !plain[i].Collection? {
      assert plain[i] in plain;
    }
    BackoffIsSchedule(events, key, at);
    BackoffIsSchedule(plain, key, at);
  }
}
