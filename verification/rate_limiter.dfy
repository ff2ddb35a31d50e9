/** BatteryCapacityReporter::shouldReportEvent (pixelstats/BatteryCapacityReporter.cpp): at most
    MAX_LOG_EVENTS_PER_HOUR events are let through in any hour, with one slot per event and no list. */
module RateLimiter {
  const MAX_LOG_EVENTS_PER_HOUR := 4
  const ONE_HOUR_SECS := 60 * 60

  /** The slots that hold an event. */
  function Used(slots: seq<int>): nat {
    if slots == [] then 0 else Used(slots[..|slots| - 1]) + if slots[|slots| - 1] != 0 then 1 else 0
  }

  /** The events in the closed interval [from, to]. */
  function Within(log: seq<int>, from: int, to: int): nat {
    if log == [] then 0
    else Within(log[..|log| - 1], from, to) + if from <= log[|log| - 1] <= to then 1 else 0
  }

  function Kept(log: seq<int>, now: int): multiset<int> {
    if log == [] then multiset{}
    else Kept(log[..|log| - 1], now) + if log[|log| - 1] != 0 && log[|log| - 1] + ONE_HOUR_SECS >= now
                                       then multiset{log[|log| - 1]} else multiset{}
  }

  function Cleaned(x: int, now: int): int {
    if x != 0 && x + ONE_HOUR_SECS < now then 0 else x
  }

  /** Events that were let through, in order: never before boot, never back in time. */
  ghost predicate IsLog(log: seq<int>, latest: int) {
    && (forall i :: 0 <= i < |log| ==> 0 < log[i] <= latest)
    && (forall i, j :: 0 <= i < j < |log| ==> log[i] <= log[j])
  }

  /** The slots and the full history agree on every event of the hour before `latest`. */
  ghost predicate Agree(slots: seq<int>, log: seq<int>, latest: int) {
    forall x :: x != 0 && x + ONE_HOUR_SECS >= latest ==> multiset(slots)[x] == multiset(log)[x]
  }

  lemma {:induction false} UsedAfter(slots: seq<int>, i: nat, v: int)
    requires i < |slots|
    ensures Used(slots[i := v]) == Used(slots) - (if slots[i] != 0 then 1 else 0) + (if v != 0 then 1 else 0)
  {
    var n := |slots| - 1;
    if i == n {
      assert slots[i := v][..n] == slots[..n];
    } else {
      assert slots[i := v][..n] == slots[..n][i := v];
      UsedAfter(slots[..n], i, v);
    }
  }

  lemma {:induction false} UsedByAll(slots: seq<int>)
    requires forall i :: 0 <= i < |slots| ==> slots[i] != 0
    ensures Used(slots) == |slots|
  {
    if slots != [] {
      UsedByAll(slots[..|slots| - 1]);
    }
  }

  lemma {:induction false} NoneUsed(slots: seq<int>)
    requires forall i :: 0 <= i < |slots| ==> slots[i] == 0
    ensures Used(slots) == 0
  {
    if slots != [] {
      NoneUsed(slots[..|slots| - 1]);
    }
  }

  lemma {:induction false} KeptCounts(log: seq<int>, now: int, x: int)
    ensures Kept(log, now)[x] == if x != 0 && x + ONE_HOUR_SECS >= now then multiset(log)[x] else 0
  {
    if log != [] {
      assert log == log[..|log| - 1] + [log[|log| - 1]];
      KeptCounts(log[..|log| - 1], now, x);
    }
  }

  lemma {:induction false} KeptOfSlots(slots: seq<int>, now: int)
    requires forall i :: 0 <= i < |slots| ==> slots[i] == Cleaned(slots[i], now)
    ensures |Kept(slots, now)| == Used(slots)
  {
    if slots != [] {
      KeptOfSlots(slots[..|slots| - 1], now);
    }
  }

  lemma {:induction false} KeptOfLog(log: seq<int>, now: int)
    requires forall i :: 0 <= i < |log| ==> 0 < log[i] <= now
    ensures |Kept(log, now)| == Within(log, now - ONE_HOUR_SECS, now)
  {
    if log != [] {
      KeptOfLog(log[..|log| - 1], now);
    }
  }

  /** Once the slots are clean, their number is the number of events of the last hour. */
  lemma UsedIsRecent(slots: seq<int>, log: seq<int>, now: int)
    requires Agree(slots, log, now) && IsLog(log, now)
    requires forall i :: 0 <= i < |slots| ==> slots[i] == Cleaned(slots[i], now)
    ensures Used(slots) == Within(log, now - ONE_HOUR_SECS, now)
  {
    forall x
      ensures Kept(slots, now)[x] == Kept(log, now)[x]
    {
      KeptCounts(slots, now, x);
      KeptCounts(log, now, x);
    }
    assert Kept(slots, now) == Kept(log, now);
    KeptOfSlots(slots, now);
    KeptOfLog(log, now);
  }

  lemma OverwriteKeepsAgree(slots: seq<int>, log: seq<int>, now: int, i: nat)
    requires Agree(slots, log, now) && i < |slots|
    ensures Agree(slots[i := Cleaned(slots[i], now)], log, now)
  {
    var x := Cleaned(slots[i], now);
    assert multiset(slots[i := x]) == multiset(slots) - multiset{slots[i]} + multiset{x};
  }

  lemma StoreKeepsAgree(slots: seq<int>, log: seq<int>, now: int, i: nat)
    requires Agree(slots, log, now) && IsLog(log, now) && i < |slots| && slots[i] == 0 && now > 0
    ensures Agree(slots[i := now], log + [now], now) && IsLog(log + [now], now)
  {
    assert multiset(slots[i := now]) == multiset(slots) - multiset{0} + multiset{now};
  }

  function HourFrom(log: seq<int>, from: int): nat {
    Within(log, from, from + ONE_HOUR_SECS)
  }

  /** No hour, wherever it starts, holds more than MAX_LOG_EVENTS_PER_HOUR events of the log. */
  ghost predicate Spaced(log: seq<int>) {
    forall from :: HourFrom(log, from) <= MAX_LOG_EVENTS_PER_HOUR
  }

  lemma {:induction false} LaterWindow(log: seq<int>, from: int, now: int)
    requires forall i :: 0 <= i < |log| ==> log[i] <= now
    requires from <= now <= from + ONE_HOUR_SECS
    ensures HourFrom(log, from) <= Within(log, now - ONE_HOUR_SECS, now)
  {
    if log != [] {
      LaterWindow(log[..|log| - 1], from, now);
    }
  }

  lemma SpacedExtends(log: seq<int>, now: int)
    requires Spaced(log) && IsLog(log, now) && Within(log, now - ONE_HOUR_SECS, now) < MAX_LOG_EVENTS_PER_HOUR
    ensures Spaced(log + [now])
  {
    assert (log + [now])[..|log|] == log;
    forall from: int
      ensures HourFrom(log + [now], from) <= MAX_LOG_EVENTS_PER_HOUR
    {
      assert HourFrom(log, from) <= MAX_LOG_EVENTS_PER_HOUR;
      if from <= now <= from + ONE_HOUR_SECS {
        LaterWindow(log, from, now);
      }
    }
  }

  lemma TimePasses(slots: seq<int>, log: seq<int>, latest: int, now: int)
    requires Agree(slots, log, latest) && IsLog(log, latest) && latest <= now
    ensures Agree(slots, log, now) && IsLog(log, now)
  {
  }

  class Reporter {
    const slots: array<int>
    var used: int
    ghost var log: seq<int>
    ghost var latest: int

    ghost predicate Valid()
      reads this, slots
    {
      && slots.Length == MAX_LOG_EVENTS_PER_HOUR && latest >= 0
      && used == Used(slots[..])
      && Agree(slots[..], log, latest)
      && IsLog(log, latest)
      && Spaced(log)
    }

    constructor ()
      ensures Valid() && log == [] && latest == 0 && fresh(slots)
    {
      slots := new int[MAX_LOG_EVENTS_PER_HOUR](_ => 0);
      used, log, latest := 0, [], 0;
      new;
      NoneUsed(slots[..]);
    }

    /** Lets the event through exactly if fewer than MAX_LOG_EVENTS_PER_HOUR were in the hour up to now. */
    method ShouldReportEvent(now: int) returns (ok: bool)
      requires Valid() && latest <= now
      modifies this`used, this`log, this`latest, slots
      ensures Valid() && latest == now
      ensures ok <==> now != 0 && Within(old(log), now - 3600, now) < 4
      ensures log == if ok then old(log) + [now] else old(log)
      ensures forall from :: HourFrom(log, from) <= 4
    {
      hide Agree, IsLog, Used, Within, HourFrom;
      TimePasses(slots[..], log, latest, now);
      latest := now;
      if now == 0 {
        return false;
      }
      for i := 0 to MAX_LOG_EVENTS_PER_HOUR
        invariant log == old(log) && latest == now && used == Used(slots[..]) && Agree(slots[..], log, now)
        invariant forall j :: 0 <= j < i ==> slots[j] == Cleaned(slots[j], now)
      {
        ghost var was := slots[..];
        if slots[i] != 0 && slots[i] + ONE_HOUR_SECS < now {
          UsedAfter(was, i, 0);
          OverwriteKeepsAgree(was, log, now, i);
          slots[i] := 0;
          used := used - 1;
          assert slots[..] == was[i := 0];
        }
      }
      UsedIsRecent(slots[..], log, now);
      if used < MAX_LOG_EVENTS_PER_HOUR {
        for i := 0 to MAX_LOG_EVENTS_PER_HOUR
          invariant forall j :: 0 <= j < i ==> slots[j] != 0
        {
          if slots[i] == 0 {
            ghost var was := slots[..];
            UsedAfter(was, i, now);
            StoreKeepsAgree(was, log, now, i);
            SpacedExtends(log, now);
            slots[i] := now;
            used := used + 1;
            log := log + [now];
            assert slots[..] == was[i := now];
            return true;
          }
        }
        UsedByAll(slots[..]);
      }
      return false;
    }
  }
}
