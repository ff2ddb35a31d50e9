/** The stream of severity notifications a client sees. */
module Notifications {
  import opened Severities

  datatype Notification = Notification(name: string, value: real, severity: Severity)

  /** The severity of s that a client who replays the log ends up with; NONE before the first one. */
  function LastSent(log: seq<Notification>, s: string): Severity {
    if log == [] then NONE
    else
      var n := |log| - 1;
      if log[n].name == s then log[n].severity else LastSent(log[..n], s)
  }

  /** Every notification changes what the client knew. */
  ghost predicate EveryOneChanges(log: seq<Notification>) {
    forall i :: 0 <= i < |log| ==> log[i].severity != LastSent(log[..i], log[i].name)
  }

  lemma ChangesExtend(log: seq<Notification>, x: Notification)
    requires EveryOneChanges(log) && x.severity != LastSent(log, x.name)
    ensures EveryOneChanges(log + [x])
    ensures forall s :: LastSent(log + [x], s) == if s == x.name then x.severity else LastSent(log, s)
  {
    var log' := log + [x];
    assert log'[..|log|] == log;
    forall i | 0 <= i < |log'|
      ensures log'[i].severity != LastSent(log'[..i], log'[i].name)
    {
      if i < |log| {
        assert log'[..i] == log[..i];
      }
    }
  }

  lemma {:induction false} LastSentFinds(log: seq<Notification>, i: nat)
    requires i < |log| && forall k :: i < k < |log| ==> log[k].name != log[i].name
    ensures LastSent(log, log[i].name) == log[i].severity
  {
    var n := |log| - 1;
    if i < n {
      assert log[..n][i] == log[i];
      LastSentFinds(log[..n], i);
    }
  }

  /** Two consecutive notifications for one sensor never carry the same severity. */
  lemma ConsecutiveDiffer(log: seq<Notification>, i: nat, j: nat)
    requires EveryOneChanges(log) && i < j < |log| && log[i].name == log[j].name
    requires forall k :: i < k < j ==> log[k].name != log[i].name
    ensures log[i].severity != log[j].severity
  {
    var before := log[..j];
    assert before[i] == log[i];
    LastSentFinds(before, i);
  }

  lemma {:induction false} LastSentBefore(log: seq<Notification>, s: string)
    requires forall k :: 0 <= k < |log| ==> log[k].name != s
    ensures LastSent(log, s) == NONE
  {
    if log != [] {
      LastSentBefore(log[..|log| - 1], s);
    }
  }

  /** A sensor's first notification is not NONE. */
  lemma FirstIsNotNone(log: seq<Notification>, j: nat)
    requires EveryOneChanges(log) && j < |log| && forall k :: 0 <= k < j ==> log[k].name != log[j].name
    ensures log[j].severity != NONE
  {
    LastSentBefore(log[..j], log[j].name);
  }
}
