/**
  Restart intensity: the pruned history of a supervisor is enough to bound the number of
  restart attempts in every time window.
*/
module RestartBudget {
  import opened Common
  import opened Registry

  /** The entries of `log` between `t` and `t + width`. */
  function CountIn(log: seq<real>, t: real, width: real): nat {
    if log == [] then 0
    else (if t <= log[0] <= t + width then 1 else 0) + CountIn(log[1..], t, width)
  }

  predicate Sorted(log: seq<real>) {
    forall i, j | 0 <= i < j < |log| :: log[i] <= log[j]
  }

  /** `log` holds every attempt ever recorded, and `history` the ones not pruned by time `checkedAt`. */
  predicate KeepsRecent(history: seq<real>, log: seq<real>, width: real, checkedAt: real) {
    |history| <= |log| && history == log[|log| - |history|..] &&
    forall i | 0 <= i < |log| - |history| :: checkedAt - log[i] > width
  }

  /** Every window of the supervisor's width holds at most `maxRestarts` attempts. */
  ghost predicate WindowsBounded(log: seq<real>, width: real, most: nat) {
    forall t: real :: CountIn(log, t, width) <= most
  }

  /** What holds of a supervisor with the attempts `log` at time `now`. */
  ghost predicate Budgeted(p: Record, log: seq<real>, now: real) {
    && Sorted(log) && (forall x | x in log :: x <= now)
    && KeepsRecent(p.history, log, p.window, now)
    && WindowsBounded(log, p.window, p.maxRestarts)
  }

  // ----- Pruning -----

  /** Time only adds entries that may be pruned. */
  lemma LaterKeeps(history: seq<real>, log: seq<real>, width: real, a: real, b: real)
    requires KeepsRecent(history, log, width, a) && a <= b
    ensures KeepsRecent(history, log, width, b)
  {
  }

  /** When the oldest entry of a sorted history is recent, nothing is pruned. */
  lemma {:induction false} AllRecent(history: seq<real>, width: real, now: real)
    requires forall x | x in history :: now - x <= width
    ensures Recent(history, width, now) == history
    decreases |history|
  {
    if history != [] {
      assert history[0] in history && forall x | x in history[1..] :: x in history;
      AllRecent(history[1..], width, now);
    }
  }

  /** Pruning a sorted history drops a prefix of it. */
  lemma {:induction false} RecentIsSuffix(history: seq<real>, width: real, now: real)
    requires Sorted(history)
    ensures KeepsRecent(Recent(history, width, now), history, width, now)
    decreases |history|
  {
    if history != [] {
      if now - history[0] <= width {
        AllRecent(history, width, now);
      } else {
        var rest := Recent(history[1..], width, now);
        RecentIsSuffix(history[1..], width, now);
        forall i | 0 <= i < |history| - |rest|
          ensures now - history[i] > width
        {
          assert i > 0 ==> history[1..][i - 1] == history[i];
        }
      }
    }
  }

  /** Pruning a suffix of the log leaves a shorter suffix, and nothing recent is lost. */
  lemma PrunedSuffix(h: seq<real>, log: seq<real>, width: real, now: real, checkedAt: real)
    requires Sorted(log) && KeepsRecent(h, log, width, now) && now <= checkedAt
    ensures KeepsRecent(Recent(h, width, checkedAt), log, width, checkedAt)
  {
    hide Recent;
    var r, k := Recent(h, width, checkedAt), |log| - |h|;
    assert forall i | 0 <= i < |h| :: h[i] == log[k + i];
    RecentIsSuffix(h, width, checkedAt);
    assert r == log[|log| - |r|..];
    forall i | 0 <= i < |log| - |r|
      ensures checkedAt - log[i] > width
    {
      assert i >= k ==> log[i] == h[i - k];
    }
  }

  lemma PruneKeeps(p: Record, log: seq<real>, now: real, checkedAt: real)
    requires Budgeted(p, log, now) && now <= checkedAt
    ensures Budgeted(Prune(p, checkedAt), log, checkedAt)
  {
    hide KeepsRecent, Recent, Sorted, WindowsBounded;
    PrunedSuffix(p.history, log, p.window, now, checkedAt);
  }

  // ----- Recording attempts -----

  lemma {:induction false} CountAppend(a: seq<real>, b: seq<real>, t: real, width: real)
    ensures CountIn(a + b, t, width) == CountIn(a, t, width) + CountIn(b, t, width)
    decreases |a|
  {
    if a == [] {
      assert a + b == b;
    } else {
      assert (a + b)[0] == a[0] && (a + b)[1..] == a[1..] + b;
      CountAppend(a[1..], b, t, width);
    }
  }

  lemma {:induction false} CountAtMostAll(log: seq<real>, t: real, width: real)
    ensures CountIn(log, t, width) <= |log|
    decreases |log|
  {
    if log != [] {
      CountAtMostAll(log[1..], t, width);
    }
  }

  lemma {:induction false} CountNone(log: seq<real>, t: real, width: real)
    requires forall x | x in log :: x < t || x > t + width
    ensures CountIn(log, t, width) == 0
    decreases |log|
  {
    if log != [] {
      assert log[0] in log && forall x | x in log[1..] :: x in log;
      CountNone(log[1..], t, width);
    }
  }

  /** A window that still contains `now` sees only entries of the pruned history. */
  lemma WindowSeesHistory(history: seq<real>, log: seq<real>, width: real, checkedAt: real, now: real, t: real)
    requires KeepsRecent(history, log, width, checkedAt) && checkedAt <= now <= t + width
    ensures CountIn(log, t, width) <= |history|
  {
    var k := |log| - |history|;
    assert log == log[..k] + log[k..];
    CountAppend(log[..k], log[k..], t, width);
    CountNone(log[..k], t, width);
    CountAtMostAll(history, t, width);
  }

  lemma ChargeKeeps(p: Record, log: seq<real>, checkedAt: real, attempts: nat, recordedAt: real)
    requires Budgeted(p, log, checkedAt) && checkedAt <= recordedAt && WithinBudget(p, attempts)
    ensures Budgeted(Charge(p, attempts, recordedAt), log + Repeat(recordedAt, attempts), recordedAt)
  {
    var more := Repeat(recordedAt, attempts);
    var log' := log + more;
    LaterKeeps(p.history, log, p.window, checkedAt, recordedAt);
    assert Sorted(log') by { assert forall i | 0 <= i < |log| :: log[i] in log; }
    assert KeepsRecent(p.history + more, log', p.window, recordedAt) by {
      assert log'[|log'| - |p.history + more|..] == p.history + more;
    }
    forall t: real
      ensures CountIn(log', t, p.window) <= p.maxRestarts
    {
      CountAppend(log, more, t, p.window);
      if t <= recordedAt <= t + p.window {
        WindowSeesHistory(p.history, log, p.window, checkedAt, recordedAt, t);
        CountAtMostAll(more, t, p.window);
      } else {
        CountNone(more, t, p.window);
      }
    }
  }

  // ----- Any run of one supervisor -----

  /** One decision of the supervisor: how many restarts it wants, and the two clock readings. */
  datatype Request = Request(attempts: nat, checkedAt: real, recordedAt: real)

  /** The clock never goes back. */
  predicate Monotone(now: real, requests: seq<Request>)
    decreases |requests|
  {
    requests == [] ||
    (now <= requests[0].checkedAt <= requests[0].recordedAt && Monotone(requests[0].recordedAt, requests[1..]))
  }

  /** The attempts recorded by a run of requests, each granted or refused as the code decides. */
  function Attempts(p: Record, requests: seq<Request>): seq<real>
    decreases |requests|
  {
    if requests == [] then []
    else
      var r, pruned := requests[0], Prune(p, requests[0].checkedAt);
      if WithinBudget(pruned, r.attempts)
      then Repeat(r.recordedAt, r.attempts) + Attempts(Charge(pruned, r.attempts, r.recordedAt), requests[1..])
      else Attempts(pruned, requests[1..])
  }

  lemma {:induction false} RunBudgeted(p: Record, log: seq<real>, now: real, requests: seq<Request>)
    requires Budgeted(p, log, now) && Monotone(now, requests)
    ensures WindowsBounded(log + Attempts(p, requests), p.window, p.maxRestarts)
    decreases |requests|
  {
    if requests == [] {
      assert log + [] == log;
    } else {
      var r := requests[0];
      var pruned := Prune(p, r.checkedAt);
      PruneKeeps(p, log, now, r.checkedAt);
      if WithinBudget(pruned, r.attempts) {
        ChargeKeeps(pruned, log, r.checkedAt, r.attempts, r.recordedAt);
        var more := Repeat(r.recordedAt, r.attempts);
        var charged := Charge(pruned, r.attempts, r.recordedAt);
        RunBudgeted(charged, log + more, r.recordedAt, requests[1..]);
        assert log + more + Attempts(charged, requests[1..]) == log + Attempts(p, requests);
      } else {
        LaterBudgeted(pruned, log, r.checkedAt, r.recordedAt);
        RunBudgeted(pruned, log, r.recordedAt, requests[1..]);
      }
    }
  }

  lemma LaterBudgeted(p: Record, log: seq<real>, now: real, later: real)
    requires Budgeted(p, log, now) && now <= later
    ensures Budgeted(p, log, later)
  {
    LaterKeeps(p.history, log, p.window, now, later);
  }

  /**
    Restart intensity: over any run with a clock that never goes back, every window of
    `restart_window_seconds` holds at most `max_restarts` attempts, although old history is
    pruned and several attempts are recorded at once.
  */
  lemma RestartIntensity(p: Record, start: real, requests: seq<Request>)
    requires p.history == [] && Monotone(start, requests)
    ensures forall t: real :: CountIn(Attempts(p, requests), t, p.window) <= p.maxRestarts
  {
    RunBudgeted(p, [], start, requests);
    assert [] + Attempts(p, requests) == Attempts(p, requests);
  }
}
