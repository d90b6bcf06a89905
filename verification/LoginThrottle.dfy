/**
 The login throttle: a counted window per address and a lock after twelve
 failures.  Windows are not sliding, so more than twelve failures can fall into
 one quarter of an hour; how many more is the question answered here.
 */
module LoginThrottle {
  import opened Options

  /** Milliseconds of one clock. */
  const WINDOW := 900000

  const LIMIT := 12

  /** The throttle row of one address. */
  datatype Row = Row(failures: nat, first: int, last: int, lockedUntil: Option<int>)

  predicate Locked(row: Option<Row>, now: int) {
    row.Some? && row.value.lockedUntil.Some? && row.value.lockedUntil.value > now
  }

  /** `recordLoginFailure`: a stale window restarts, a full one locks. */
  function Record(row: Option<Row>, now: int): Row {
    if row.None? then Row(1, now, now, None)
    else
      var stale := row.value.first < now - WINDOW;
      var failures := if stale then 1 else row.value.failures + 1;
      Row(failures, if stale then now else row.value.first, now, if failures >= LIMIT then Some(now + WINDOW) else None)
  }

  class Throttle {
    var row: Option<Row>

    constructor ()
      ensures row == None
    {
      row := None;
    }

    /** A failed login checked at `checked`, whose failure is recorded at `recorded` once the password hash is done. */
    method FailedLogin(checked: int, recorded: int) returns (refused: bool)
      modifies this
      ensures refused == Locked(old(row), checked)
      ensures row == if refused then old(row) else Some(Record(old(row), recorded))
    {
      if row.Some? && row.value.lockedUntil.Some? && row.value.lockedUntil.value > checked { return true; }
      if row.None? {
        row := Some(Row(1, recorded, recorded, None));
        return false;
      }
      var r := row.value;
      var failures, first := r.failures + 1, r.first;
      if r.first < recorded - WINDOW {
        failures, first := 1, recorded;
      }
      row := Some(Row(failures, first, recorded, if failures >= LIMIT then Some(recorded + WINDOW) else None));
      refused := false;
    }
  }

  // ---------------------------------------------------------------------------
  // Runs of failed logins
  // ---------------------------------------------------------------------------

  datatype Attempt = Attempt(checked: int, recorded: int)

  /** One after the other on one clock. */
  predicate Sequential(attempts: seq<Attempt>) {
    && (forall i :: 0 <= i < |attempts| ==> attempts[i].checked <= attempts[i].recorded)
    && (forall i, j :: 0 <= i < j < |attempts| ==> attempts[i].recorded <= attempts[j].checked)
  }

  function RowAfter(attempts: seq<Attempt>): Option<Row>
    decreases |attempts|
  {
    if attempts == [] then None
    else
      var row := RowAfter(attempts[..|attempts| - 1]);
      var a := attempts[|attempts| - 1];
      if Locked(row, a.checked) then row else Some(Record(row, a.recorded))
  }

  /** Failed password checks recorded in [from, from + WINDOW). */
  function FailuresWithin(attempts: seq<Attempt>, from: int): nat
    decreases |attempts|
  {
    if attempts == [] then 0
    else
      var front := attempts[..|attempts| - 1];
      var a := attempts[|attempts| - 1];
      FailuresWithin(front, from)
      + if !Locked(RowAfter(front), a.checked) && from <= a.recorded < from + WINDOW then 1 else 0
  }

  /**
   What `n` failures in [from, from + WINDOW) say about the row while the
   interval lasts: a window opened before it has used a failure up, a window
   opened inside it starts after at most ten, and a full window is locked past
   the end.
   */
  predicate Accounted(row: Option<Row>, from: int, n: nat) {
    && (row.None? ==> n == 0)
    && (row.Some? ==>
        var r := row.value;
        && r.first <= r.last && r.failures > 0
        && (r.failures >= LIMIT ==> r.lockedUntil == Some(r.last + WINDOW))
        && (r.last < from ==> n == 0)
        && (from <= r.last < from + WINDOW ==>
            if r.first < from then n <= 11 && (r.failures < LIMIT ==> n <= r.failures - 1)
            else r.failures <= LIMIT && n <= 10 + r.failures))
  }

  lemma RecordKeepsAccounted(row: Option<Row>, a: Attempt, from: int, n: nat)
    requires Accounted(row, from, n) && n <= 22 && !Locked(row, a.checked) && a.checked <= a.recorded
    requires row.Some? ==> row.value.last <= a.checked
    ensures var m := n + if from <= a.recorded < from + WINDOW then 1 else 0;
            Accounted(Some(Record(row, a.recorded)), from, m) && m <= 22
  {
  }

  lemma {:induction false} RunIsAccounted(attempts: seq<Attempt>, from: int)
    requires Sequential(attempts)
    ensures Accounted(RowAfter(attempts), from, FailuresWithin(attempts, from)) && FailuresWithin(attempts, from) <= 22
    ensures RowAfter(attempts).Some?
        ==> attempts != [] && RowAfter(attempts).value.last <= attempts[|attempts| - 1].recorded
    decreases |attempts|
  {
    if attempts != [] {
      var front, a := attempts[..|attempts| - 1], attempts[|attempts| - 1];
      RunIsAccounted(front, from);
      if !Locked(RowAfter(front), a.checked) {
        RecordKeepsAccounted(RowAfter(front), a, from, FailuresWithin(front, from));
      }
    }
  }

  /** No quarter of an hour holds more than 22 failed password checks. */
  lemma AtMost22Failures(attempts: seq<Attempt>, from: int)
    requires Sequential(attempts)
    ensures FailuresWithin(attempts, from) <= 22
  {
    RunIsAccounted(attempts, from);
  }

  // ---------------------------------------------------------------------------
  // When a lock begins and ends
  // ---------------------------------------------------------------------------

  /** A failure more than a quarter of an hour after the first one opens a new window; the twelfth of a window locks. */
  lemma FailureCountsExactly(row: Option<Row>, now: int)
    ensures var after := Record(row, now);
            var reopened := row.None? || now - row.value.first > 900_000;
            && after.last == now
            && after.first == (if reopened then now else row.value.first)
            && after.failures == (if reopened then 1 else row.value.failures + 1)
            && after.lockedUntil == if after.failures >= 12 then Some(now + 900_000) else None
  {
  }

  /** After any attempts, a login is refused if and only if a twelfth failure is less than a quarter of an hour ago. */
  lemma {:induction false} RefusedExactly(attempts: seq<Attempt>, now: int)
    ensures Locked(RowAfter(attempts), now)
            <==> && RowAfter(attempts).Some? && RowAfter(attempts).value.failures >= 12
                 && now - RowAfter(attempts).value.last < 900_000
    decreases |attempts|
  {
    if attempts != [] { RefusedExactly(attempts[..|attempts| - 1], now); }
  }

  // ---------------------------------------------------------------------------
  // The bound is reached
  // ---------------------------------------------------------------------------

  function Burst(now: int, n: nat): (r: seq<Attempt>)
    ensures |r| == n && forall i :: 0 <= i < n ==> r[i] == Attempt(now, now)
  {
    seq(n, i requires 0 <= i < n => Attempt(now, now))
  }

  lemma OneMore(front: seq<Attempt>, a: Attempt, from: int)
    ensures RowAfter(front + [a])
        == if Locked(RowAfter(front), a.checked) then RowAfter(front) else Some(Record(RowAfter(front), a.recorded))
    ensures FailuresWithin(front + [a], from)
            == FailuresWithin(front, from)
               + if !Locked(RowAfter(front), a.checked) && from <= a.recorded < from + WINDOW then 1 else 0
  {
    assert (front + [a])[..|front|] == front;
  }

  /** A burst inside an open, unlocked window counts every attempt. */
  lemma {:induction false} BurstCounts(front: seq<Attempt>, now: int, n: nat, from: int)
    requires RowAfter(front).Some? && RowAfter(front).value.lockedUntil == None
        && RowAfter(front).value.first >= now - WINDOW
    requires RowAfter(front).value.failures + n <= LIMIT
    ensures var before, after := RowAfter(front).value, RowAfter(front + Burst(now, n));
            && after.Some? && after.value.failures == before.failures + n && after.value.first == before.first
            && (after.value.failures < LIMIT ==> after.value.lockedUntil == None)
    ensures FailuresWithin(front + Burst(now, n), from)
            == FailuresWithin(front, from) + if from <= now < from + WINDOW then n else 0
    decreases n
  {
    if n == 0 {
      assert front + Burst(now, 0) == front;
    } else {
      BurstCounts(front, now, n - 1, from);
      assert front + Burst(now, n) == (front + Burst(now, n - 1)) + [Attempt(now, now)];
      OneMore(front + Burst(now, n - 1), Attempt(now, now), from);
    }
  }

  /** One failure, ten more two milliseconds later, twelve when the first has just gone stale. */
  function WorstCase(): seq<Attempt> {
    [Attempt(0, 0)] + Burst(2, 10) + [Attempt(WINDOW + 1, WINDOW + 1)] + Burst(WINDOW + 1, 11)
  }

  lemma BoundIsReached()
    ensures Sequential(WorstCase()) && FailuresWithin(WorstCase(), 2) == 22
  {
    var first := [Attempt(0, 0)];
    OneMore([], Attempt(0, 0), 2);
    assert [] + first == first;
    BurstCounts(first, 2, 10, 2);
    OneMore(first + Burst(2, 10), Attempt(WINDOW + 1, WINDOW + 1), 2);
    BurstCounts(first + Burst(2, 10) + [Attempt(WINDOW + 1, WINDOW + 1)], WINDOW + 1, 11, 2);
  }
}
