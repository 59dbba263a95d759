/**
 The events-since-last probe (cli/src/crashscan.rs): each successful probe
 reports the crashes of one log dump that are newer than the cursor and not yet
 delivered, then moves the cursor to just behind the device's clock.
 */
module CrashCursor {
  import opened Basics
  import opened CrashClock

  const SLACK := 2 * SECOND
  const MAX_FINGERPRINTS := 32

  type Fingerprint = nat

  datatype Scanned = Scanned(ts: Option<int>, fingerprint: Fingerprint)

  datatype Cursor = Cursor(ts: int, fingerprints: seq<Fingerprint>)

  /** A scan that failed, or a dump with the device's clock reading, if any. */
  datatype Scan = Failed | Dump(now: Option<int>, crashes: seq<Scanned>)

  function LastOf<T>(s: seq<T>, n: nat): seq<T> {
    if |s| <= n then s else s[|s| - n..]
  }

  predicate IsFresh(cursor: Cursor, c: Scanned) {
    c.ts.Some? && NewerThan(c.ts.value, cursor.ts) && c.fingerprint !in cursor.fingerprints
  }

  function Fresh(cursor: Cursor, crashes: seq<Scanned>): seq<Scanned> {
    if crashes == [] then []
    else
      var n := |crashes| - 1;
      Fresh(cursor, crashes[..n]) + (if IsFresh(cursor, crashes[n]) then [crashes[n]] else [])
  }

  function Prints(crashes: seq<Scanned>): seq<Fingerprint> {
    seq(|crashes|, i requires 0 <= i < |crashes| => crashes[i].fingerprint)
  }

  /** What a probe delivers from a given cursor. */
  function Delivered(cursor: Option<Cursor>, scan: Scan): seq<Scanned> {
    if cursor.None? || scan.Failed? || scan.now.None? then [] else Fresh(cursor.value, scan.crashes)
  }

  /** Where it leaves the cursor. */
  function Moved(cursor: Option<Cursor>, scan: Scan): Option<Cursor> {
    if scan.Failed? || scan.now.None? then cursor
    else if cursor.None? then Some(Cursor(scan.now.value - SLACK, []))
    else
      Some(Cursor(scan.now.value - SLACK,
                  LastOf(cursor.value.fingerprints + Prints(Delivered(cursor, scan)), MAX_FINGERPRINTS)))
  }

  /** Delivered is what the dump holds with a stamp that is newer than the cursor
      and a fingerprint the cursor does not know. */
  lemma {:induction false} FreshIff(cursor: Cursor, crashes: seq<Scanned>, c: Scanned)
    ensures c in Fresh(cursor, crashes)
      <==> c in crashes && c.ts != None && NewerThan(c.ts.value, cursor.ts) && c.fingerprint !in cursor.fingerprints
  {
    hide NewerThan;
    if crashes != [] {
      var n := |crashes| - 1;
      FreshIff(cursor, crashes[..n], c);
      assert crashes == crashes[..n] + [crashes[n]];
    }
  }

  class Probe {
    var cursor: Option<Cursor>

    constructor ()
      ensures cursor.None?
    {
      cursor := None;
    }

    method ProbeOnce(scan: Scan) returns (events: seq<Scanned>)
      modifies this
      ensures events == Delivered(old(cursor), scan)
      ensures cursor == Moved(old(cursor), scan)
    {
      events := [];
      if scan.Failed? || scan.now.None? {
        return;
      }
      var next := scan.now.value - SLACK;
      if cursor.None? {
        cursor := Some(Cursor(next, []));
        return;
      }
      var last := cursor.value;
      for i := 0 to |scan.crashes|
        invariant events == Fresh(last, scan.crashes[..i])
      {
        if IsFresh(last, scan.crashes[i]) {
          events := events + [scan.crashes[i]];
        }
        assert scan.crashes[..i + 1][..i] == scan.crashes[..i];
      }
      assert scan.crashes[..|scan.crashes|] == scan.crashes;
      var fingerprints := last.fingerprints;
      for i := 0 to |events|
        invariant fingerprints == last.fingerprints + Prints(events[..i])
      {
        fingerprints := fingerprints + [events[i].fingerprint];
        assert Prints(events[..i + 1]) == Prints(events[..i]) + [events[i].fingerprint];
      }
      assert events[..|events|] == events;
      if |fingerprints| > MAX_FINGERPRINTS {
        var excess := |fingerprints| - MAX_FINGERPRINTS;
        fingerprints := fingerprints[excess..];
      }
      cursor := Some(Cursor(next, fingerprints));
    }
  }

  // ---- runs of probes ------------------------------------------------------

  /** A crash at an instant of the device clock, and what one probe met. */
  datatype Crash = Crash(stamp: int, fingerprint: Fingerprint)

  datatype Attempt = Missed | Read(now: int, seen: seq<Crash>)

  function AsScanned(seen: seq<Crash>): seq<Scanned> {
    seq(|seen|, i requires 0 <= i < |seen| => Scanned(Some(seen[i].stamp % YEAR), seen[i].fingerprint))
  }

  function AsScan(a: Attempt): Scan {
    if a.Missed? then Failed else Dump(Some(a.now % YEAR), AsScanned(a.seen))
  }

  function CursorAfter(run: seq<Attempt>): Option<Cursor> {
    if run == [] then None else Moved(CursorAfter(run[..|run| - 1]), AsScan(run[|run| - 1]))
  }

  function DeliveredLast(run: seq<Attempt>): seq<Fingerprint>
    requires run != []
  {
    Prints(Delivered(CursorAfter(run[..|run| - 1]), AsScan(run[|run| - 1])))
  }

  /** Fingerprints of everything delivered, in order. */
  function History(run: seq<Attempt>): seq<Fingerprint> {
    if run == [] then [] else History(run[..|run| - 1]) + DeliveredLast(run)
  }

  /** The clock reading of the latest, and of the first, successful probe. */
  function LastNow(run: seq<Attempt>): Option<int> {
    if run == [] then None
    else if run[|run| - 1].Read? then Some(run[|run| - 1].now)
    else LastNow(run[..|run| - 1])
  }

  function FirstNow(run: seq<Attempt>): Option<int> {
    if run == [] then None
    else if FirstNow(run[..|run| - 1]).Some? then FirstNow(run[..|run| - 1])
    else LastNow(run)
  }

  /** One dump after a probe at `prev`: the clock does not run backwards, gaps
      and log retention stay under half a year, no line is more than a second
      ahead of the clock reading, and fingerprints tell crashes apart. */
  predicate WellRead(prev: int, a: Attempt) {
    a.Read? ==>
      && prev <= a.now && a.now - prev + SLACK + SECOND <= HALF
      && (forall i :: 0 <= i < |a.seen| ==> a.now - HALF <= a.seen[i].stamp < a.now + SECOND)
      && (forall i, j :: 0 <= i < j < |a.seen| ==> a.seen[i].fingerprint != a.seen[j].fingerprint)
  }

  predicate Distinguished(a: Attempt, c: Crash) {
    a.Read? ==> forall i :: 0 <= i < |a.seen| && a.seen[i].fingerprint == c.fingerprint ==> a.seen[i] == c
  }

  /** Crash `c` is in the dump at the last probe whose cursor it is newer than. */
  predicate Visible(prev: int, a: Attempt, c: Crash) {
    a.Read? && prev - SLACK < c.stamp <= a.now - SLACK ==> c in a.seen
  }

  /** At most 32 deliveries since that of `c`, while it is newer than the cursor. */
  predicate Remembered(prev: int, history: seq<Fingerprint>, c: Crash) {
    c.stamp > prev - SLACK && c.fingerprint in history ==> c.fingerprint in LastOf(history, MAX_FINGERPRINTS)
  }

  predicate Orderly(run: seq<Attempt>, c: Crash) {
    run != [] ==>
      var before, a := run[..|run| - 1], run[|run| - 1];
      && Orderly(before, c) && Distinguished(a, c)
      && (LastNow(before).Some? ==>
            && WellRead(LastNow(before).value, a) && Visible(LastNow(before).value, a, c)
            && Remembered(LastNow(before).value, History(before), c))
  }

  lemma LastOfLast<T>(a: seq<T>, b: seq<T>, n: nat)
    ensures LastOf(LastOf(a, n) + b, n) == LastOf(a + b, n)
  {
  }

  /** The cursor is the last clock reading less the slack, together with the
      last 32 deliveries of all time. */
  lemma {:induction false} CursorIsHistory(run: seq<Attempt>)
    ensures CursorAfter(run) ==
      if LastNow(run).None? then None
      else Some(Cursor(LastNow(run).value % YEAR - 2_000, LastOf(History(run), 32)))
    ensures LastNow(run).None? ==> History(run) == []
  {
    if run != [] {
      var before, a := run[..|run| - 1], run[|run| - 1];
      CursorIsHistory(before);
      if a.Missed? || LastNow(before).None? {
        assert DeliveredLast(run) == [];
        assert History(run) == History(before);
      } else {
        assert History(run) == History(before) + DeliveredLast(run);
        LastOfLast(History(before), DeliveredLast(run), MAX_FINGERPRINTS);
      }
    }
  }

  function Count(s: seq<Fingerprint>, f: Fingerprint): nat {
    multiset(s)[f]
  }

  lemma FreshLast(cursor: Cursor, init: seq<Crash>, last: Crash)
    ensures Prints(Fresh(cursor, AsScanned(init + [last])))
      == Prints(Fresh(cursor, AsScanned(init)))
        + (if IsFresh(cursor, Scanned(Some(last.stamp % YEAR), last.fingerprint)) then [last.fingerprint] else [])
  {
    hide IsFresh;
    var scanned := AsScanned(init + [last]);
    assert scanned[..|init|] == AsScanned(init);
    assert scanned[|init|] == Scanned(Some(last.stamp % YEAR), last.fingerprint);
  }

  lemma {:induction false} FreshCount(cursor: Cursor, seen: seq<Crash>, c: Crash)
    requires forall i :: 0 <= i < |seen| && seen[i].fingerprint == c.fingerprint ==> seen[i] == c
    requires forall i, j :: 0 <= i < j < |seen| ==> seen[i].fingerprint != seen[j].fingerprint
    ensures Count(Prints(Fresh(cursor, AsScanned(seen))), c.fingerprint) ==
      if c in seen && IsFresh(cursor, Scanned(Some(c.stamp % YEAR), c.fingerprint)) then 1 else 0
  {
    if seen != [] {
      hide IsFresh, Fresh, AsScanned, Prints;
      var n := |seen| - 1;
      FreshCount(cursor, seen[..n], c);
      assert seen == seen[..n] + [seen[n]];
      FreshLast(cursor, seen[..n], seen[n]);
    }
  }

  lemma DeliveredIsFresh(before: seq<Attempt>, a: Attempt)
    requires a.Read? && CursorAfter(before).Some?
    ensures DeliveredLast(before + [a]) == Prints(Fresh(CursorAfter(before).value, AsScanned(a.seen)))
  {
    hide CursorAfter, Fresh;
    assert (before + [a])[..|before|] == before;
  }

  /** One probe delivers `c` once when `c` is in the dump, newer than the cursor
      and not among the last 32 deliveries; otherwise not at all. */
  lemma DeliveredIff(before: seq<Attempt>, a: Attempt, c: Crash)
    requires a.Read? && LastNow(before).Some?
    requires WellRead(LastNow(before).value, a) && Distinguished(a, c)
    ensures Count(DeliveredLast(before + [a]), c.fingerprint) ==
      if c in a.seen && c.stamp > LastNow(before).value - SLACK
         && c.fingerprint !in LastOf(History(before), MAX_FINGERPRINTS) then 1 else 0
  {
    hide DeliveredLast, CursorAfter, History, LastOf, Fresh, NewerThan;
    var prev := LastNow(before).value;
    CursorIsHistory(before);
    var cursor := CursorAfter(before).value;
    DeliveredIsFresh(before, a);
    FreshCount(cursor, a.seen, c);
    if c in a.seen {
      NewerIsLater(c.stamp, prev, SLACK);
    }
  }

  lemma HistoryCount(before: seq<Attempt>, a: Attempt, f: Fingerprint)
    ensures Count(History(before + [a]), f) == Count(History(before), f) + Count(DeliveredLast(before + [a]), f)
  {
    assert (before + [a])[..|before|] == before;
  }

  /** The state of delivery of `c`: never before its stamp passes the cursor,
      at most once, and surely once the cursor has passed it. */
  lemma {:induction false} DeliveryState(run: seq<Attempt>, c: Crash)
    requires Orderly(run, c)
    ensures FirstNow(run).Some? <==> LastNow(run).Some?
    ensures FirstNow(run).Some? ==> FirstNow(run).value <= LastNow(run).value
    ensures Count(History(run), c.fingerprint) <= 1
    ensures FirstNow(run).Some? && c.stamp <= FirstNow(run).value - SLACK ==> Count(History(run), c.fingerprint) == 0
    ensures FirstNow(run).Some? && FirstNow(run).value - SLACK < c.stamp <= LastNow(run).value - SLACK ==>
      Count(History(run), c.fingerprint) == 1
  {
    if run != [] {
      var before, a := run[..|run| - 1], run[|run| - 1];
      assert run == before + [a];
      DeliveryState(before, c);
      HistoryCount(before, a, c.fingerprint);
      CursorIsHistory(before);
      if a.Read? && LastNow(before).Some? {
        DeliveredIff(before, a, c);
        assert c.fingerprint in LastOf(History(before), MAX_FINGERPRINTS) ==> c.fingerprint in History(before);
      }
    }
  }

  /** Exactly-once delivery: a crash stamped after the first cursor is reported
      exactly once by the time the cursor has passed it, whatever probes fail. */
  lemma ExactlyOnce(run: seq<Attempt>, c: Crash)
    requires Orderly(run, c) && FirstNow(run).Some? && LastNow(run).Some?
    requires FirstNow(run).value - SLACK < c.stamp <= LastNow(run).value - SLACK
    ensures Count(History(run), c.fingerprint) == 1
  {
    DeliveryState(run, c);
  }

  lemma AtMostOnce(run: seq<Attempt>, c: Crash)
    requires Orderly(run, c)
    ensures Count(History(run), c.fingerprint) <= 1
  {
    DeliveryState(run, c);
  }

  /** The bound on the ring is needed: a delivered crash that has dropped out of
      it while still newer than the cursor is delivered again. */
  lemma ForgottenIsRepeated(before: seq<Attempt>, a: Attempt, c: Crash)
    requires a.Read? && LastNow(before).Some? && c in a.seen
    requires WellRead(LastNow(before).value, a) && Distinguished(a, c)
    requires c.stamp > LastNow(before).value - SLACK && c.fingerprint in History(before)
    ensures Count(History(before + [a]), c.fingerprint) > Count(History(before), c.fingerprint)
      <==> c.fingerprint !in LastOf(History(before), MAX_FINGERPRINTS)
  {
    DeliveredIff(before, a, c);
    HistoryCount(before, a, c.fingerprint);
  }
}
