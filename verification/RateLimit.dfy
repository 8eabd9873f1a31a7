// internal/security/rate_limit.go: the failure limiter that guards every login surface.
//
// A time is a count of nanoseconds after Go's zero time, so 0 is the value for which
// time.Time.IsZero holds.  Durations are 64-bit: Sub saturates, sums of durations wrap.

module RateLimit {
  type Time = int
  type Key = string

  const MAX_DURATION: int := 0x7fff_ffff_ffff_ffff
  const MIN_DURATION: int := -0x8000_0000_0000_0000

  type Duration = d: int | MIN_DURATION <= d <= MAX_DURATION

  /** time.Time.Sub: the difference, clamped to the range of a duration. */
  function Sub(a: Time, b: Time): Duration {
    if a - b > MAX_DURATION then MAX_DURATION
    else if a - b < MIN_DURATION then MIN_DURATION
    else a - b
  }

  /** The sum of two durations in 64-bit two's complement. */
  function Sum(a: Duration, b: Duration): Duration {
    if a + b > MAX_DURATION then a + b - 0x1_0000_0000_0000_0000
    else if a + b < MIN_DURATION then a + b + 0x1_0000_0000_0000_0000
    else a + b
  }

  datatype Settings = Settings(maxFailures: int, window: Duration, block: Duration)

  datatype Entry = Entry(windowStart: Time, blockedUntil: Time, lastSeen: Time, failures: nat)

  // What a Go map lookup yields for a key that is not there.
  const ABSENT := Entry(0, 0, 0, 0)

  type Entries = map<Key, Entry>

  function Lookup(entries: Entries, key: Key): Entry {
    if key in entries then entries[key] else ABSENT
  }

  // ---------------------------------------------------------------- one operation

  function Remaining(e: Entry, now: Time): Duration {
    if e.blockedUntil > now then Sub(e.blockedUntil, now) else 0
  }

  function RetryAfter(entries: Entries, keys: seq<Key>, now: Time): (retry: Duration)
    ensures 0 <= retry
  {
    if keys == [] then 0
    else
      var before := RetryAfter(entries, keys[..|keys| - 1], now);
      var last := Remaining(Lookup(entries, keys[|keys| - 1]), now);
      if last > before then last else before
  }

  /** The answer is the longest block still running on any of the keys. */
  lemma {:induction false} RetryAfterIsLongest(entries: Entries, keys: seq<Key>, now: Time)
    ensures forall key :: key in keys ==> Remaining(Lookup(entries, key), now) <= RetryAfter(entries, keys, now)
    ensures RetryAfter(entries, keys, now) > 0 ==>
              exists key :: key in keys && Remaining(Lookup(entries, key), now) == RetryAfter(entries, keys, now)
  {
    if keys != [] {
      RetryAfterIsLongest(entries, keys[..|keys| - 1], now);
      assert keys == keys[..|keys| - 1] + [keys[|keys| - 1]];
    }
  }

  predicate Expired(s: Settings, e: Entry, now: Time) {
    e.lastSeen != 0 && Sub(now, e.lastSeen) > Sum(s.window, s.block) && e.blockedUntil <= now
  }

  function Swept(s: Settings, entries: Entries, now: Time): Entries {
    map key | key in entries && !Expired(s, entries[key], now) :: entries[key]
  }

  predicate WindowOver(s: Settings, e: Entry, now: Time) {
    e.windowStart == 0 || Sub(now, e.windowStart) >= s.window
  }

  function Failed(s: Settings, e: Entry, now: Time): Entry {
    var start := if WindowOver(s, e, now) then now else e.windowStart;
    var failures := if WindowOver(s, e, now) then 1 else e.failures + 1;
    Entry(start, if failures >= s.maxFailures then now + s.block else e.blockedUntil, now, failures)
  }

  function FailedAll(s: Settings, entries: Entries, keys: seq<Key>, now: Time): Entries {
    if keys == [] then entries
    else
      var before := FailedAll(s, entries, keys[..|keys| - 1], now);
      var key := keys[|keys| - 1];
      before[key := Failed(s, Lookup(before, key), now)]
  }

  function Cleared(entries: Entries, keys: seq<Key>): Entries {
    map key | key in entries && key !in keys :: entries[key]
  }

  /** The mutable limiter. The clock reading of each call is a parameter. */
  class FailureLimiter {
    const settings: Settings
    var entries: Entries

    constructor (maxFailures: int, window: Duration, block: Duration)
      ensures settings == Settings(maxFailures, window, block) && entries == map[]
    {
      settings := Settings(maxFailures, window, block);
      entries := map[];
    }

    // The answer is the longest block still running on any of the keys.
    method Allow(now: Time, keys: seq<Key>) returns (allowed: bool, retryAfter: Duration)
      modifies this
      ensures settings.maxFailures <= 0 ==> allowed && retryAfter == 0 && entries == old(entries)
      ensures settings.maxFailures > 0 ==> entries == Swept(settings, old(entries), now)
      ensures settings.maxFailures > 0 ==> retryAfter == RetryAfter(entries, keys, now)
      ensures allowed <==> retryAfter == 0
    {
      if settings.maxFailures <= 0 {
        return true, 0;
      }
      Cleanup(now);
      retryAfter := 0;
      for i := 0 to |keys|
        invariant retryAfter == RetryAfter(entries, keys[..i], now)
        invariant entries == Swept(settings, old(entries), now)
      {
        assert keys[..i + 1][..i] == keys[..i];
        var entry := Lookup(entries, keys[i]);
        if entry.blockedUntil > now && Sub(entry.blockedUntil, now) > retryAfter {
          retryAfter := Sub(entry.blockedUntil, now);
        }
      }
      assert keys[..|keys|] == keys;
      allowed := retryAfter == 0;
    }

    method Failure(now: Time, keys: seq<Key>)
      modifies this
      ensures entries == if settings.maxFailures <= 0 then old(entries)
                         else FailedAll(settings, old(entries), keys, now)
    {
      if settings.maxFailures <= 0 {
        return;
      }
      for i := 0 to |keys|
        invariant entries == FailedAll(settings, old(entries), keys[..i], now)
      {
        assert keys[..i + 1][..i] == keys[..i];
        var entry := Lookup(entries, keys[i]);
        if entry.windowStart == 0 || Sub(now, entry.windowStart) >= settings.window {
          entry := entry.(windowStart := now, failures := 0);
        }
        entry := entry.(failures := entry.failures + 1, lastSeen := now);
        if entry.failures >= settings.maxFailures {
          entry := entry.(blockedUntil := now + settings.block);
        }
        entries := entries[keys[i] := entry];
      }
      assert keys[..|keys|] == keys;
    }

    method Success(keys: seq<Key>)
      modifies this
      ensures entries == Cleared(old(entries), keys)
    {
      for i := 0 to |keys|
        invariant entries == Cleared(old(entries), keys[..i])
      {
        entries := entries - {keys[i]};
      }
      assert keys[..|keys|] == keys;
    }

    method Cleanup(now: Time)
      modifies this
      ensures entries == Swept(settings, old(entries), now)
    {
      var retention := Sum(settings.window, settings.block);
      var pending := entries.Keys;
      while pending != {}
        invariant pending <= old(entries).Keys
        invariant entries == map key | key in old(entries)
                                 && (key in pending || !Expired(settings, old(entries)[key], now)) :: old(entries)[key]
        decreases pending
      {
        var key :| key in pending;
        var entry := entries[key];
        if entry.lastSeen != 0 && Sub(now, entry.lastSeen) > retention && !(entry.blockedUntil > now) {
          entries := entries - {key};
        }
        pending := pending - {key};
      }
    }
  }

  // ---------------------------------------------------------------- whole runs

  datatype Call = Allow(keys: seq<Key>) | Failure(keys: seq<Key>) | Success(keys: seq<Key>)

  datatype Timed = At(now: Time, call: Call)

  datatype Answer = Answer(allowed: bool, retryAfter: Duration) | NoAnswer

  function Next(s: Settings, collect: bool, entries: Entries, t: Timed): Entries {
    match t.call
    case Allow(_) => if s.maxFailures > 0 && collect then Swept(s, entries, t.now) else entries
    case Failure(keys) => if s.maxFailures > 0 then FailedAll(s, entries, keys, t.now) else entries
    case Success(keys) => Cleared(entries, keys)
  }

  function Reply(s: Settings, collect: bool, entries: Entries, t: Timed): Answer {
    match t.call
    case Allow(keys) =>
      var retry := if s.maxFailures > 0 then RetryAfter(Next(s, collect, entries, t), keys, t.now) else 0;
      Answer(retry == 0, retry)
    case _ => NoAnswer
  }

  /** The answers of a limiter, with or without the sweep that Allow performs first. */
  function Replies(s: Settings, collect: bool, entries: Entries, run: seq<Timed>): seq<Answer>
    decreases |run|
  {
    if run == [] then []
    else [Reply(s, collect, entries, run[0])] + Replies(s, collect, Next(s, collect, entries, run[0]), run[1..])
  }

  predicate Clocked(start: Time, run: seq<Timed>)
    decreases |run|
  {
    run == [] || (start <= run[0].now && Clocked(run[0].now, run[1..]))
  }

  // ---------------------------------------------------------------- sweeping is invisible

  // With at most one failure allowed, or with blocks that are over before they start, only
  // blockedUntil can ever influence an answer.
  predicate CountsIrrelevant(s: Settings) { s.maxFailures <= 1 || s.block <= 0 }

  predicate Agree(s: Settings, t: Time, swept: Entry, kept: Entry) {
    && (swept.blockedUntil == kept.blockedUntil || (swept.blockedUntil <= t && kept.blockedUntil <= t))
    && (s.block <= 0 ==> swept.blockedUntil <= t && kept.blockedUntil <= t)
    && swept.windowStart <= swept.lastSeen <= t
    && kept.windowStart <= t
    && (CountsIrrelevant(s)
        || (swept.windowStart == kept.windowStart && swept.failures == kept.failures)
        || (swept == ABSENT.(blockedUntil := swept.blockedUntil) && WindowOver(s, kept, t)))
  }

  ghost predicate AgreeAll(s: Settings, t: Time, swept: Entries, kept: Entries) {
    forall key: Key :: Agree(s, t, Lookup(swept, key), Lookup(kept, key))
  }

  predicate SweepIsSafe(s: Settings) { s.maxFailures <= 1 || s.window + s.block <= MAX_DURATION }

  lemma AgreeLater(s: Settings, t: Time, now: Time, swept: Entries, kept: Entries)
    requires t <= now && AgreeAll(s, t, swept, kept)
    ensures AgreeAll(s, now, swept, kept)
  {
    forall key: Key ensures Agree(s, now, Lookup(swept, key), Lookup(kept, key)) {
      assert Agree(s, t, Lookup(swept, key), Lookup(kept, key));
    }
  }

  lemma AgreeAfterSweep(s: Settings, now: Time, swept: Entries, kept: Entries)
    requires 0 <= now && SweepIsSafe(s) && AgreeAll(s, now, swept, kept)
    ensures AgreeAll(s, now, Swept(s, swept, now), kept)
  {
    forall key: Key ensures Agree(s, now, Lookup(Swept(s, swept, now), key), Lookup(kept, key)) {
      assert Agree(s, now, Lookup(swept, key), Lookup(kept, key));
    }
  }

  lemma AgreeAfterFailures(s: Settings, now: Time, keys: seq<Key>, swept: Entries, kept: Entries)
    requires 0 <= now && AgreeAll(s, now, swept, kept)
    ensures AgreeAll(s, now, FailedAll(s, swept, keys, now), FailedAll(s, kept, keys, now))
  {
    if keys != [] {
      var before := keys[..|keys| - 1];
      AgreeAfterFailures(s, now, before, swept, kept);
      var a, b := FailedAll(s, swept, before, now), FailedAll(s, kept, before, now);
      forall key: Key
        ensures Agree(s, now, Lookup(FailedAll(s, swept, keys, now), key), Lookup(FailedAll(s, kept, keys, now), key))
      {
        assert Agree(s, now, Lookup(a, key), Lookup(b, key));
      }
    }
  }

  lemma AgreeOnRetry(s: Settings, now: Time, keys: seq<Key>, swept: Entries, kept: Entries)
    requires AgreeAll(s, now, swept, kept)
    ensures RetryAfter(swept, keys, now) == RetryAfter(kept, keys, now)
  {
    if keys != [] {
      AgreeOnRetry(s, now, keys[..|keys| - 1], swept, kept);
      var key := keys[|keys| - 1];
      assert Agree(s, now, Lookup(swept, key), Lookup(kept, key));
    }
  }

  lemma {:induction false} AgreeingRunsReplyAlike(s: Settings, t: Time, swept: Entries, kept: Entries, run: seq<Timed>)
    requires 0 <= t && Clocked(t, run) && SweepIsSafe(s) && AgreeAll(s, t, swept, kept)
    ensures Replies(s, true, swept, run) == Replies(s, false, kept, run)
    decreases |run|
  {
    if run != [] {
      var now := run[0].now;
      AgreeLater(s, t, now, swept, kept);
      var swept', kept' := Next(s, true, swept, run[0]), Next(s, false, kept, run[0]);
      match run[0].call {
        case Allow(keys) =>
          AgreeAfterSweep(s, now, swept, kept);
          AgreeOnRetry(s, now, keys, swept', kept');
        case Failure(keys) =>
          AgreeAfterFailures(s, now, keys, swept, kept);
        case Success(keys) =>
          forall key: Key ensures Agree(s, now, Lookup(swept', key), Lookup(kept', key)) {
            assert Agree(s, now, Lookup(swept, key), Lookup(kept, key));
          }
      }
      AgreeingRunsReplyAlike(s, now, swept', kept', run[1..]);
    }
  }

  // When window + block wraps to a negative retention, the sweep drops counts that are still running.
  function LostCountRun(key: Key, more: nat): seq<Timed> {
    [At(1, Failure([key])), At(1, Allow([])), At(1, Failure(seq(more, _ => key))), At(1, Allow([key]))]
  }

  lemma RepeatedFailures(s: Settings, entries: Entries, key: Key, n: nat)
    requires s.window > 0 && s.maxFailures >= 2
    requires var e := Lookup(entries, key); e.windowStart in {0, 1} && e.failures + n <= s.maxFailures
    requires Lookup(entries, key).windowStart == 0 ==> Lookup(entries, key).failures == 0
    ensures var e, e' := Lookup(entries, key), Lookup(FailedAll(s, entries, seq(n, _ => key), 1), key);
            && e'.failures == e.failures + n
            && (n > 0 ==> e'.windowStart == 1)
            && e'.blockedUntil == (if n > 0 && e'.failures == s.maxFailures then 1 + s.block else e.blockedUntil)
  {
    if n > 0 {
      var all := seq(n, _ => key);
      assert all[..n - 1] == seq(n - 1, _ => key);
      RepeatedFailures(s, entries, key, n - 1);
    }
  }

  lemma UnsafeSweepIsSeen(s: Settings)
    requires !SweepIsSafe(s)
    ensures var run := LostCountRun("k", s.maxFailures - 1);
            Clocked(0, run) && Replies(s, true, map[], run) != Replies(s, false, map[], run)
  {
    var key, more := "k", s.maxFailures - 1;
    var run := LostCountRun(key, more);
    assert Clocked(1, run[1..][1..][1..]);
    assert Clocked(1, run[1..][1..]);
    assert [key][..0] == [];
    var kept1 := FailedAll(s, map[], [key], 1);
    assert FailedAll(s, map[], [key][..0], 1) == map[];
    assert kept1 == map[key := Entry(1, 0, 1, 1)];
    var swept2 := Swept(s, kept1, 1);
    assert swept2 == map[];
    RepeatedFailures(s, kept1, key, more);
    RepeatedFailures(s, swept2, key, more);
    var kept3 := FailedAll(s, kept1, seq(more, _ => key), 1);
    var swept3 := FailedAll(s, swept2, seq(more, _ => key), 1);
    var kept := Reply(s, false, kept3, run[3]);
    var swept := Reply(s, true, swept3, run[3]);
    assert RetryAfter(kept3, [key][..0], 1) == 0;
    assert RetryAfter(Swept(s, swept3, 1), [key][..0], 1) == 0;
    assert kept.retryAfter == s.block && swept.retryAfter == 0;
    LastReply(s, true, run);
    LastReply(s, false, run);
  }

  lemma LastReply(s: Settings, collect: bool, run: seq<Timed>)
    requires |run| == 4
    ensures var e1 := Next(s, collect, map[], run[0]);
            var e2 := Next(s, collect, e1, run[1]);
            var e3 := Next(s, collect, e2, run[2]);
            |Replies(s, collect, map[], run)| == 4
              && Replies(s, collect, map[], run)[3] == Reply(s, collect, e3, run[3])
  {
    var e1 := Next(s, collect, map[], run[0]);
    var e2 := Next(s, collect, e1, run[1]);
    var e3 := Next(s, collect, e2, run[2]);
    var r1, r2, r3 := run[1..], run[1..][1..], run[1..][1..][1..];
    assert r1[0] == run[1] && r2[0] == run[2] && r3 == [run[3]];
    assert Replies(s, collect, e3, r3) ==
           [Reply(s, collect, e3, run[3])] + Replies(s, collect, Next(s, collect, e3, run[3]), r3[1..]);
    assert Replies(s, collect, e2, r2) == [Reply(s, collect, e2, run[2])] + Replies(s, collect, e3, r3);
    assert Replies(s, collect, e1, r1) == [Reply(s, collect, e1, run[1])] + Replies(s, collect, e2, r2);
  }

  /** On a clock that never steps back, callers can tell whether the limiter sweeps exactly when
      window + block overflows a duration and more than one failure is tolerated. */
  lemma SweepInvisibleIff(s: Settings)
    ensures SweepIsSafe(s) <==>
            forall run | Clocked(0, run) :: Replies(s, true, map[], run) == Replies(s, false, map[], run)
  {
    if SweepIsSafe(s) {
      forall run | Clocked(0, run) ensures Replies(s, true, map[], run) == Replies(s, false, map[], run) {
        AgreeingRunsReplyAlike(s, 0, map[], map[], run);
      }
    } else {
      UnsafeSweepIsSeen(s);
    }
  }

  // ---------------------------------------------------------------- how many failures get through

  datatype Verdict = Wrong | Right | Abandoned

  // One login attempt as the handlers run it: Allow first; then, if allowed, Failure or Success.
  datatype Attempt = Attempt(asked: Time, settled: Time, keys: seq<Key>, verdict: Verdict)

  predicate Admitted(s: Settings, entries: Entries, a: Attempt) {
    RetryAfter(Swept(s, entries, a.asked), a.keys, a.asked) == 0
  }

  function Attempted(s: Settings, entries: Entries, a: Attempt): Entries {
    var swept := Swept(s, entries, a.asked);
    if !Admitted(s, entries, a) || a.verdict == Abandoned then swept
    else if a.verdict == Wrong then FailedAll(s, swept, a.keys, a.settled)
    else Cleared(swept, a.keys)
  }

  /** How many failures of `key` reach the limiter with lo <= time < hi. */
  function FailuresWithin(s: Settings, entries: Entries, run: seq<Attempt>, key: Key, lo: Time, hi: Time): nat
    decreases |run|
  {
    if run == [] then 0
    else
      var a := run[0];
      (if Admitted(s, entries, a) && a.verdict == Wrong && key in a.keys && lo <= a.settled < hi then 1 else 0)
      + FailuresWithin(s, Attempted(s, entries, a), run[1..], key, lo, hi)
  }

  ghost predicate Sequential(start: Time, run: seq<Attempt>)
    decreases |run|
  {
    run == [] ||
    (&& start <= run[0].asked <= run[0].settled
     && (forall i, j :: 0 <= i < j < |run[0].keys| ==> run[0].keys[i] != run[0].keys[j])
     && Sequential(run[0].settled, run[1..]))
  }

  predicate NoSuccessWithin(run: seq<Attempt>, key: Key, lo: Time, hi: Time) {
    forall a :: a in run && a.verdict == Right && key in a.keys ==> !(lo <= a.settled < hi)
  }

  // What is always true of a stored entry: a full window is still blocked.
  predicate Sound(s: Settings, now: Time, e: Entry) {
    && 0 < e.windowStart <= e.lastSeen <= now
    && 0 < e.failures <= s.maxFailures
    && (e.failures == s.maxFailures ==> e.blockedUntil >= e.windowStart + s.window)
  }

  predicate SoundFor(s: Settings, now: Time, entries: Entries, key: Key) {
    key in entries ==> Sound(s, now, entries[key])
  }

  predicate Bounded(s: Settings) {
    1 <= s.maxFailures && 0 <= s.window <= s.block && s.window + s.block <= MAX_DURATION
  }

  lemma FailedOnce(s: Settings, entries: Entries, keys: seq<Key>, now: Time, key: Key)
    requires forall i, j :: 0 <= i < j < |keys| ==> keys[i] != keys[j]
    ensures var after := FailedAll(s, entries, keys, now);
            if key in keys then key in after && after[key] == Failed(s, Lookup(entries, key), now)
            else (key in after <==> key in entries) && (key in entries ==> after[key] == entries[key])
  {
    if keys != [] {
      FailedOnce(s, entries, keys[..|keys| - 1], now, key);
      assert keys == keys[..|keys| - 1] + [keys[|keys| - 1]];
    }
  }

  lemma AdmittedIsUnblocked(entries: Entries, keys: seq<Key>, now: Time, key: Key)
    requires RetryAfter(entries, keys, now) == 0 && key in keys
    ensures Lookup(entries, key).blockedUntil <= now
  {
    var before := keys[..|keys| - 1];
    assert keys == before + [keys[|keys| - 1]];
    if keys[|keys| - 1] != key {
      AdmittedIsUnblocked(entries, before, now, key);
    }
  }

  // What one attempt does to one key: nothing, or a sweep, or one failure that was not blocked.
  lemma AttemptOnKey(s: Settings, now: Time, entries: Entries, a: Attempt, key: Key)
    requires Bounded(s) && 0 < now && SoundFor(s, now, entries, key) && Sequential(now, [a])
    ensures var after := Attempted(s, entries, a);
            && SoundFor(s, a.settled, after, key)
            && (Admitted(s, entries, a) && a.verdict == Wrong && key in a.keys ==>
                  && key in after
                  && (|| (after[key].windowStart == a.settled && after[key].failures == 1
                          && (key in entries ==> a.settled >= entries[key].windowStart + s.window))
                      || (key in entries && after[key].windowStart == entries[key].windowStart
                          && after[key].failures == entries[key].failures + 1)))
            && (!(Admitted(s, entries, a) && a.verdict != Abandoned && key in a.keys) ==>
                  key in after ==> key in entries && after[key] == entries[key])
            && (a.verdict != Right && key in entries && key !in after ==>
                  a.settled >= entries[key].windowStart + s.window)
  {
    var swept := Swept(s, entries, a.asked);
    if Admitted(s, entries, a) && a.verdict == Wrong {
      FailedOnce(s, swept, a.keys, a.settled, key);
      if key in a.keys {
        AdmittedIsUnblocked(swept, a.keys, a.asked, key);
      }
    }
  }

  // `credit` is what the window now open may still take; `left` counts the windows that can still
  // open before hi, the earliest of them at `next`.
  function Credit(s: Settings, entries: Entries, key: Key): int {
    if key in entries then s.maxFailures - entries[key].failures else 0
  }

  predicate OpensAt(s: Settings, now: Time, entries: Entries, key: Key, lo: Time, next: Time) {
    next <= now || next == lo || (key in entries && entries[key].windowStart + s.window >= next)
  }

  // n * x by repeated addition, which keeps the induction below linear.
  function Times(n: nat, x: nat): nat { if n == 0 then 0 else Times(n - 1, x) + x }

  lemma TimesIsProduct(n: nat, x: nat)
    ensures Times(n, x) == n * x
  {
    if n > 0 {
      TimesIsProduct(n - 1, x);
      assert n * x == (n - 1) * x + x;
    }
  }

  lemma {:induction false} FailuresLeft(s: Settings, now: Time, entries: Entries, run: seq<Attempt>, key: Key,
                                        lo: Time, hi: Time, next: Time, left: nat)
    requires Bounded(s) && 0 < now && SoundFor(s, now, entries, key)
    requires Sequential(now, run) && NoSuccessWithin(run, key, lo, hi)
    requires run != [] ==> lo <= run[0].settled
    requires hi == next + Times(left, s.window) && OpensAt(s, now, entries, key, lo, next)
    ensures FailuresWithin(s, entries, run, key, lo, hi) <= Times(left, s.maxFailures) + Credit(s, entries, key)
    decreases |run|
  {
    if run != [] {
      var a, rest := run[0], run[1..];
      var after := Attempted(s, entries, a);
      AttemptOnKey(s, now, entries, a, key);
      assert a in run && forall b :: b in rest ==> b in run;
      if a.settled >= hi {
        NoneAfter(s, after, rest, key, lo, hi, a.settled);
      } else if Admitted(s, entries, a) && a.verdict == Wrong && key in a.keys && after[key].failures == 1
                && after[key].windowStart == a.settled
                   && (key in entries ==> a.settled >= entries[key].windowStart + s.window) {
        assert next <= a.settled && left > 0;
        FailuresLeft(s, a.settled, after, rest, key, lo, hi, next + s.window, left - 1);
      } else {
        FailuresLeft(s, a.settled, after, rest, key, lo, hi, next, left);
      }
    }
  }

  lemma {:induction false} FailuresFrom(s: Settings, now: Time, entries: Entries, run: seq<Attempt>, key: Key,
                                        lo: Time, k: nat)
    requires Bounded(s) && 0 < now && SoundFor(s, now, entries, key) && Sequential(now, run)
    requires NoSuccessWithin(run, key, lo, lo + k * s.window)
    ensures FailuresWithin(s, entries, run, key, lo, lo + k * s.window) <= (k + 1) * s.maxFailures
    decreases |run|
  {
    TimesIsProduct(k, s.window);
    TimesIsProduct(k + 1, s.maxFailures);
    if run != [] && run[0].settled < lo {
      AttemptOnKey(s, now, entries, run[0], key);
      assert forall b :: b in run[1..] ==> b in run;
      FailuresFrom(s, run[0].settled, Attempted(s, entries, run[0]), run[1..], key, lo, k);
    } else {
      FailuresLeft(s, now, entries, run, key, lo, lo + k * s.window, lo, k);
    }
  }

  lemma NoneAfter(s: Settings, entries: Entries, run: seq<Attempt>, key: Key, lo: Time, hi: Time, now: Time)
    requires hi <= now && Sequential(now, run)
    ensures FailuresWithin(s, entries, run, key, lo, hi) == 0
    decreases |run|
  {
    if run != [] {
      NoneAfter(s, Attempted(s, entries, run[0]), run[1..], key, lo, hi, run[0].settled);
    }
  }

  /** In k windows of time at most (k + 1) * maxFailures wrong attempts get through on one key. */
  lemma FailureBound(s: Settings, start: Time, run: seq<Attempt>, key: Key, lo: Time, k: nat)
    requires Bounded(s) && 0 < start && Sequential(start, run)
    requires NoSuccessWithin(run, key, lo, lo + k * s.window)
    ensures FailuresWithin(s, map[], run, key, lo, lo + k * s.window) <= (k + 1) * s.maxFailures
  {
    FailuresFrom(s, start, map[], run, key, lo, k);
  }

  // ---------------------------------------------------------------- what blocks, and what a success undoes

  /** The limiter after a run of calls, sweeping as Allow does. */
  function StateAfter(s: Settings, run: seq<Timed>): Entries {
    if run == [] then map[]
    else Next(s, true, StateAfter(s, run[..|run| - 1]), run[|run| - 1])
  }

  /** How many failures of `key` a run records after the last success of it. */
  function FailuresSince(run: seq<Timed>, key: Key): nat {
    if run == [] then 0
    else
      var before := FailuresSince(run[..|run| - 1], key);
      match run[|run| - 1].call
      case Allow(_) => before
      case Failure(keys) => before + multiset(keys)[key]
      case Success(keys) => if key in keys then 0 else before
  }

  // An entry that counted at most `n` failures, and blocks only if those were enough.
  predicate Counts(s: Settings, e: Entry, n: nat) {
    e.failures <= n && (e.blockedUntil > 0 ==> n >= s.maxFailures)
  }

  lemma {:induction false} FailuresCount(s: Settings, entries: Entries, keys: seq<Key>, now: Time, key: Key, n: nat)
    requires Counts(s, Lookup(entries, key), n)
    ensures Counts(s, Lookup(FailedAll(s, entries, keys, now), key), n + multiset(keys)[key])
  {
    if keys != [] {
      var before, last := keys[..|keys| - 1], keys[|keys| - 1];
      assert keys == before + [last];
      FailuresCount(s, entries, before, now, key, n);
    }
  }

  lemma {:induction false} RunCounts(s: Settings, run: seq<Timed>, key: Key)
    ensures Counts(s, Lookup(StateAfter(s, run), key), FailuresSince(run, key))
  {
    if run != [] {
      var before, last := run[..|run| - 1], run[|run| - 1];
      RunCounts(s, before, key);
      if last.call.Failure? {
        FailuresCount(s, StateAfter(s, before), last.call.keys, last.now, key, FailuresSince(before, key));
      }
    }
  }

  /** A key is never blocked before `maxFailures` failures of it: a success starts the count again. */
  lemma BlocksNeedFailures(s: Settings, run: seq<Timed>, key: Key, now: Time)
    requires 0 <= now && Remaining(Lookup(StateAfter(s, run), key), now) > 0
    ensures FailuresSince(run, key) >= s.maxFailures
  {
    RunCounts(s, run, key);
  }

  /** One key's entry after failures at the times given. */
  function FailedAt(s: Settings, e: Entry, times: seq<Time>): Entry {
    if times == [] then e else Failed(s, FailedAt(s, e, times[..|times| - 1]), times[|times| - 1])
  }

  /** Failures within one window are counted together, whatever came before the window: fewer than `maxFailures` of them
      leave the block as it was, and from the last needed on each starts the block anew. */
  lemma {:induction false} OneWindowCounts(s: Settings, e: Entry, times: seq<Time>)
    requires times != [] && 0 < times[0] && 0 < s.window && WindowOver(s, e, times[0])
    requires forall i :: 0 <= i < |times| ==> Sub(times[i], times[0]) < s.window
    ensures FailedAt(s, e, times) ==
            Entry(times[0], if |times| >= s.maxFailures then times[|times| - 1] + s.block else e.blockedUntil,
                  times[|times| - 1], |times|)
  {
    var before := times[..|times| - 1];
    if before == [] {
      assert FailedAt(s, e, before) == e;
    } else {
      OneWindowCounts(s, e, before);
    }
  }

  /** So `maxFailures` failures of a fresh key in one window block it, for `block` from the last of them. */
  lemma EnoughFailuresBlock(s: Settings, times: seq<Time>, now: Time)
    requires 1 <= s.maxFailures == |times| && 0 < times[0] && 0 < s.window && 0 <= s.block
    requires forall i :: 0 <= i < |times| ==> times[0] <= times[i] && Sub(times[i], times[0]) < s.window
    requires times[|times| - 1] <= now
    ensures Remaining(FailedAt(s, ABSENT, times), now) ==
            if now < times[|times| - 1] + s.block then times[|times| - 1] + s.block - now else 0
    ensures Remaining(FailedAt(s, ABSENT, times[..|times| - 1]), now) == 0
  {
    OneWindowCounts(s, ABSENT, times);
    var before := times[..|times| - 1];
    if before == [] {
      assert FailedAt(s, ABSENT, before) == ABSENT;
    } else {
      OneWindowCounts(s, ABSENT, before);
    }
  }

  // ---------------------------------------------------------------- what is kept

  // The call that last failed `key`.
  predicate FailsAt(run: seq<Timed>, key: Key, i: int) {
    0 <= i < |run| && run[i].call.Failure? && key in run[i].call.keys
  }

  ghost predicate Remembers(s: Settings, run: seq<Timed>, e: Entry, key: Key) {
    && e.lastSeen > 0
    && (exists i :: FailsAt(run, key, i) && run[i].now == e.lastSeen)
    && (e.blockedUntil > 0 ==> e.blockedUntil <= e.lastSeen + s.block)
  }

  // A clock that never steps back.
  predicate Ordered(run: seq<Timed>) {
    forall i, j :: 0 <= i <= j < |run| ==> 0 < run[i].now <= run[j].now
  }

  lemma {:induction false} FailedRemembers(s: Settings, entries: Entries, keys: seq<Key>, now: Time, key: Key)
    requires key in keys && now > 0 && Lookup(entries, key).lastSeen <= now
    requires Lookup(entries, key).blockedUntil > 0 ==> Lookup(entries, key).blockedUntil <= now + s.block
    ensures var after := FailedAll(s, entries, keys, now);
            && key in after && after[key].lastSeen == now
            && (after[key].blockedUntil > 0 ==> after[key].blockedUntil <= now + s.block)
  {
    var before, last := keys[..|keys| - 1], keys[|keys| - 1];
    assert keys == before + [last];
    if key in before {
      FailedRemembers(s, entries, before, now, key);
    } else {
      FailedElsewhere(s, entries, before, now, key);
    }
  }

  lemma {:induction false} FailedElsewhere(s: Settings, entries: Entries, keys: seq<Key>, now: Time, key: Key)
    requires key !in keys
    ensures var after := FailedAll(s, entries, keys, now);
            (key in after <==> key in entries) && (key in entries ==> after[key] == entries[key])
  {
    if keys != [] {
      var before, last := keys[..|keys| - 1], keys[|keys| - 1];
      assert keys == before + [last];
      FailedElsewhere(s, entries, before, now, key);
    }
  }

  lemma {:induction false} RunRemembers(s: Settings, run: seq<Timed>, key: Key)
    requires Ordered(run) && key in StateAfter(s, run)
    ensures Remembers(s, run, StateAfter(s, run)[key], key)
  {
    var before, last := run[..|run| - 1], run[|run| - 1];
    var entries, after := StateAfter(s, before), StateAfter(s, run);
    if key in entries {
      RunRemembers(s, before, key);
      var i :| FailsAt(before, key, i) && before[i].now == entries[key].lastSeen;
      assert FailsAt(run, key, i);
    }
    if last.call.Failure? && s.maxFailures > 0 {
      if key in last.call.keys {
        FailedRemembers(s, entries, last.call.keys, last.now, key);
        assert FailsAt(run, key, |run| - 1);
      } else {
        FailedElsewhere(s, entries, last.call.keys, last.now, key);
      }
    }
  }

  /** Every entry there is after an Allow is of a key that failed within `window + block`, so a limiter that is asked
      forgets. */
  lemma OnlyRecentIsKept(s: Settings, run: seq<Timed>, key: Key)
    requires Ordered(run) && run != [] && run[|run| - 1].call.Allow? && key in StateAfter(s, run)
    requires s.maxFailures > 0 && 0 <= s.window && 0 <= s.block && s.window + s.block < MAX_DURATION
    ensures exists i :: FailsAt(run, key, i) && run[|run| - 1].now - run[i].now <= s.window + s.block
  {
    RunRemembers(s, run, key);
  }
}
