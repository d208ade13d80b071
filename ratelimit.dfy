/**
 * The fixed-window request limiter.  Each (identifier, action) pair counts its
 * attempts in a record whose window starts at the record's creation; a record
 * counts while its window start is no older than the configured window.  Time is
 * in seconds; the store's failures are inputs.
 */
module RateLimiting {

  import opened Wrappers
  import AuthMiddleware

  datatype RateLimitRecord = RateLimitRecord(
    identifier: string,
    action: string,
    attempts: int,
    windowStart: int,
    createdAt: int)

  datatype Decision =
    | Pass                              // the request goes on to its handler
    | TooManyRequests                   // 429, "Rate limit exceeded. Please try again later."
    | InternalError(message: string)    // 500

  /** Which store operations fail during one check. */
  datatype Faults = Faults(lookupFails: bool, insertFails: bool, updateFails: bool)

  const NoFaults := Faults(false, false, false)

  /**
   * The key requests are counted under: the "userID" local when one is set, otherwise
   * the client IP.  A set local that is not a string makes the type assertion panic
   * (`None`).
   */
  function Identifier(local: AuthMiddleware.LocalValue, ip: string): (r: Option<string>)
    ensures local.Absent? ==> r == Some(ip)
    ensures local.Str? ==> r == Some(local.s)
    ensures r.None? <==> local.Oid? || local.OtherType?
  {
    match local
    case Absent => Some(ip)
    case Str(s) => Some(s)
    case _ => None
  }

  /** A record counts for a request at a time whose window begins at `windowStart`. */
  predicate Counts(r: RateLimitRecord, id: string, action: string, windowStart: int)
  {
    r.identifier == id && r.action == action && r.windowStart >= windowStart
  }

  /** The first record the lookup filter matches, in store order. */
  function FirstMatch(s: seq<RateLimitRecord>, id: string, action: string, windowStart: int): (r: Option<nat>)
    ensures r.Some? ==> r.value < |s| && Counts(s[r.value], id, action, windowStart)
    ensures r.Some? ==> forall i :: 0 <= i < r.value ==> !Counts(s[i], id, action, windowStart)
    ensures r.None? ==> forall i :: 0 <= i < |s| ==> !Counts(s[i], id, action, windowStart)
  {
    if s == [] then None
    else if Counts(s[0], id, action, windowStart) then Some(0)
    else
      var t := FirstMatch(s[1..], id, action, windowStart);
      if t.None? then None else Some(t.value + 1)
  }

  function Fresh(id: string, action: string, now: int): RateLimitRecord
  {
    RateLimitRecord(id, action, 1, now, now)
  }

  datatype Outcome = Outcome(decision: Decision, records: seq<RateLimitRecord>)

  /**
   * One check for `id` and `action` at time `now`.  Without a counting record (or
   * when the lookup fails) a fresh record with one attempt is stored and the request
   * passes; a record at or above `maxAttempts` refuses the request untouched;
   * otherwise its attempts go up by one and the request passes.
   */
  function Decide(s: seq<RateLimitRecord>, id: string, action: string, maxAttempts: int,
                  now: int, window: int, f: Faults): (o: Outcome)
    ensures o.decision.InternalError? || o.decision == TooManyRequests ==> o.records == s
    ensures f.lookupFails || FirstMatch(s, id, action, now - window).None? ==>
              o == if f.insertFails then Outcome(InternalError("Rate limit check failed"), s)
                   else Outcome(Pass, s + [Fresh(id, action, now)])
    ensures !f.lookupFails && FirstMatch(s, id, action, now - window).Some? &&
            s[FirstMatch(s, id, action, now - window).value].attempts < maxAttempts ==>
              var m := FirstMatch(s, id, action, now - window).value;
              o == if f.updateFails then Outcome(InternalError("Rate limit update failed"), s)
                   else Outcome(Pass, s[m := s[m].(attempts := s[m].attempts + 1)])
    ensures o.decision == TooManyRequests <==>
              !f.lookupFails && FirstMatch(s, id, action, now - window).Some? &&
              s[FirstMatch(s, id, action, now - window).value].attempts >= maxAttempts
  {
    var m := FirstMatch(s, id, action, now - window);
    if f.lookupFails || m.None? then
      if f.insertFails then Outcome(InternalError("Rate limit check failed"), s)
      else Outcome(Pass, s + [Fresh(id, action, now)])
    else
      var r := s[m.value];
      if r.attempts >= maxAttempts then Outcome(TooManyRequests, s)
      else if f.updateFails then Outcome(InternalError("Rate limit update failed"), s)
      else Outcome(Pass, s[m.value := r.(attempts := r.attempts + 1)])
  }

  /** The records kept by a cleanup at `cutoff`, in their order. */
  function Kept(s: seq<RateLimitRecord>, cutoff: int): (r: seq<RateLimitRecord>)
    ensures |r| <= |s|
    ensures forall i :: 0 <= i < |r| ==> r[i].windowStart >= cutoff && r[i] in s
    ensures forall x :: x in s && x.windowStart >= cutoff ==> x in r
  {
    if s == [] then []
    else if s[0].windowStart < cutoff then Kept(s[1..], cutoff)
    else [s[0]] + Kept(s[1..], cutoff)
  }

  /** The decisions and final records of successive fault-free checks at `times`. */
  datatype Trace = Trace(decisions: seq<Decision>, records: seq<RateLimitRecord>)

  function Replay(s: seq<RateLimitRecord>, id: string, action: string, maxAttempts: int,
                  window: int, times: seq<int>): (t: Trace)
    ensures |t.decisions| == |times|
    decreases |times|
  {
    if times == [] then Trace([], s)
    else
      var o := Decide(s, id, action, maxAttempts, times[0], window, NoFaults);
      var rest := Replay(o.records, id, action, maxAttempts, window, times[1..]);
      Trace([o.decision] + rest.decisions, rest.records)
  }

  /**
   * `s[j]` is the record opened at `t0` for `id` and `action`, holding `a` attempts,
   * and no record before it counts for a window that begins at t0 − window.
   */
  predicate WindowOpen(s: seq<RateLimitRecord>, j: nat, a: int, t0: int,
                       id: string, action: string, window: int)
  {
    j < |s| && s[j].identifier == id && s[j].action == action &&
    s[j].attempts == a && s[j].windowStart == t0 &&
    forall i :: 0 <= i < j ==> !Counts(s[i], id, action, t0 - window)
  }

  lemma {:induction false} WindowRecordFound(s: seq<RateLimitRecord>, j: nat, a: int, t0: int,
                          id: string, action: string, window: int, t: int)
    requires WindowOpen(s, j, a, t0, id, action, window)
    requires t0 <= t <= t0 + window
    ensures FirstMatch(s, id, action, t - window) == Some(j)
  {
    var m := FirstMatch(s, id, action, t - window);
    assert Counts(s[j], id, action, t - window);
    if m.Some? && m.value < j {
      assert Counts(s[m.value], id, action, t0 - window);
    }
  }

  /** The attempts of a record holding `a` after `n` more requests in its window: one more per pass, up to the limit. */
  function Raised(a: int, maxAttempts: int, n: nat): int
  {
    if a >= maxAttempts then a else if a + n <= maxAttempts then a + n else maxAttempts
  }

  /**
   * Checks inside the window of an open record pass while it holds fewer than
   * `maxAttempts` attempts, each raising it by one, and are refused from then on;
   * the record ends with `Raised(a, maxAttempts, |times|)` attempts.
   */
  lemma {:induction false} RunInWindow(s: seq<RateLimitRecord>, j: nat, a: int, t0: int,
                                       id: string, action: string, maxAttempts: int,
                                       window: int, times: seq<int>)
    requires WindowOpen(s, j, a, t0, id, action, window)
    requires forall k :: 0 <= k < |times| ==> t0 <= times[k] <= t0 + window
    ensures var tr := Replay(s, id, action, maxAttempts, window, times);
      |tr.records| == |s| &&
      WindowOpen(tr.records, j, Raised(a, maxAttempts, |times|), t0, id, action, window) &&
      forall k :: 0 <= k < |times| ==>
        tr.decisions[k] == (if k < maxAttempts - a then Pass else TooManyRequests)
    decreases |times|
  {
    if times != [] {
      WindowRecordFound(s, j, a, t0, id, action, window, times[0]);
      var o := Decide(s, id, action, maxAttempts, times[0], window, NoFaults);
      var a' := if a >= maxAttempts then a else a + 1;
      assert WindowOpen(o.records, j, a', t0, id, action, window);
      RunInWindow(o.records, j, a', t0, id, action, maxAttempts, window, times[1..]);
      var rest := Replay(o.records, id, action, maxAttempts, window, times[1..]);
      var tr := Replay(s, id, action, maxAttempts, window, times);
      assert tr.decisions == [o.decision] + rest.decisions;
      forall k | 1 <= k < |times|
        ensures tr.decisions[k] == (if k < maxAttempts - a then Pass else TooManyRequests)
      {
        assert tr.decisions[k] == rest.decisions[k - 1];
      }
    }
  }

  lemma {:induction false} FreshAfterWindow(s: seq<RateLimitRecord>, j: nat, a: int, t0: int,
                         id: string, action: string, maxAttempts: int, window: int, t: int)
    requires WindowOpen(s, j, a, t0, id, action, window) && |s| == j + 1
    requires window >= 0 && t > t0 + window
    ensures Decide(s, id, action, maxAttempts, t, window, NoFaults) == Outcome(Pass, s + [Fresh(id, action, t)])
  {
    var m := FirstMatch(s, id, action, t - window);
    if m.Some? {
      if m.value < j {
        assert Counts(s[m.value], id, action, t0 - window);
      }
    }
  }

  /**
   * Starting with no counting record, checks within one window of the first pass for
   * the first `maxAttempts` requests and refuse every later one with 429; the first
   * check after the window has elapsed passes again with a fresh count.
   */
  lemma {:induction false} AttemptsPerWindow(s: seq<RateLimitRecord>, id: string, action: string,
                                             maxAttempts: int, window: int, times: seq<int>)
    requires maxAttempts >= 1 && |times| >= 1
    requires forall k :: 0 <= k < |times| ==> times[0] <= times[k] <= times[0] + window
    requires FirstMatch(s, id, action, times[0] - window).None?
    ensures var tr := Replay(s, id, action, maxAttempts, window, times);
      forall k :: 0 <= k < |times| ==>
        tr.decisions[k] == (if k < maxAttempts then Pass else TooManyRequests)
    ensures var tr := Replay(s, id, action, maxAttempts, window, times);
      forall t :: t > times[0] + window ==>
        Decide(tr.records, id, action, maxAttempts, t, window, NoFaults) ==
          Outcome(Pass, tr.records + [Fresh(id, action, t)])
  {
    var t0 := times[0];
    var s1 := s + [Fresh(id, action, t0)];
    assert Decide(s, id, action, maxAttempts, t0, window, NoFaults) == Outcome(Pass, s1);
    assert WindowOpen(s1, |s|, 1, t0, id, action, window);
    RunInWindow(s1, |s|, 1, t0, id, action, maxAttempts, window, times[1..]);
    var rest := Replay(s1, id, action, maxAttempts, window, times[1..]);
    var tr := Replay(s, id, action, maxAttempts, window, times);
    assert tr == Trace([Pass] + rest.decisions, rest.records);
    forall k | 1 <= k < |times|
      ensures tr.decisions[k] == (if k < maxAttempts then Pass else TooManyRequests)
    {
      assert tr.decisions[k] == rest.decisions[k - 1];
    }
    var b := Raised(1, maxAttempts, |times| - 1);
    forall t | t > t0 + window
      ensures Decide(tr.records, id, action, maxAttempts, t, window, NoFaults) ==
                Outcome(Pass, tr.records + [Fresh(id, action, t)])
    {
      FreshAfterWindow(rest.records, |s|, b, t0, id, action, maxAttempts, window, t);
    }
  }

  /** The records that count for a window beginning at `windowStart`, in store order. */
  function Counting(s: seq<RateLimitRecord>, id: string, action: string, windowStart: int): seq<RateLimitRecord>
  {
    if s == [] then []
    else (if Counts(s[0], id, action, windowStart) then [s[0]] else []) + Counting(s[1..], id, action, windowStart)
  }

  /** The lookup finds the first counting record, and nothing when none counts. */
  lemma {:induction false} FirstMatchCounting(s: seq<RateLimitRecord>, id: string, action: string, windowStart: int)
    ensures FirstMatch(s, id, action, windowStart).None? <==> Counting(s, id, action, windowStart) == []
    ensures FirstMatch(s, id, action, windowStart).Some? ==>
              s[FirstMatch(s, id, action, windowStart).value] == Counting(s, id, action, windowStart)[0]
  {
    if s != [] && !Counts(s[0], id, action, windowStart) {
      FirstMatchCounting(s[1..], id, action, windowStart);
      var m := FirstMatch(s[1..], id, action, windowStart);
      if m.Some? {
        assert s[m.value + 1] == s[1..][m.value];
      }
    }
  }

  /** A cleanup whose cutoff is no later than a window's start keeps every record that counts for it. */
  lemma {:induction false} KeptCounting(s: seq<RateLimitRecord>, cutoff: int, id: string, action: string, windowStart: int)
    requires cutoff <= windowStart
    ensures Counting(Kept(s, cutoff), id, action, windowStart) == Counting(s, id, action, windowStart)
  {
    if s != [] {
      KeptCounting(s[1..], cutoff, id, action, windowStart);
      if s[0].windowStart >= cutoff {
        var k := Kept(s[1..], cutoff);
        assert Kept(s, cutoff) == [s[0]] + k;
        assert ([s[0]] + k)[1..] == k;
      }
    }
  }

  /**
   * A cleanup at `cutoff` changes no later decision: the records it deletes could
   * no longer count for any check whose window begins at or after the cutoff.
   */
  lemma {:induction false} CleanupKeepsDecisions(s: seq<RateLimitRecord>, cutoff: int, id: string, action: string,
                              maxAttempts: int, now: int, window: int, f: Faults)
    requires cutoff <= now - window
    ensures Decide(Kept(s, cutoff), id, action, maxAttempts, now, window, f).decision ==
            Decide(s, id, action, maxAttempts, now, window, f).decision
  {
    KeptCounting(s, cutoff, id, action, now - window);
    SameCountingSameDecision(Kept(s, cutoff), s, id, action, maxAttempts, now, window, f);
  }

  /** Two stores holding the same counting records, in the same order, lead to the same decision. */
  lemma {:induction false} SameCountingSameDecision(s: seq<RateLimitRecord>, t: seq<RateLimitRecord>, id: string, action: string,
                                 maxAttempts: int, now: int, window: int, f: Faults)
    requires Counting(s, id, action, now - window) == Counting(t, id, action, now - window)
    ensures Decide(s, id, action, maxAttempts, now, window, f).decision ==
            Decide(t, id, action, maxAttempts, now, window, f).decision
  {
    DecisionOfCounting(s, id, action, maxAttempts, now, window, f);
    DecisionOfCounting(t, id, action, maxAttempts, now, window, f);
  }

  /** A check's decision depends only on the faults and on the first counting record. */
  lemma {:induction false} DecisionOfCounting(s: seq<RateLimitRecord>, id: string, action: string, maxAttempts: int,
                           now: int, window: int, f: Faults)
    ensures var c := Counting(s, id, action, now - window);
            Decide(s, id, action, maxAttempts, now, window, f).decision ==
              if f.lookupFails || c == [] then
                (if f.insertFails then InternalError("Rate limit check failed") else Pass)
              else if c[0].attempts >= maxAttempts then TooManyRequests
              else if f.updateFails then InternalError("Rate limit update failed")
              else Pass
  {
    FirstMatchCounting(s, id, action, now - window);
    DecisionOfMatch(s, id, action, maxAttempts, now, window, f);
  }

  /** The decision as the lookup's result determines it. */
  lemma {:induction false} DecisionOfMatch(s: seq<RateLimitRecord>, id: string, action: string, maxAttempts: int,
                        now: int, window: int, f: Faults)
    ensures var m := FirstMatch(s, id, action, now - window);
            Decide(s, id, action, maxAttempts, now, window, f).decision ==
              if f.lookupFails || m.None? then
                (if f.insertFails then InternalError("Rate limit check failed") else Pass)
              else if s[m.value].attempts >= maxAttempts then TooManyRequests
              else if f.updateFails then InternalError("Rate limit update failed")
              else Pass
  {
  }

  class RateLimiter {
    /** The rate_limits collection, in store order. */
    var records: seq<RateLimitRecord>
    /** The configured window, in seconds. */
    const window: int

    constructor (window: int)
      ensures this.window == window && records == []
    {
      this.window := window;
      records := [];
    }

    /**
     * The limiter middleware for `action`: refuses with 500 when the user ID local
     * cannot be read as a string, and otherwise decides as `Decide` says.
     */
    method RateLimit(action: string, maxAttempts: int, local: AuthMiddleware.LocalValue, ip: string,
                     now: int, f: Faults) returns (d: Decision)
      modifies this`records
      ensures Identifier(local, ip).None? ==> d.InternalError? && records == old(records)
      ensures Identifier(local, ip).Some? ==>
                Outcome(d, records) == Decide(old(records), Identifier(local, ip).value, action, maxAttempts, now, window, f)
    {
      var id := Identifier(local, ip);
      if id.None? {
        return InternalError("Internal Server Error");
      }
      var m := FirstMatch(records, id.value, action, now - window);
      if f.lookupFails || m.None? {
        if f.insertFails {
          return InternalError("Rate limit check failed");
        }
        records := records + [Fresh(id.value, action, now)];
        return Pass;
      }
      var r := records[m.value];
      if r.attempts >= maxAttempts {
        return TooManyRequests;
      }
      if f.updateFails {
        return InternalError("Rate limit update failed");
      }
      records := records[m.value := r.(attempts := r.attempts + 1)];
      d := Pass;
    }

    /** One tick of the hourly cleanup: deletes the records whose window started before now − window. */
    method CleanupRateLimits(now: int, deleteFails: bool)
      modifies this`records
      ensures deleteFails ==> records == old(records)
      ensures !deleteFails ==> records == Kept(old(records), now - window)
    {
      if !deleteFails {
        records := Kept(records, now - window);
      }
    }
  }
}
