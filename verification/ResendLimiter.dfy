/** The OTP resend limiter of `src/auth/second-factor.service.ts`. */
module ResendLimiter {
  const RESEND_WINDOW_MS: int := 10 * 60 * 1000
  const RESEND_MAX: nat := 3

  type Attempts = map<string, seq<int>>

  /** `attempts.filter((t) => now - t < RESEND_WINDOW_MS)`. */
  function Recent(times: seq<int>, now: int): (r: seq<int>)
    ensures |r| <= |times|
  {
    if times == [] then []
    else
      var rest := Recent(times[..|times| - 1], now);
      if now - times[|times| - 1] < RESEND_WINDOW_MS then rest + [times[|times| - 1]] else rest
  }

  function Of(m: Attempts, email: string): seq<int> {
    if email in m then m[email] else []
  }

  predicate Allows(m: Attempts, email: string, now: int) {
    |Recent(Of(m, email), now)| < RESEND_MAX
  }

  function After(m: Attempts, email: string, now: int): Attempts {
    if Allows(m, email, now) then m[email := Recent(Of(m, email), now) + [now]] else m
  }

  class SecondFactorService {
    var resendAttempts: Attempts

    constructor ()
      ensures resendAttempts == map[]
    {
      resendAttempts := map[];
    }

    /** Refuses, or records the attempt. The filter is a loop over the stored times. */
    method AssertResendAllowed(email: string, now: int) returns (allowed: bool)
      modifies this
      ensures allowed == Allows(old(resendAttempts), email, now)
      ensures resendAttempts == After(old(resendAttempts), email, now)
    {
      var stored := if email in resendAttempts then resendAttempts[email] else [];
      var attempts: seq<int> := [];
      for i := 0 to |stored|
        invariant attempts == Recent(stored[..i], now)
      {
        assert stored[..i + 1][..i] == stored[..i];
        if now - stored[i] < RESEND_WINDOW_MS { attempts := attempts + [stored[i]]; }
      }
      assert stored[..|stored|] == stored;
      if |attempts| >= RESEND_MAX { return false; }
      attempts := attempts + [now];
      resendAttempts := resendAttempts[email := attempts];
      allowed := true;
    }
  }

  // ---- whole runs

  datatype Request = Request(email: string, at: int)

  /** The map after a run of requests, and the instants at which an email's requests were allowed. */
  function AfterRun(run: seq<Request>): Attempts {
    if run == [] then map[]
    else var last := run[|run| - 1]; After(AfterRun(run[..|run| - 1]), last.email, last.at)
  }

  predicate IsAllowed(run: seq<Request>, i: nat)
    requires i < |run|
  {
    Allows(AfterRun(run[..i]), run[i].email, run[i].at)
  }

  function AllowedTimes(run: seq<Request>, email: string): seq<int> {
    if run == [] then []
    else
      var n := |run| - 1;
      var earlier := AllowedTimes(run[..n], email);
      if run[n].email == email && IsAllowed(run, n) then earlier + [run[n].at] else earlier
  }

  ghost predicate ClockRuns(run: seq<Request>) {
    forall i, j | 0 <= i <= j < |run| :: run[i].at <= run[j].at
  }

  function CountIn(times: seq<int>, from: int, to: int): nat {
    if times == [] then 0
    else CountIn(times[..|times| - 1], from, to) + if from <= times[|times| - 1] < to then 1 else 0
  }

  lemma {:induction false} RecentOfAppend(times: seq<int>, t: int, now: int)
    ensures Recent(times + [t], now)
            == if now - t < RESEND_WINDOW_MS then Recent(times, now) + [t] else Recent(times, now)
  {
    assert (times + [t])[..|times|] == times;
  }

  /** Dropping what is too old now and filtering again later is filtering later. */
  lemma {:induction false} RecentTwice(times: seq<int>, now: int, later: int)
    requires now <= later
    ensures Recent(Recent(times, now), later) == Recent(times, later)
  {
    if times != [] {
      var n := |times| - 1;
      RecentTwice(times[..n], now, later);
      if now - times[n] < RESEND_WINDOW_MS { RecentOfAppend(Recent(times[..n], now), times[n], later); }
    }
  }

  /** What is stored says as much about any later instant as the full list of allowed instants would. */
  lemma {:induction false} StoredIsEnough(run: seq<Request>, email: string, later: int)
    requires ClockRuns(run) && (run != [] ==> run[|run| - 1].at <= later)
    ensures Recent(Of(AfterRun(run), email), later) == Recent(AllowedTimes(run, email), later)
  {
    if run != [] {
      var n := |run| - 1;
      var now := run[n].at;
      StoredIsEnough(run[..n], email, later);
      if run[n].email == email && IsAllowed(run, n) {
        var stored := Of(AfterRun(run[..n]), email);
        RecentOfAppend(Recent(stored, now), now, later);
        RecentTwice(stored, now, later);
        RecentOfAppend(AllowedTimes(run[..n], email), now, later);
      }
    }
  }

  /** The recent instants of a list that lies in the past are those in the window that ends now. */
  lemma {:induction false} RecentIsWindow(times: seq<int>, now: int)
    requires forall i | 0 <= i < |times| :: times[i] <= now
    ensures |Recent(times, now)| == CountIn(times, now - RESEND_WINDOW_MS + 1, now + 1)
  {
    if times != [] { RecentIsWindow(times[..|times| - 1], now); }
  }

  lemma {:induction false} AllowedTimesArePast(run: seq<Request>, email: string, now: int)
    requires ClockRuns(run) && (run != [] ==> run[|run| - 1].at <= now)
    ensures forall i | 0 <= i < |AllowedTimes(run, email)| :: AllowedTimes(run, email)[i] <= now
  {
    if run != [] { AllowedTimesArePast(run[..|run| - 1], email, now); }
  }

  /** With a clock that does not go back, a request is allowed exactly when fewer than 3 allowed requests for
      its email lie in the 10 minutes that end with it. */
  lemma AllowedIffWindowHasRoom(run: seq<Request>, i: nat)
    requires ClockRuns(run) && i < |run|
    ensures IsAllowed(run, i) <==>
            CountIn(AllowedTimes(run[..i], run[i].email), run[i].at - 600000 + 1, run[i].at + 1) < 3
  {
    hide AfterRun, AllowedTimes, Recent, CountIn;
    var earlier := run[..i];
    StoredIsEnough(earlier, run[i].email, run[i].at);
    AllowedTimesArePast(earlier, run[i].email, run[i].at);
    RecentIsWindow(AllowedTimes(earlier, run[i].email), run[i].at);
  }

  lemma {:induction false} NarrowerWindowHasNoMore(times: seq<int>, from: int, to: int, from': int, to': int)
    requires forall i | 0 <= i < |times| && from <= times[i] < to :: from' <= times[i] < to'
    ensures CountIn(times, from, to) <= CountIn(times, from', to')
  {
    if times != [] { NarrowerWindowHasNoMore(times[..|times| - 1], from, to, from', to'); }
  }

  lemma AllowedRequestFits(run: seq<Request>, n: nat, x: int)
    requires ClockRuns(run) && n < |run| && IsAllowed(run, n)
    requires CountIn(AllowedTimes(run[..n], run[n].email), x, x + RESEND_WINDOW_MS) <= RESEND_MAX
    ensures CountIn(AllowedTimes(run[..n], run[n].email) + [run[n].at], x, x + RESEND_WINDOW_MS) <= RESEND_MAX
  {
    hide CountIn, AfterRun, AllowedTimes, IsAllowed;
    var earlier, now := AllowedTimes(run[..n], run[n].email), run[n].at;
    OneMoreIn(earlier, now, x, x + RESEND_WINDOW_MS);
    if x <= now < x + RESEND_WINDOW_MS {
      AllowedIffWindowHasRoom(run, n);
      AllowedTimesArePast(run[..n], run[n].email, now);
      NarrowerWindowHasNoMore(earlier, x, x + RESEND_WINDOW_MS, now - RESEND_WINDOW_MS + 1, now + 1);
    }
  }

  /** The limit: in every run, for every email, no window of 10 minutes holds more than 3 allowed requests. */
  lemma {:induction false} AtMostThreePerWindow(run: seq<Request>, email: string, x: int)
    requires ClockRuns(run)
    ensures CountIn(AllowedTimes(run, email), x, x + 600000) <= 3
  {
    if run != [] {
      var n := |run| - 1;
      AtMostThreePerWindow(run[..n], email, x);
      if run[n].email == email && IsAllowed(run, n) {
        AllowedRequestFits(run, n, x);
      }
    }
  }

  lemma OneMoreIn(times: seq<int>, t: int, from: int, to: int)
    ensures CountIn(times + [t], from, to) == CountIn(times, from, to) + if from <= t < to then 1 else 0
  {
    assert (times + [t])[..|times|] == times;
  }
}
