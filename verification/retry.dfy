/**
 * The recovery loops of the five worker threads in main_cloud.py.
 *
 * A worker's `run` is an outer login loop around an inner steady-state loop.
 * The browser work is abstracted to one observation per loop iteration: the
 * stop flag was found set at a loop test, the step succeeded (a login in the
 * outer loop, a cycle in the inner one), or it raised. The five classes
 * differ only in where the failure counter is reset and when it is compared with the limit.
 */
module Retry {
  import opened Aliases

  /** What happened at one iteration of the worker's loops. */
  datatype Event =
    | StopSeen     // `stop_evt.is_set()` was true at a loop test
    | Success      // `_login()` (outer loop) or one steady cycle (inner loop) returned
    | Failure      // it raised; the outer `except` handles it

  datatype EndReason = Requested | TooManyFailures

  datatype Phase =
    | LoggingIn           // at the head of the outer loop
    | Steady              // at the head of the inner loop, logged in
    | Stopped(why: EndReason)

  /** The loop position and `retry_count`. */
  datatype RunState = RunState(phase: Phase, retry: nat)

  /** The largest counter value at which the classic workers still retry. */
  const MaxRetries := 5

  const Start := RunState(LoggingIn, 0)

  /** IOB, KGB and IDBI also zero the counter after every steady cycle; TMB and IDFC do not. */
  predicate ResetsEachCycle(k: WorkerKind) {
    k == Iob || k == Kgb || k == Idbi
  }

  /**
   * One iteration of a worker's `run`. The classic handler (TMB, IOB, KGB,
   * IDBI) adds one to the counter and gives up when it exceeds 5; IDFC gives
   * up when the counter is already at least 5 and otherwise lets `_retry`
   * add one.
   */
  function Step(k: WorkerKind, s: RunState, e: Event): (r: RunState)
    ensures s.phase.Stopped? ==> r == s
    ensures !s.phase.Stopped? && e == StopSeen ==> r == RunState(Stopped(Requested), s.retry)
    ensures !s.phase.Stopped? && e == Success ==> r.phase == Steady
    ensures s.phase == LoggingIn && e == Success ==> r.retry == 0
    ensures !s.phase.Stopped? && e == Failure ==>
      r.phase in {LoggingIn, Stopped(TooManyFailures)}
  {
    if s.phase.Stopped? then s
    else match e
      case StopSeen => RunState(Stopped(Requested), s.retry)
      case Success =>
        if s.phase == LoggingIn || ResetsEachCycle(k) then RunState(Steady, 0)
        else RunState(Steady, s.retry)
      case Failure =>
        if k == Idfc then
          if s.retry >= MaxRetries then RunState(Stopped(TooManyFailures), s.retry)
          else RunState(LoggingIn, s.retry + 1)
        else
          var n := s.retry + 1;
          if n > MaxRetries then RunState(Stopped(TooManyFailures), n)
          else RunState(LoggingIn, n)
  }

  /** The state after a sequence of observations, starting from `s`. */
  function Fold(k: WorkerKind, s: RunState, es: seq<Event>): RunState
  {
    if es == [] then s else Step(k, Fold(k, s, es[..|es| - 1]), es[|es| - 1])
  }

  /** The number of failures that end `es` without a success in between. */
  function TrailingFailures(es: seq<Event>): (n: nat)
    ensures n <= |es|
    ensures forall i :: |es| - n <= i < |es| ==> es[i] == Failure
    ensures n < |es| ==> es[|es| - 1 - n] != Failure
  {
    if es == [] || es[|es| - 1] != Failure then 0
    else 1 + TrailingFailures(es[..|es| - 1])
  }

  /**
   * While the worker runs, the counter is the number of consecutive
   * failures since the last success, it is at most 5, and it is 0 in the
   * steady phase; no stop has been seen.
   */
  lemma {:induction false} CounterTracksFailures(k: WorkerKind, es: seq<Event>)
    ensures var s := Fold(k, Start, es);
      !s.phase.Stopped? ==>
        && s.retry == TrailingFailures(es)
        && s.retry <= MaxRetries
        && (s.phase == Steady ==> s.retry == 0)
        && StopSeen !in es
  {
    if es != [] {
      var init := es[..|es| - 1];
      CounterTracksFailures(k, init);
      var prev := Fold(k, Start, init);
      if !Fold(k, Start, es).phase.Stopped? {
        assert !prev.phase.Stopped?;
        assert es == init + [es[|es| - 1]];
      }
    }
  }

  /**
   * Every worker class gives up on exactly the sixth consecutive failure: a
   * failure stops a running worker for good iff five failures directly
   * precede it.
   */
  lemma GivesUpOnSixthFailure(k: WorkerKind, es: seq<Event>)
    requires !Fold(k, Start, es).phase.Stopped?
    ensures Fold(k, Start, es + [Failure]).phase == Stopped(TooManyFailures)
        <==> TrailingFailures(es) == MaxRetries
    ensures Fold(k, Start, es + [Failure]).phase == Stopped(TooManyFailures)
        ==> TrailingFailures(es + [Failure]) == MaxRetries + 1
  {
    CounterTracksFailures(k, es);
    assert (es + [Failure])[..|es|] == es;
  }

  /** A success while logging in always leaves the counter at 0. */
  lemma LoginSuccessResets(k: WorkerKind, es: seq<Event>)
    requires Fold(k, Start, es).phase == LoggingIn
    ensures Fold(k, Start, es + [Success]) == RunState(Steady, 0)
  {
    assert (es + [Success])[..|es|] == es;
  }

  /**
   * The per-cycle reset of IOB, KGB and IDBI is never observable: the TMB
   * style (no reset) reaches exactly the same state on every input.
   */
  lemma {:induction false} CycleResetUnobservable(k: WorkerKind, es: seq<Event>)
    requires ResetsEachCycle(k)
    ensures Fold(k, Start, es) == Fold(Tmb, Start, es)
  {
    if es != [] {
      var init := es[..|es| - 1];
      CycleResetUnobservable(k, init);
      CounterTracksFailures(k, init);
    }
  }

  /** Once stopped, a worker never runs again. */
  lemma {:induction false} StoppedIsFinal(k: WorkerKind, s: RunState, es: seq<Event>)
    requires s.phase.Stopped?
    ensures Fold(k, s, es) == s
  {
    if es != [] {
      StoppedIsFinal(k, s, es[..|es| - 1]);
    }
  }

  lemma {:induction false} FoldAppend(k: WorkerKind, s: RunState, es: seq<Event>, fs: seq<Event>)
    ensures Fold(k, s, es + fs) == Fold(k, Fold(k, s, es), fs)
  {
    if fs == [] {
      assert es + fs == es;
    } else {
      assert (es + fs)[..|es + fs| - 1] == es + fs[..|fs| - 1];
      assert (es + fs)[|es + fs| - 1] == fs[|fs| - 1];
      FoldAppend(k, s, es, fs[..|fs| - 1]);
    }
  }

  /**
   * A worker's `run`, with the classes' own branches: reads observations
   * until it stops or they run out. It returns the final state and how many
   * observations it read.
   */
  method Run(k: WorkerKind, events: seq<Event>) returns (s: RunState, used: nat)
    ensures used <= |events|
    ensures s == Fold(k, Start, events[..used])
    ensures s == Fold(k, Start, events)
    ensures used < |events| ==> s.phase.Stopped?
    ensures 0 < used ==> !Fold(k, Start, events[..used - 1]).phase.Stopped?
  {
    var phase := LoggingIn;
    var retry := 0;
    used := 0;
    while used < |events| && !phase.Stopped?
      invariant used <= |events|
      invariant RunState(phase, retry) == Fold(k, Start, events[..used])
      invariant 0 < used ==> !Fold(k, Start, events[..used - 1]).phase.Stopped?
    {
      assert events[..used + 1][..used] == events[..used];
      var e := events[used];
      if e == StopSeen {
        phase := Stopped(Requested);
      } else if e == Success {
        if phase == LoggingIn || ResetsEachCycle(k) {
          retry := 0;
        }
        phase := Steady;
      } else if k == Idfc {
        if retry >= MaxRetries {
          phase := Stopped(TooManyFailures);
        } else {
          retry := retry + 1;
          phase := LoggingIn;
        }
      } else {
        retry := retry + 1;
        if retry > MaxRetries {
          phase := Stopped(TooManyFailures);
        } else {
          phase := LoggingIn;
        }
      }
      used := used + 1;
    }
    s := RunState(phase, retry);
    if used < |events| {
      StoppedIsFinal(k, s, events[used..]);
      FoldAppend(k, Start, events[..used], events[used..]);
      assert events[..used] + events[used..] == events;
    } else {
      assert events[..used] == events;
    }
  }

  // ---------------------------------------------------------------------
  // Statement upload: `for attempt in range(1, max_attempts + 1)`
  // ---------------------------------------------------------------------

  /** `max_attempts` of every AutoBank upload loop. */
  const MaxUploadAttempts := 5

  /** Whether upload attempt `i` (0-based) succeeds; attempts past the observations fail. */
  predicate AttemptOk(oks: seq<bool>, i: nat) {
    i < |oks| && oks[i]
  }

  /**
   * The AutoBank upload loop: attempts run until the first success, which
   * breaks; the fifth failure re-raises. `attempts` is how many were made.
   */
  method Upload(oks: seq<bool>) returns (uploaded: bool, attempts: nat)
    ensures 1 <= attempts <= MaxUploadAttempts
    ensures forall i :: 0 <= i < attempts - 1 ==> !AttemptOk(oks, i)
    ensures uploaded <==> AttemptOk(oks, attempts - 1)
    ensures !uploaded ==> attempts == MaxUploadAttempts
  {
    var attempt := 1;
    while true
      invariant 1 <= attempt <= MaxUploadAttempts
      invariant forall i :: 0 <= i < attempt - 1 ==> !AttemptOk(oks, i)
      decreases MaxUploadAttempts - attempt
    {
      if AttemptOk(oks, attempt - 1) {
        return true, attempt;
      }
      if attempt == MaxUploadAttempts {
        return false, attempt;
      }
      attempt := attempt + 1;
    }
  }

  /** The first successful attempt among the first five, if any. */
  function FirstSuccess(oks: seq<bool>, from: nat): (r: nat)
    requires from <= MaxUploadAttempts
    ensures from <= r <= MaxUploadAttempts
    ensures r < MaxUploadAttempts ==> AttemptOk(oks, r)
    ensures forall i :: from <= i < r ==> !AttemptOk(oks, i)
    decreases MaxUploadAttempts - from
  {
    if from == MaxUploadAttempts || AttemptOk(oks, from) then from
    else FirstSuccess(oks, from + 1)
  }

  /**
   * The upload's outcome is decided by the first success: it succeeds on
   * attempt i + 1 iff attempt i is the first success and i < 5, and raises
   * iff none of the first five attempts succeeds.
   */
  lemma UploadDecidedByFirstSuccess(oks: seq<bool>, uploaded: bool, attempts: nat)
    requires 1 <= attempts <= MaxUploadAttempts
    requires forall i :: 0 <= i < attempts - 1 ==> !AttemptOk(oks, i)
    requires uploaded <==> AttemptOk(oks, attempts - 1)
    requires !uploaded ==> attempts == MaxUploadAttempts
    ensures uploaded <==> FirstSuccess(oks, 0) < MaxUploadAttempts
    ensures uploaded ==> attempts == FirstSuccess(oks, 0) + 1
  {
    var f := FirstSuccess(oks, 0);
    if !uploaded {
      assert forall i :: 0 <= i < MaxUploadAttempts ==> !AttemptOk(oks, i);
    }
  }

  // ---------------------------------------------------------------------
  // TMB's upload loop as written
  // ---------------------------------------------------------------------

  /**
   * Whether the worker class defines `_send`, which every upload loop calls
   * right after the success alert. TMBWorker has only `_send_msg`, so there
   * the call raises inside the `try` and the attempt counts as failed.
   */
  predicate DefinesSend(k: WorkerKind) {
    k != Tmb
  }

  /** The outcomes the upload loop of class `k` acts on, given what the site reports. */
  function AsWrittenOutcomes(k: WorkerKind, oks: seq<bool>): (r: seq<bool>)
    ensures |r| == |oks|
    ensures forall i :: 0 <= i < |oks| ==> (AttemptOk(r, i) <==> AttemptOk(oks, i) && DefinesSend(k))
  {
    seq(|oks|, i requires 0 <= i < |oks| => oks[i] && DefinesSend(k))
  }

  /** Every class but TMB acts on the site's outcomes unchanged. */
  lemma AsWrittenKeepsOutcomes(k: WorkerKind, oks: seq<bool>)
    requires DefinesSend(k)
    ensures AsWrittenOutcomes(k, oks) == oks
  {
  }

  /**
   * TMB's upload loop as written: whatever the site reports, every attempt
   * raises, so the loop makes all five attempts and re-raises.
   */
  method TmbUploadAsWritten(oks: seq<bool>) returns (uploaded: bool, attempts: nat)
    ensures !uploaded && attempts == MaxUploadAttempts
    ensures FirstSuccess(AsWrittenOutcomes(Tmb, oks), 0) == MaxUploadAttempts
  {
    uploaded, attempts := Upload(AsWrittenOutcomes(Tmb, oks));
  }

  /** What a steady cycle reports to `run`: the download step re-raises a failed upload. */
  function CycleEvent(uploaded: bool): (e: Event)
    ensures e != StopSeen
    ensures e == Success <==> uploaded
  {
    if uploaded then Success else Failure
  }

  /**
   * One steady TMB cycle as written: either a step before the upload raises
   * (`reached` false) or the upload does, so the cycle always fails.
   */
  method TmbCycleAsWritten(reached: bool, oks: seq<bool>) returns (e: Event)
    ensures e == Failure
  {
    if !reached {
      return Failure;
    }
    var uploaded, attempts := TmbUploadAsWritten(oks);
    e := CycleEvent(uploaded);
  }

  /** `n` rounds of a login that works followed by a cycle that fails. */
  function LoginThenFail(n: nat): (es: seq<Event>)
    ensures |es| == 2 * n
    ensures StopSeen !in es
  {
    if n == 0 then [] else LoginThenFail(n - 1) + [Success, Failure]
  }

  /**
   * As written, a TMB worker whose login works never gives up: each cycle
   * fails on the upload, the next login zeroes the counter, and after any
   * number of rounds the worker is back at the login with one failure.
   */
  lemma {:induction false} TmbRetriesForever(n: nat)
    ensures Fold(Tmb, Start, LoginThenFail(n)) == (if n == 0 then Start else RunState(LoggingIn, 1))
  {
    if n > 0 {
      var prev := LoginThenFail(n - 1);
      TmbRetriesForever(n - 1);
      FoldAppend(Tmb, Start, prev, [Success, Failure]);
      assert [Success, Failure][..1] == [Success];
      assert [Success][..0] == [];
    }
  }

  // ---------------------------------------------------------------------
  // KGB statement search: `while attempts < 3`
  // ---------------------------------------------------------------------

  /** What the page shows after a click on Search. */
  datatype SearchView =
    | NoErrorBox                 // no error box: the search worked
    | NoTransactions             // an error box saying the rows "do not exist for the account"
    | OtherError                 // an error box with any other text

  /** How the search ended; `Searching` means the observations ran out first. */
  datatype SearchEnd = Found(clicks: nat) | GaveUp(clicks: nat) | Searching

  const MaxSearchAttempts := 3

  /**
   * The search loop as a function of the views seen, from a given attempt
   * count: only the "no transactions" box is counted; any other error box
   * repeats the search without counting.
   */
  function SearchOutcome(views: seq<SearchView>, attempts: nat, clicks: nat): (r: SearchEnd)
    requires attempts <= MaxSearchAttempts
    ensures r.Found? ==> clicks < r.clicks <= clicks + |views|
    decreases |views|
  {
    if attempts == MaxSearchAttempts then GaveUp(clicks)
    else if views == [] then Searching
    else match views[0]
      case NoErrorBox => Found(clicks + 1)
      case NoTransactions => SearchOutcome(views[1..], attempts + 1, clicks + 1)
      case OtherError => SearchOutcome(views[1..], attempts, clicks + 1)
  }

  method Search(views: seq<SearchView>) returns (r: SearchEnd)
    ensures r == SearchOutcome(views, 0, 0)
  {
    var attempts := 0;
    var clicks := 0;
    while attempts < MaxSearchAttempts
      invariant attempts <= MaxSearchAttempts && clicks <= |views|
      invariant SearchOutcome(views[clicks..], attempts, clicks) == SearchOutcome(views, 0, 0)
      decreases |views| - clicks
    {
      if clicks == |views| {
        return Searching;
      }
      var v := views[clicks];
      assert views[clicks..][1..] == views[clicks + 1..];
      clicks := clicks + 1;
      if v == NoErrorBox {
        return Found(clicks);
      } else if v == NoTransactions {
        attempts := attempts + 1;
      }
    }
    return GaveUp(clicks);
  }

  function Repeat(v: SearchView, n: nat): (r: seq<SearchView>)
    ensures |r| == n && forall i :: 0 <= i < n ==> r[i] == v
  {
    if n == 0 then [] else [v] + Repeat(v, n - 1)
  }

  /** Three "no transactions" boxes before any success make the worker log out. */
  lemma ThreeEmptySearchesGiveUp(rest: seq<SearchView>)
    ensures SearchOutcome(Repeat(NoTransactions, 3) + rest, 0, 0) == GaveUp(3)
  {
    var v := Repeat(NoTransactions, 3) + rest;
    assert v == [NoTransactions] + ([NoTransactions] + ([NoTransactions] + rest));
    assert SearchOutcome([NoTransactions] + rest, 2, 2) == GaveUp(3) by {
      assert ([NoTransactions] + rest)[1..] == rest;
    }
    assert SearchOutcome([NoTransactions] + ([NoTransactions] + rest), 1, 1) == GaveUp(3) by {
      assert ([NoTransactions] + ([NoTransactions] + rest))[1..] == [NoTransactions] + rest;
    }
    assert v[1..] == [NoTransactions] + ([NoTransactions] + rest);
  }

  /**
   * The loop has no bound on clicks: any number of error boxes with other
   * text keep it searching, however long the run of them.
   */
  lemma {:induction false} OtherErrorsNeverEnd(n: nat, attempts: nat, clicks: nat)
    requires attempts < MaxSearchAttempts
    ensures SearchOutcome(Repeat(OtherError, n), attempts, clicks) == Searching
  {
    if n > 0 {
      assert Repeat(OtherError, n)[1..] == Repeat(OtherError, n - 1);
      OtherErrorsNeverEnd(n - 1, attempts, clicks + 1);
    }
  }
}
