/** The two bounded retry loops of the handler (src/rp_handler.py): the availability probe
    `check_server`, and the completion poll that waits for the queued prompt's history
    record. The answers are oracles indexed by call: the i-th probe or history fetch of a
    run gets `probe(i)` or `history(i)`. Sleeping between attempts is not modelled. */
module Polling {
  import opened Py

  // ---------------------------------------------------------------------------
  // check_server

  /** One GET of the server: the status it answered with, or a request exception. */
  datatype Probe = Answered(status: nat) | Unreachable

  predicate Up(p: Probe) {
    p.Answered? && p.status == 200
  }

  /** `check_server(url, retries)`: probes up to `retries` times, swallowing request errors,
      and stops at the first 200. It reports whether some probe answered 200. */
  method CheckServer(retries: int, probe: nat -> Probe) returns (reachable: bool, probes: nat)
    ensures probes <= if retries > 0 then retries else 0
    ensures reachable <==> exists i :: 0 <= i < retries && Up(probe(i))
    ensures reachable ==> probes >= 1 && Up(probe(probes - 1))
    ensures forall i :: 0 <= i < probes - 1 ==> !Up(probe(i))
    ensures !reachable ==> probes == if retries > 0 then retries else 0
  {
    probes := 0;
    var i := 0;
    while i < retries
      invariant 0 <= i && (retries > 0 ==> i <= retries) && (retries <= 0 ==> i == 0)
      invariant probes == i
      invariant forall k :: 0 <= k < i ==> !Up(probe(k))
      decreases retries - i
    {
      var response := probe(i);
      probes := probes + 1;
      if response.Answered? && response.status == 200 {
        return true, probes;
      }
      i := i + 1;
    }
    reachable := false;
  }

  // ---------------------------------------------------------------------------
  // The completion poll

  /** One fetch of the prompt's history: the prompt id is not in it yet, it is there with its
      record, or the fetch raised. */
  datatype HistoryProbe = Absent | Present(record: Value) | FetchFailed(reason: string)

  /** How the poll can end. `StillPolling` is the model's own: the poll ran out of the
      fuel the model gives it while the source would go on polling. */
  datatype PollOutcome =
    | Completed(outputs: Value)
    | GenerationFailed(detail: Value)
    | WaitFailed(reason: string)
    | TimedOut
    | StillPolling

  /** What one fetch does to the poll: count a retry, wait without counting, or stop. */
  datatype Step = Retry | Wait | Stop(outcome: PollOutcome)

  /** The loop body for one fetch. An absent record counts a retry. A fetch error, or a
      record that is not a dict (so `.get` raises), ends the wait with that exception. A
      record whose status is "error" fails the generation with its `output`; one with
      truthy `outputs` completes; any other record is waited on without counting. */
  function StepOf(p: HistoryProbe): (s: Step)
    ensures s == Retry <==> p == Absent
    ensures s.Stop? ==> !s.outcome.TimedOut? && !s.outcome.StillPolling?
  {
    match p
    case Absent => Retry
    case FetchFailed(e) => Stop(WaitFailed(e))
    case Present(record) =>
      if !record.Dict? then Stop(WaitFailed(NoAttribute(record, "get")))
      else if DictGet(record.entries, "status") == Str("error") then Stop(GenerationFailed(DictGet(record.entries, "output")))
      else if Truthy(DictGet(record.entries, "outputs")) then Stop(Completed(DictGet(record.entries, "outputs")))
      else Wait
  }

  /** What each kind of fetch does to the poll: a fetch error and a failed generation stop
      it with their own outcome, and it completes exactly on a dict record whose status is not
      "error" and whose outputs are truthy, with those outputs. */
  lemma StepOfMeaning(p: HistoryProbe)
    ensures p.FetchFailed? ==> StepOf(p) == Stop(WaitFailed(p.reason))
    ensures p.Present? && p.record.Dict? && DictGet(p.record.entries, "status") == Str("error") ==>
      StepOf(p) == Stop(GenerationFailed(DictGet(p.record.entries, "output")))
    ensures p.Present? && !p.record.Dict? ==> StepOf(p) == Stop(WaitFailed(NoAttribute(p.record, "get")))
    ensures StepOf(p).Stop? && StepOf(p).outcome.Completed? <==>
      (p.Present? && p.record.Dict? && DictGet(p.record.entries, "status") != Str("error")
       && Truthy(DictGet(p.record.entries, "outputs")))
    ensures StepOf(p).Stop? && StepOf(p).outcome.Completed? ==>
      StepOf(p).outcome.outputs == DictGet(p.record.entries, "outputs")
    ensures (p.Present? && p.record.Dict? && DictGet(p.record.entries, "status") != Str("error")
             && !Truthy(DictGet(p.record.entries, "outputs"))) ==> StepOf(p) == Wait
  {
  }

  /** The retry counter after the first n fetches: the number of them that found no record. */
  function AbsentCount(history: nat -> HistoryProbe, n: nat): nat {
    if n == 0 then 0
    else AbsentCount(history, n - 1) + (if history(n - 1) == Absent then 1 else 0)
  }

  /** None of the first n fetches stopped the poll. */
  predicate NoStopBefore(history: nat -> HistoryProbe, n: nat) {
    forall i :: 0 <= i < n ==> !StepOf(history(i)).Stop?
  }

  /** What a poll that made `fetches` fetches and ended with `r` satisfies. A stop ends the
      poll at the first fetch that stops it, made while the counter was below the bound.
      A timeout comes before any fetch when the bound is not positive, and otherwise right
      after the fetch that brought the counter to the bound. Running out of fuel means
      every fetch was made and none of them ended the poll. */
  predicate PollContract(maxRetries: int, history: nat -> HistoryProbe, fuel: nat, r: PollOutcome, fetches: nat) {
    fetches <= fuel &&
    match r
    case StillPolling =>
      fetches == fuel && NoStopBefore(history, fuel) && AbsentCount(history, fuel) < maxRetries
    case TimedOut =>
      NoStopBefore(history, fetches) &&
      if maxRetries <= 0 then fetches == 0
      else fetches > 0 && history(fetches - 1) == Absent && AbsentCount(history, fetches) == maxRetries
    case _ =>
      fetches > 0 && NoStopBefore(history, fetches - 1) && StepOf(history(fetches - 1)) == Stop(r)
      && AbsentCount(history, fetches - 1) < maxRetries
  }

  /** The `while retries < COMFY_POLLING_MAX_RETRIES` loop of `handler`, with at most `fuel`
      fetches. The counter goes up only when the record is absent. */
  method Poll(maxRetries: int, history: nat -> HistoryProbe, fuel: nat) returns (r: PollOutcome, fetches: nat)
    ensures PollContract(maxRetries, history, fuel, r, fetches)
  {
    var retries := 0;
    fetches := 0;
    while retries < maxRetries
      invariant fetches <= fuel
      invariant retries == AbsentCount(history, fetches)
      invariant NoStopBefore(history, fetches)
      invariant fetches > 0 && retries == maxRetries ==> history(fetches - 1) == Absent
      invariant maxRetries <= 0 ==> fetches == 0
      invariant maxRetries > 0 ==> retries <= maxRetries
      decreases fuel - fetches
    {
      if fetches == fuel {
        return StillPolling, fetches;
      }
      var fetched := history(fetches);
      fetches := fetches + 1;
      match fetched
      case FetchFailed(e) =>
        return WaitFailed(e), fetches;
      case Absent =>
        retries := retries + 1;
      case Present(record) =>
        if !record.Dict? {
          return WaitFailed(NoAttribute(record, "get")), fetches;
        }
        if DictGet(record.entries, "status") == Str("error") {
          return GenerationFailed(DictGet(record.entries, "output")), fetches;
        } else if Truthy(DictGet(record.entries, "outputs")) {
          return Completed(DictGet(record.entries, "outputs")), fetches;
        }
    }
    r := TimedOut;
  }

  // ---------------------------------------------------------------------------
  // The poll as written, with the settings as os.environ.get returns them

  /** A module-level setting `os.environ.get(name, default)`: the int default when the
      variable is unset, and otherwise the variable's text. */
  datatype Setting = Number(n: int) | Text(s: string)

  function EnvSetting(env: map<string, string>, name: string, default: int): Setting {
    if name in env then Text(env[name]) else Number(default)
  }

  const MaxRetriesName := "COMFY_POLLING_MAX_RETRIES"
  const IntervalName := "COMFY_POLLING_INTERVAL_MS"
  const PollingMaxRetriesDefault := 5000
  const PollingIntervalDefault := 250

  /** The TypeErrors of `retries < "..."` and of `"..." / 1000`. */
  const CompareError := "'<' not supported between instances of 'int' and 'str'"
  const DivideError := "unsupported operand type(s) for /: 'str' and 'int'"

  /** The poll loop as the source states it, from `retries` and `fetches` on: the loop test
      compares the counter with the bound setting, and an absent record sleeps for the
      interval setting divided by 1000 before counting. Either operation raises when its
      setting is text, and the `except` turns that into a failed wait. */
  function PollFrom(bound: Setting, interval: Setting, history: nat -> HistoryProbe, fuel: nat,
                    retries: int, fetches: nat): (PollOutcome, nat)
    requires fetches <= fuel
    decreases fuel - fetches
  {
    if bound.Text? then (WaitFailed(CompareError), fetches)
    else if retries >= bound.n then (TimedOut, fetches)
    else if fetches == fuel then (StillPolling, fetches)
    else
      match StepOf(history(fetches))
      case Stop(o) => (o, fetches + 1)
      case Wait => PollFrom(bound, interval, history, fuel, retries, fetches + 1)
      case Retry =>
        if interval.Text? then (WaitFailed(DivideError), fetches + 1)
        else PollFrom(bound, interval, history, fuel, retries + 1, fetches + 1)
  }

  /** The poll of `handler` as written, its outcome and number of fetches. */
  function PollAsWritten(env: map<string, string>, history: nat -> HistoryProbe, fuel: nat): (r: (PollOutcome, nat))
    ensures r.1 <= fuel
    ensures MaxRetriesName in env <==> r == (WaitFailed(CompareError), 0)
  {
    PollFromFetches(EnvSetting(env, MaxRetriesName, PollingMaxRetriesDefault),
                    EnvSetting(env, IntervalName, PollingIntervalDefault), history, fuel, 0, 0);
    PollFrom(EnvSetting(env, MaxRetriesName, PollingMaxRetriesDefault),
             EnvSetting(env, IntervalName, PollingIntervalDefault), history, fuel, 0, 0)
  }

  /** The loop as written makes no more fetches than the fuel allows, and it fails on the bound's
      comparison, before any fetch, exactly when the bound is text. */
  lemma {:induction false} PollFromFetches(bound: Setting, interval: Setting, history: nat -> HistoryProbe,
                                           fuel: nat, retries: int, fetches: nat)
    requires fetches <= fuel
    ensures fetches <= PollFrom(bound, interval, history, fuel, retries, fetches).1 <= fuel
    ensures bound.Text? <==> PollFrom(bound, interval, history, fuel, retries, fetches) == (WaitFailed(CompareError), fetches)
    decreases fuel - fetches
  {
    if bound.Number? && retries < bound.n && fetches < fuel {
      match StepOf(history(fetches))
      case Stop(o) =>
      case Wait =>
        PollFromFetches(bound, interval, history, fuel, retries, fetches + 1);
      case Retry =>
        if interval.Number? {
          PollFromFetches(bound, interval, history, fuel, retries + 1, fetches + 1);
        }
    }
  }

  /** The poll contract of a run given as its outcome and number of fetches. */
  predicate RunContract(maxRetries: int, history: nat -> HistoryProbe, fuel: nat, run: (PollOutcome, nat)) {
    PollContract(maxRetries, history, fuel, run.0, run.1)
  }

  /** With both settings numbers, the loop as written keeps the poll contract from any state
      the loop can be in. */
  lemma {:induction false} PollFromNumbers(n: int, interval: int, history: nat -> HistoryProbe, fuel: nat,
                                           retries: int, fetches: nat)
    requires fetches <= fuel
    requires retries == AbsentCount(history, fetches)
    requires NoStopBefore(history, fetches)
    requires fetches > 0 && retries == n ==> history(fetches - 1) == Absent
    requires n <= 0 ==> fetches == 0
    requires n > 0 ==> retries <= n
    ensures RunContract(n, history, fuel, PollFrom(Number(n), Number(interval), history, fuel, retries, fetches))
    decreases fuel - fetches
  {
    var res := PollFrom(Number(n), Number(interval), history, fuel, retries, fetches);
    if retries >= n {
      assert res == (TimedOut, fetches);
      assert PollContract(n, history, fuel, TimedOut, fetches);
    } else if fetches == fuel {
      assert res == (StillPolling, fetches);
      assert PollContract(n, history, fuel, StillPolling, fetches);
    } else {
      var step := StepOf(history(fetches));
      if step.Stop? {
        assert res == (step.outcome, fetches + 1);
        StopContract(n, history, fuel, fetches);
      } else {
        var next := if step.Retry? then retries + 1 else retries;
        assert res == PollFrom(Number(n), Number(interval), history, fuel, next, fetches + 1);
        assert AbsentCount(history, fetches + 1) == next;
        PollFromNumbers(n, interval, history, fuel, next, fetches + 1);
      }
    }
  }

  /** A fetch that stops the poll, made while the counter is below the bound after fetches
      that did not, ends it with the contract's outcome. */
  lemma StopContract(n: int, history: nat -> HistoryProbe, fuel: nat, fetches: nat)
    requires fetches < fuel
    requires NoStopBefore(history, fetches) && AbsentCount(history, fetches) < n
    requires StepOf(history(fetches)).Stop?
    ensures PollContract(n, history, fuel, StepOf(history(fetches)).outcome, fetches + 1)
  {
  }

  /** Left unset, both settings are numbers, and the poll as written is the poll with the
      default bound. */
  lemma PollAsWrittenUnset(env: map<string, string>, history: nat -> HistoryProbe, fuel: nat)
    requires MaxRetriesName !in env && IntervalName !in env
    ensures PollContract(PollingMaxRetriesDefault, history, fuel, PollAsWritten(env, history, fuel).0,
                         PollAsWritten(env, history, fuel).1)
  {
    PollFromNumbers(PollingMaxRetriesDefault, PollingIntervalDefault, history, fuel, 0, 0);
  }

  /** Setting the bound in the environment makes every poll fail before its first fetch. */
  lemma SetBoundFailsEveryPoll(env: map<string, string>, history: nat -> HistoryProbe, fuel: nat)
    requires MaxRetriesName in env
    ensures PollAsWritten(env, history, fuel) == (WaitFailed(CompareError), 0)
  {
  }

  /** Setting the interval in the environment makes the first absent record fail the poll. */
  lemma SetIntervalFailsFirstRetry(env: map<string, string>, history: nat -> HistoryProbe, fuel: nat)
    requires MaxRetriesName !in env && IntervalName in env
    requires fuel > 0 && history(0) == Absent
    ensures PollAsWritten(env, history, fuel) == (WaitFailed(DivideError), 1)
  {
  }

  /** The counter never goes down. */
  lemma {:induction false} AbsentCountMonotone(history: nat -> HistoryProbe, i: nat, j: nat)
    requires i <= j
    ensures AbsentCount(history, i) <= AbsentCount(history, j)
    decreases j - i
  {
    if i < j {
      AbsentCountMonotone(history, i, j - 1);
    }
  }

  lemma PollContractUniqueOrdered(maxRetries: int, history: nat -> HistoryProbe, fuel: nat,
                                  r1: PollOutcome, f1: nat, r2: PollOutcome, f2: nat)
    requires PollContract(maxRetries, history, fuel, r1, f1)
    requires PollContract(maxRetries, history, fuel, r2, f2)
    requires f1 <= f2
    ensures r1 == r2 && f1 == f2
  {
    if f1 < f2 && r1.TimedOut? && maxRetries > 0 {
      AbsentCountMonotone(history, f1, f2 - 1);
    }
  }

  /** The contract determines the outcome and the number of fetches: no two different
      runs satisfy it. */
  lemma PollContractUnique(maxRetries: int, history: nat -> HistoryProbe, fuel: nat,
                           r1: PollOutcome, f1: nat, r2: PollOutcome, f2: nat)
    requires PollContract(maxRetries, history, fuel, r1, f1)
    requires PollContract(maxRetries, history, fuel, r2, f2)
    ensures r1 == r2 && f1 == f2
  {
    if f1 <= f2 {
      PollContractUniqueOrdered(maxRetries, history, fuel, r1, f1, r2, f2);
    } else {
      PollContractUniqueOrdered(maxRetries, history, fuel, r2, f2, r1, f1);
    }
  }

  /** While every fetch so far found no record, the counter equals the number of fetches. */
  lemma {:induction false} AllAbsentCount(history: nat -> HistoryProbe, n: nat)
    requires forall i :: 0 <= i < n ==> history(i) == Absent
    ensures AbsentCount(history, n) == n
    ensures NoStopBefore(history, n)
  {
    if n > 0 {
      AllAbsentCount(history, n - 1);
    }
  }

  /** A prompt that never shows up in the history times out after exactly the bound's
      number of fetches. */
  lemma NeverFoundTimesOut(maxRetries: int, history: nat -> HistoryProbe, fuel: nat, r: PollOutcome, fetches: nat)
    requires forall i :: history(i) == Absent
    requires 0 < maxRetries <= fuel
    requires PollContract(maxRetries, history, fuel, r, fetches)
    ensures r == TimedOut && fetches == maxRetries
  {
    AllAbsentCount(history, maxRetries);
    PollContractUnique(maxRetries, history, fuel, r, fetches, TimedOut, maxRetries);
  }

  /** A prompt that is absent for n fetches and then finished with outputs completes on
      fetch n + 1, provided n is still below the bound. */
  lemma CompletesAfterAbsent(maxRetries: int, history: nat -> HistoryProbe, fuel: nat, n: nat,
                             entries: seq<(string, Value)>, r: PollOutcome, fetches: nat)
    requires forall i :: 0 <= i < n ==> history(i) == Absent
    requires history(n) == Present(Dict(entries))
    requires DictGet(entries, "status") != Str("error") && Truthy(DictGet(entries, "outputs"))
    requires n < maxRetries && n < fuel
    requires PollContract(maxRetries, history, fuel, r, fetches)
    ensures r == Completed(DictGet(entries, "outputs")) && fetches == n + 1
  {
    AllAbsentCount(history, n);
    PollContractUnique(maxRetries, history, fuel, r, fetches, Completed(DictGet(entries, "outputs")), n + 1);
  }

  /** A record that is present but neither failed nor finished consumes no retries, so the
      poll goes on until the fuel runs out however small the bound is. */
  lemma PendingNeverTimesOut(maxRetries: int, history: nat -> HistoryProbe, fuel: nat, r: PollOutcome, fetches: nat)
    requires forall i :: StepOf(history(i)) == Wait
    requires maxRetries > 0
    requires PollContract(maxRetries, history, fuel, r, fetches)
    ensures r == StillPolling && fetches == fuel
  {
    PendingCount(history, fuel);
    PollContractUnique(maxRetries, history, fuel, r, fetches, StillPolling, fuel);
  }

  lemma {:induction false} PendingCount(history: nat -> HistoryProbe, n: nat)
    requires forall i :: StepOf(history(i)) == Wait
    ensures AbsentCount(history, n) == 0
    ensures NoStopBefore(history, n)
  {
    if n > 0 {
      PendingCount(history, n - 1);
    }
  }
}
