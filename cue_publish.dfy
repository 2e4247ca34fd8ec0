/** Publishing one plugin's CUE module: the required flags, then publishing with a bounded number of
    attempts, each preceded by a sleep that grows by a random amount after every failure. */
module CuePublish {
  const ModulePrefix := "github.com/perses/plugins"
  const RetryMaxAttempts := 10

  /** Why the script stops with an error. */
  datatype Failure = TokenRequired | TagRequired | MaxRetriesReached

  /** The message logged for each error. */
  function Message(failure: Failure): string {
    match failure
    case TokenRequired => "Error: -token flag is required"
    case TagRequired => "Error: -tag flag is required"
    case MaxRetriesReached => "Max retry attempts reached, publish process failed"
  }

  /** What the script does, in order; `Fatal` ends the process. */
  datatype Step =
    | Fatal(failure: Failure)
    | Sleep(seconds: nat)
    | PublishAttempt(attempt: nat, version: string)
    | Retry(attempt: nat)
    | Published(moduleName: string)

  /** Whether attempt `attempt` succeeds: the outcomes of the attempts are listed from the first, and
      an attempt past the end of the list fails. */
  function Succeeds(outcomes: seq<bool>, attempt: nat): bool {
    1 <= attempt <= |outcomes| && outcomes[attempt - 1]
  }

  /** The raw random value of draw `k`: draw 0 is for the first sleep and draw `k` for the sleep after
      attempt `k` fails; a draw past the end of the list is 0. */
  function Draw(draws: seq<nat>, k: nat): nat {
    if k < |draws| then draws[k] else 0
  }

  /** `rand.Int64N(n)`: a value below `n`, drawn from the raw random value `raw`. */
  function RandomBelow(n: nat, raw: nat): (r: nat)
    requires n > 0
    ensures r < n
  {
    raw % n
  }

  /** The module published: `<prefix>/<plugin>@<version>`. */
  function ModuleName(pluginName: string, version: string): (m: string)
    ensures |m| == |ModulePrefix| + |pluginName| + |version| + 2
    ensures m[..|ModulePrefix|] == ModulePrefix
  {
    ModulePrefix + "/" + pluginName + "@" + version
  }

  /** The sleep, in seconds, before attempt `attempt`: 1 to 9 seconds before the first, and 1 to 19
      seconds more than the one before for every later attempt. */
  function SleepBefore(attempt: nat, draws: seq<nat>): (s: nat)
    requires attempt >= 1
    ensures attempt == 1 ==> 1 <= s <= 9
    ensures attempt > 1 ==> s >= attempt
  {
    if attempt == 1 then 1 + RandomBelow(9, Draw(draws, 0))
    else SleepBefore(attempt - 1, draws) + 1 + RandomBelow(19, Draw(draws, attempt - 1))
  }

  /** One attempt: the sleep before it, the attempt, and what follows it. */
  function AttemptSteps(sleep: nat, attempt: nat, version: string, end: Step): seq<Step> {
    [Sleep(sleep), PublishAttempt(attempt, version), end]
  }

  /** The steps of the attempts before attempt `attempt`, all of which failed: a sleep, the attempt
      and the retry, for each. */
  function Failed(attempt: nat, version: string, draws: seq<nat>): (r: seq<Step>)
    requires attempt >= 1
    ensures |r| == 3 * (attempt - 1)
  {
    if attempt == 1 then []
    else
      Failed(attempt - 1, version, draws)
      + AttemptSteps(SleepBefore(attempt - 1, draws), attempt - 1, version, Retry(attempt - 1))
  }

  /** The last attempt made from attempt `attempt` on: the first that succeeds, or the last allowed
      when none does. */
  function LastAttempt(attempt: nat, outcomes: seq<bool>): (last: nat)
    requires 1 <= attempt <= RetryMaxAttempts
    ensures attempt <= last <= RetryMaxAttempts
    ensures forall k :: attempt <= k < last ==> !Succeeds(outcomes, k)
    ensures Succeeds(outcomes, last) || last == RetryMaxAttempts
    decreases RetryMaxAttempts - attempt
  {
    if Succeeds(outcomes, attempt) || attempt == RetryMaxAttempts then attempt
    else LastAttempt(attempt + 1, outcomes)
  }

  /** The retries: the failed attempts, then the sleep before the last attempt, the last attempt, and
      the module published when it succeeds or the process ended when it fails. */
  function Retries(version: string, moduleName: string, outcomes: seq<bool>, draws: seq<nat>): seq<Step> {
    var last := LastAttempt(1, outcomes);
    Failed(last, version, draws)
    + AttemptSteps(SleepBefore(last, draws), last, version,
                   if Succeeds(outcomes, last) then Published(moduleName) else Fatal(MaxRetriesReached))
  }

  /** Everything the script does for a token and a tag that reads as `pluginName` and `rawVersion`. */
  function Run(token: string, tag: string, pluginName: string, rawVersion: string,
               outcomes: seq<bool>, draws: seq<nat>): seq<Step>
  {
    if token == [] then [Fatal(TokenRequired)]
    else if tag == [] then [Fatal(TagRequired)]
    else
      var version := "v" + rawVersion;
      Retries(version, ModuleName(pluginName, version), outcomes, draws)
  }

  /** The attempt that succeeds after every earlier one failed, or the last allowed after every
      earlier one failed, is the last attempt made. */
  lemma LastAttemptIs(outcomes: seq<bool>, k: nat)
    requires 1 <= k <= RetryMaxAttempts
    requires forall j :: 1 <= j < k ==> !Succeeds(outcomes, j)
    requires Succeeds(outcomes, k) || k == RetryMaxAttempts
    ensures LastAttempt(1, outcomes) == k
  {
  }

  /** The script: checks its flags, then publishes with retries. */
  method Publish(token: string, tag: string, pluginName: string, rawVersion: string,
                 outcomes: seq<bool>, draws: seq<nat>) returns (steps: seq<Step>)
    ensures steps == Run(token, tag, pluginName, rawVersion, outcomes, draws)
  {
    if token == [] {
      return [Fatal(TokenRequired)];
    }
    if tag == [] {
      return [Fatal(TagRequired)];
    }
    var version := "v" + rawVersion;
    var moduleName := ModulePrefix + "/" + pluginName + "@" + version;
    steps := PublishWithRetries(version, moduleName, outcomes, draws);
  }

  /** The retry loop: sleeps, then tries to publish, until an attempt succeeds or the attempts run
      out; the sleep grows by a random amount after every failure. */
  method PublishWithRetries(version: string, moduleName: string, outcomes: seq<bool>, draws: seq<nat>)
    returns (steps: seq<Step>)
    ensures steps == Retries(version, moduleName, outcomes, draws)
  {
    steps := [];
    var sleepBetweenRetries := 1 + RandomBelow(9, Draw(draws, 0));
    var attempt := 1;
    while attempt <= RetryMaxAttempts
      invariant 1 <= attempt <= RetryMaxAttempts
      invariant steps == Failed(attempt, version, draws)
      invariant sleepBetweenRetries == SleepBefore(attempt, draws)
      invariant forall k :: 1 <= k < attempt ==> !Succeeds(outcomes, k)
      decreases RetryMaxAttempts - attempt
    {
      steps := steps + [Sleep(sleepBetweenRetries), PublishAttempt(attempt, version)];
      if Succeeds(outcomes, attempt) {
        LastAttemptIs(outcomes, attempt);
        break;
      }
      if attempt == RetryMaxAttempts {
        LastAttemptIs(outcomes, attempt);
        steps := steps + [Fatal(MaxRetriesReached)];
        return;
      }
      steps := steps + [Retry(attempt)];
      sleepBetweenRetries := sleepBetweenRetries + 1 + RandomBelow(19, Draw(draws, attempt));
      attempt := attempt + 1;
    }
    steps := steps + [Published(moduleName)];
  }

  /** The numbers of the publish attempts made, in order. */
  function Attempted(steps: seq<Step>): (r: seq<nat>)
    ensures |r| <= |steps|
  {
    if steps == [] then []
    else (if steps[0].PublishAttempt? then [steps[0].attempt] else []) + Attempted(steps[1..])
  }

  /** The sleeps taken, in seconds, in order. */
  function Sleeps(steps: seq<Step>): (r: seq<nat>)
    ensures |r| <= |steps|
  {
    if steps == [] then []
    else (if steps[0].Sleep? then [steps[0].seconds] else []) + Sleeps(steps[1..])
  }

  /** Every publish attempt in `steps` comes right after a sleep. */
  predicate SleptBeforeAttempts(steps: seq<Step>) {
    forall i :: 0 <= i < |steps| && steps[i].PublishAttempt? ==> 0 < i && steps[i - 1].Sleep?
  }

  /** The numbers `first` to `last`, in order. */
  function Through(first: nat, last: int): (r: seq<nat>)
    ensures |r| == if last < first then 0 else last + 1 - first
    ensures forall i :: 0 <= i < |r| ==> r[i] == first + i
    decreases last - first
  {
    if last < first then [] else Through(first, last - 1) + [last]
  }

  lemma {:induction false} AttemptedConcat(a: seq<Step>, b: seq<Step>)
    ensures Attempted(a + b) == Attempted(a) + Attempted(b)
  {
    if a != [] {
      assert (a + b)[1..] == a[1..] + b;
      AttemptedConcat(a[1..], b);
    } else {
      assert a + b == b;
    }
  }

  lemma {:induction false} SleepsConcat(a: seq<Step>, b: seq<Step>)
    ensures Sleeps(a + b) == Sleeps(a) + Sleeps(b)
  {
    if a != [] {
      assert (a + b)[1..] == a[1..] + b;
      SleepsConcat(a[1..], b);
    } else {
      assert a + b == b;
    }
  }

  /** One attempt records one attempt and one sleep. */
  lemma AttemptOnce(sleep: nat, attempt: nat, version: string, end: Step)
    requires !end.PublishAttempt? && !end.Sleep?
    ensures Attempted(AttemptSteps(sleep, attempt, version, end)) == [attempt]
    ensures Sleeps(AttemptSteps(sleep, attempt, version, end)) == [sleep]
  {
    var last: seq<Step> := [end];
    assert last[1..] == [];
    assert Attempted(last) == [] && Sleeps(last) == [];
    var rest := [PublishAttempt(attempt, version), end];
    assert rest[1..] == last;
    assert Attempted(rest) == [attempt] && Sleeps(rest) == [];
    assert AttemptSteps(sleep, attempt, version, end)[1..] == rest;
  }

  /** The failed attempts before attempt `attempt` are attempts 1 to `attempt - 1`. */
  lemma {:induction false} FailedAttempts(attempt: nat, version: string, draws: seq<nat>)
    requires attempt >= 1
    ensures Attempted(Failed(attempt, version, draws)) == Through(1, attempt - 1)
  {
    if attempt > 1 {
      var k := attempt - 1;
      var step := AttemptSteps(SleepBefore(k, draws), k, version, Retry(k));
      FailedAttempts(k, version, draws);
      AttemptedConcat(Failed(k, version, draws), step);
      AttemptOnce(SleepBefore(k, draws), k, version, Retry(k));
    }
  }

  /** The sleeps of the failed attempts before attempt `attempt` are those before attempts 1 to
      `attempt - 1`. */
  lemma {:induction false} FailedSleeps(attempt: nat, version: string, draws: seq<nat>)
    requires attempt >= 1
    ensures var sleeps := Sleeps(Failed(attempt, version, draws));
      && |sleeps| == attempt - 1
      && forall i :: 0 <= i < |sleeps| ==> sleeps[i] == SleepBefore(i + 1, draws)
  {
    if attempt > 1 {
      var k := attempt - 1;
      var step := AttemptSteps(SleepBefore(k, draws), k, version, Retry(k));
      FailedSleeps(k, version, draws);
      SleepsConcat(Failed(k, version, draws), step);
      AttemptOnce(SleepBefore(k, draws), k, version, Retry(k));
    }
  }

  /** In the failed attempts, every attempt comes right after a sleep. */
  lemma {:induction false} FailedSleptFirst(attempt: nat, version: string, draws: seq<nat>)
    requires attempt >= 1
    ensures SleptBeforeAttempts(Failed(attempt, version, draws))
  {
    if attempt > 1 {
      var k := attempt - 1;
      var before := Failed(k, version, draws);
      var steps := Failed(attempt, version, draws);
      FailedSleptFirst(k, version, draws);
      forall i | 0 <= i < |steps| && steps[i].PublishAttempt?
        ensures 0 < i && steps[i - 1].Sleep?
      {
        if i < |before| {
          assert steps[i] == before[i] && steps[i - 1] == before[i - 1];
        }
      }
    }
  }

  /** With both flags given, the run is the retries. */
  lemma RunRetries(token: string, tag: string, pluginName: string, rawVersion: string,
                   outcomes: seq<bool>, draws: seq<nat>)
    requires token != [] && tag != []
    ensures var version := "v" + rawVersion;
      Run(token, tag, pluginName, rawVersion, outcomes, draws)
      == Failed(LastAttempt(1, outcomes), version, draws)
         + AttemptSteps(SleepBefore(LastAttempt(1, outcomes), draws), LastAttempt(1, outcomes), version,
                     if Succeeds(outcomes, LastAttempt(1, outcomes)) then Published(ModuleName(pluginName, version))
                     else Fatal(MaxRetriesReached))
  {
  }

  /** A missing token or tag is fatal before anything is published. */
  lemma MissingFlagIsFatal(token: string, tag: string, pluginName: string, rawVersion: string,
                           outcomes: seq<bool>, draws: seq<nat>)
    requires token == [] || tag == []
    ensures var steps := Run(token, tag, pluginName, rawVersion, outcomes, draws);
      && |steps| == 1 && steps[0].Fatal?
      && Attempted(steps) == []
  {
  }

  /** With both flags given, the attempts made are numbered from one up to the last attempt, never
      more than ten; the run ends with the module published when the last attempt succeeds, and
      fatally when it fails. */
  lemma AttemptsMade(token: string, tag: string, pluginName: string, rawVersion: string,
                     outcomes: seq<bool>, draws: seq<nat>)
    requires token != [] && tag != []
    ensures var steps := Run(token, tag, pluginName, rawVersion, outcomes, draws);
      var last := LastAttempt(1, outcomes);
      && Attempted(steps) == Through(1, last)
      && |steps| > 0
      && steps[|steps| - 1]
         == if Succeeds(outcomes, last) then Published(ModuleName(pluginName, "v" + rawVersion)) else Fatal(MaxRetriesReached)
  {
    var version := "v" + rawVersion;
    var last := LastAttempt(1, outcomes);
    var end := if Succeeds(outcomes, last) then Published(ModuleName(pluginName, version)) else Fatal(MaxRetriesReached);
    var tail := AttemptSteps(SleepBefore(last, draws), last, version, end);
    RunRetries(token, tag, pluginName, rawVersion, outcomes, draws);
    FailedAttempts(last, version, draws);
    AttemptedConcat(Failed(last, version, draws), tail);
    AttemptOnce(SleepBefore(last, draws), last, version, end);
  }

  /** The first attempt that succeeds is the last one made, and the module is published. */
  lemma StopsAtFirstSuccess(token: string, tag: string, pluginName: string, rawVersion: string,
                            outcomes: seq<bool>, draws: seq<nat>, first: nat)
    requires token != [] && tag != []
    requires 1 <= first <= RetryMaxAttempts && Succeeds(outcomes, first)
    requires forall k :: 1 <= k < first ==> !Succeeds(outcomes, k)
    ensures var steps := Run(token, tag, pluginName, rawVersion, outcomes, draws);
      && Attempted(steps) == Through(1, first)
      && steps[|steps| - 1] == Published(ModuleName(pluginName, "v" + rawVersion))
  {
    LastAttemptIs(outcomes, first);
    AttemptsMade(token, tag, pluginName, rawVersion, outcomes, draws);
  }

  /** When every attempt fails, ten are made and the run ends fatally. */
  lemma AllAttemptsFail(token: string, tag: string, pluginName: string, rawVersion: string,
                        outcomes: seq<bool>, draws: seq<nat>)
    requires token != [] && tag != []
    requires forall k :: 1 <= k <= RetryMaxAttempts ==> !Succeeds(outcomes, k)
    ensures var steps := Run(token, tag, pluginName, rawVersion, outcomes, draws);
      && Attempted(steps) == Through(1, RetryMaxAttempts)
      && steps[|steps| - 1] == Fatal(MaxRetriesReached)
  {
    LastAttemptIs(outcomes, RetryMaxAttempts);
    AttemptsMade(token, tag, pluginName, rawVersion, outcomes, draws);
  }

  /** Every attempt is made right after a sleep. */
  lemma SleptBeforeEveryAttempt(token: string, tag: string, pluginName: string, rawVersion: string,
                                outcomes: seq<bool>, draws: seq<nat>)
    requires token != [] && tag != []
    ensures SleptBeforeAttempts(Run(token, tag, pluginName, rawVersion, outcomes, draws))
  {
    var version := "v" + rawVersion;
    var last := LastAttempt(1, outcomes);
    var end := if Succeeds(outcomes, last) then Published(ModuleName(pluginName, version)) else Fatal(MaxRetriesReached);
    var failed := Failed(last, version, draws);
    var steps := failed + AttemptSteps(SleepBefore(last, draws), last, version, end);
    RunRetries(token, tag, pluginName, rawVersion, outcomes, draws);
    FailedSleptFirst(last, version, draws);
    forall i | 0 <= i < |steps| && steps[i].PublishAttempt?
      ensures 0 < i && steps[i - 1].Sleep?
    {
      if i < |failed| {
        assert steps[i] == failed[i] && steps[i - 1] == failed[i - 1];
      }
    }
  }

  /** One sleep is taken per attempt made, the one before attempt `i + 1` being the `i`-th. */
  lemma RunSleeps(token: string, tag: string, pluginName: string, rawVersion: string,
                  outcomes: seq<bool>, draws: seq<nat>)
    requires token != [] && tag != []
    ensures var sleeps := Sleeps(Run(token, tag, pluginName, rawVersion, outcomes, draws));
      && |sleeps| == LastAttempt(1, outcomes)
      && forall i :: 0 <= i < |sleeps| ==> sleeps[i] == SleepBefore(i + 1, draws)
  {
    var version := "v" + rawVersion;
    var last := LastAttempt(1, outcomes);
    var end := if Succeeds(outcomes, last) then Published(ModuleName(pluginName, version)) else Fatal(MaxRetriesReached);
    var failed := Failed(last, version, draws);
    RunRetries(token, tag, pluginName, rawVersion, outcomes, draws);
    FailedSleeps(last, version, draws);
    SleepsConcat(failed, AttemptSteps(SleepBefore(last, draws), last, version, end));
    AttemptOnce(SleepBefore(last, draws), last, version, end);
  }

  /** The first sleep lasts 1 to 9 seconds, and each later one 1 to 19 seconds longer than the one
      before. */
  lemma SleepsGrow(token: string, tag: string, pluginName: string, rawVersion: string,
                   outcomes: seq<bool>, draws: seq<nat>)
    requires token != [] && tag != []
    ensures var sleeps := Sleeps(Run(token, tag, pluginName, rawVersion, outcomes, draws));
      && |sleeps| >= 1 && 1 <= sleeps[0] <= 9
      && forall i :: 0 <= i < |sleeps| - 1 ==> sleeps[i] + 1 <= sleeps[i + 1] <= sleeps[i] + 19
  {
    RunSleeps(token, tag, pluginName, rawVersion, outcomes, draws);
    var sleeps := Sleeps(Run(token, tag, pluginName, rawVersion, outcomes, draws));
    forall i | 0 <= i < |sleeps| - 1
      ensures sleeps[i] + 1 <= sleeps[i + 1] <= sleeps[i] + 19
    {
      assert sleeps[i + 1] == SleepBefore(i + 2, draws);
    }
  }
}
