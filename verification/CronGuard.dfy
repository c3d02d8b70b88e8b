/** The job wrapper of pkg/cron/cron.go: SkipIfStillRunning inside Recover, around one cron entry.

    Every firing of the entry is a goroutine of its own. The one-token channel decides who runs: a firing that
    finds the token takes it, runs the job and puts it back, any other firing is skipped. A job that panics
    leaves through Recover without putting the token back. */
module CronGuard {
  import opened Common

  datatype Phase = Fired | Running | Returning | Completed | Skipped | Panicked

  /** token: whether the channel holds its token; firings in the order in which they were fired; started and
      skipped count decisions. */
  datatype State = State(token: bool, firings: seq<Phase>, started: nat, skipped: nat)

  datatype Step =
    | Fire
    | Decide(i: nat)     // the select on the channel
    | JobReturns(i: nat)
    | JobPanics(i: nat)  // recovered by Recover
    | PutBack(i: nat)    // ch <- v: has to wait while the channel is full

  const INIT := State(true, [], 0, 0)

  predicate In(s: State, i: nat, phase: Phase) {
    i < |s.firings| && s.firings[i] == phase
  }

  predicate Enabled(s: State, step: Step) {
    match step
    case Fire => true
    case Decide(i) => In(s, i, Fired)
    case JobReturns(i) => In(s, i, Running)
    case JobPanics(i) => In(s, i, Running)
    case PutBack(i) => In(s, i, Returning) && !s.token
  }

  function Apply(s: State, step: Step): State
    requires Enabled(s, step)
  {
    match step
    case Fire => s.(firings := s.firings + [Fired])
    case Decide(i) =>
      if s.token then s.(token := false, firings := s.firings[i := Running], started := s.started + 1)
      else s.(firings := s.firings[i := Skipped], skipped := s.skipped + 1)
    case JobReturns(i) => s.(firings := s.firings[i := Returning])
    case JobPanics(i) => s.(firings := s.firings[i := Panicked])
    case PutBack(i) => s.(token := true, firings := s.firings[i := Completed])
  }

  ghost predicate Follows(s: State, t: State) {
    exists step :: Enabled(s, step) && t == Apply(s, step)
  }

  ghost predicate IsRun(run: seq<State>) {
    && run != [] && run[0] == INIT
    && forall i :: 0 < i < |run| ==> Follows(run[i - 1], run[i])
  }

  function Number(s: State, phase: Phase): nat {
    Count(s.firings, phase)
  }

  /** Runs that have taken the token and not put it back, panicking ones not included. */
  function InProgress(s: State): nat {
    Number(s, Running) + Number(s, Returning)
  }

  /** The one token is in the channel, held by the run in progress, or lost to a panic. */
  ghost predicate Inv(s: State) {
    && InProgress(s) + Number(s, Panicked) + (if s.token then 1 else 0) == 1
    && s.started == InProgress(s) + Number(s, Completed) + Number(s, Panicked)
    && s.skipped == Number(s, Skipped)
  }

  lemma {:induction false} CountUpdate(s: seq<Phase>, i: nat, x: Phase, y: Phase)
    requires i < |s|
    ensures Count(s[i := x], y) == Count(s, y) - (if s[i] == y then 1 else 0) + if x == y then 1 else 0
  {
    var changed := s[i := x];
    if i == 0 {
      assert changed[1..] == s[1..];
    } else {
      CountUpdate(s[1..], i - 1, x, y);
      assert changed[1..] == s[1..][i - 1 := x];
    }
  }

  lemma MoveFiring(s: State, i: nat, x: Phase)
    requires i < |s.firings|
    ensures forall y :: Count(s.firings[i := x], y)
                          == Number(s, y) - (if s.firings[i] == y then 1 else 0) + if x == y then 1 else 0
  {
    forall y ensures Count(s.firings[i := x], y)
                       == Number(s, y) - (if s.firings[i] == y then 1 else 0) + if x == y then 1 else 0
    {
      CountUpdate(s.firings, i, x, y);
    }
  }

  lemma StepKeepsInv(s: State, step: Step)
    requires Inv(s) && Enabled(s, step)
    ensures Inv(Apply(s, step))
  {
    hide Count;
    match step
    case Fire =>
      forall y ensures Count(s.firings + [Fired], y) == Number(s, y) + if y == Fired then 1 else 0 {
        CountJoin(s.firings, [Fired], y);
        OneFiring(y);
      }
    case Decide(i) => MoveFiring(s, i, if s.token then Running else Skipped);
    case JobReturns(i) => MoveFiring(s, i, Returning);
    case JobPanics(i) => MoveFiring(s, i, Panicked);
    case PutBack(i) => MoveFiring(s, i, Completed);
  }

  lemma OneFiring(y: Phase)
    ensures Count([Fired], y) == if y == Fired then 1 else 0
  {
  }

  lemma {:induction false} RunKeepsInv(run: seq<State>, i: nat)
    requires IsRun(run) && i < |run|
    ensures Inv(run[i])
  {
    hide Apply, Inv, Enabled;
    if i == 0 {
      InitInv();
    } else {
      RunKeepsInv(run, i - 1);
      assert Follows(run[i - 1], run[i]);
      var step :| Enabled(run[i - 1], step) && run[i] == Apply(run[i - 1], step);
      StepKeepsInv(run[i - 1], step);
    }
  }

  lemma InitInv()
    ensures Inv(INIT)
  {
  }

  /** Two positions of the two given phases count at least two. */
  lemma {:induction false} CountTwo(s: seq<Phase>, i: nat, j: nat, a: Phase, b: Phase)
    requires i < j < |s| && s[i] in {a, b} && s[j] in {a, b}
    ensures Count(s, a) + Count(s, b) >= 2
  {
    CountMeaning(s[1..], s[j]);
    if i == 0 {
      assert s[1..][j - 1] == s[j];
    } else {
      CountTwo(s[1..], i - 1, j - 1, a, b);
    }
  }

  lemma {:induction false} CountAll(s: seq<Phase>)
    ensures |s| == Count(s, Fired) + Count(s, Running) + Count(s, Returning) + Count(s, Completed) + Count(s, Skipped)
                   + Count(s, Panicked)
  {
    if s != [] {
      CountAll(s[1..]);
      match s[0]
      case Fired => case Running => case Returning => case Completed => case Skipped => case Panicked =>
    }
  }

  /** In every state of every run: the entry can be fired; two firings never run at the same time, even before the token
      is back; the channel has room for a token to be put back, so that never waits; every decided firing was started
      or skipped; and the token is in the channel exactly when no run is in progress and none has panicked. */
  lemma OneAtATime(run: seq<State>, n: nat)
    requires IsRun(run) && n < |run|
    ensures var s := run[n];
            && Enabled(s, Fire)
            && (forall i, j :: 0 <= i < j < |s.firings| ==>
                  !(s.firings[i] in {Running, Returning} && s.firings[j] in {Running, Returning}))
            && (forall i :: 0 <= i < |s.firings| && s.firings[i].Returning? ==> Enabled(s, PutBack(i)))
            && s.started + s.skipped == |s.firings| - Number(s, Fired)
            && (s.token <==> InProgress(s) == 0 && Number(s, Panicked) == 0)
  {
    RunKeepsInv(run, n);
    var s := run[n];
    CountAll(s.firings);
    forall i, j | 0 <= i < j < |s.firings| && s.firings[i] in {Running, Returning} && s.firings[j] in {Running, Returning}
      ensures false
    {
      CountTwo(s.firings, i, j, Running, Returning);
    }
    CountMeaning(s.firings, Returning);
  }

  /** A firing is skipped exactly when a run is in progress or some run has panicked before. */
  lemma SkipExact(s: State, i: nat)
    requires Inv(s) && In(s, i, Fired)
    ensures In(Apply(s, Decide(i)), i, Skipped) <==>
              exists j :: 0 <= j < |s.firings| && s.firings[j] in {Running, Returning, Panicked}
    ensures !In(Apply(s, Decide(i)), i, Skipped) ==> In(Apply(s, Decide(i)), i, Running)
  {
    CountMeaning(s.firings, Running);
    CountMeaning(s.firings, Returning);
    CountMeaning(s.firings, Panicked);
    if !s.token {
      if Number(s, Running) > 0 {
        var j :| 0 <= j < |s.firings| && s.firings[j] == Running;
      } else if Number(s, Returning) > 0 {
        var j :| 0 <= j < |s.firings| && s.firings[j] == Returning;
      } else {
        var j :| 0 <= j < |s.firings| && s.firings[j] == Panicked;
      }
    }
  }

  /** One panic ends the entry: from then on nothing is in progress, nothing starts, and every firing is skipped. */
  lemma {:induction false} PanicIsForever(run: seq<State>, m: nat, n: nat)
    requires IsRun(run) && m <= n < |run| && Number(run[m], Panicked) > 0
    ensures run[n].started == run[m].started && Number(run[n], Panicked) == 1
    ensures InProgress(run[n]) == 0 && !run[n].token
  {
    RunKeepsInv(run, n);
    if n > m {
      PanicIsForever(run, m, n - 1);
      RunKeepsInv(run, n - 1);
      assert Follows(run[n - 1], run[n]);
      var step :| Enabled(run[n - 1], step) && run[n] == Apply(run[n - 1], step);
      PanicStays(run[n - 1], step);
    }
  }

  lemma PanicStays(s: State, step: Step)
    requires Inv(s) && Enabled(s, step) && Number(s, Panicked) > 0
    ensures Apply(s, step).started == s.started && Number(Apply(s, step), Panicked) > 0
  {
    CountMeaning(s.firings, Running);
    CountMeaning(s.firings, Returning);
    match step
    case Fire => CountJoin(s.firings, [Fired], Panicked);
    case Decide(i) => CountUpdate(s.firings, i, Skipped, Panicked);
    case _ =>
  }

  // ----- Runs by their steps -----

  ghost predicate Runs(s: State, steps: seq<Step>)
    decreases |steps|
  {
    steps == [] || (Enabled(s, steps[0]) && Runs(Apply(s, steps[0]), steps[1..]))
  }

  ghost function States(s: State, steps: seq<Step>): (run: seq<State>)
    requires Runs(s, steps)
    ensures |run| == |steps| + 1 && run[0] == s
    decreases |steps|
  {
    [s] + if steps == [] then [] else States(Apply(s, steps[0]), steps[1..])
  }

  ghost function After(s: State, steps: seq<Step>): State
    requires Runs(s, steps)
  {
    States(s, steps)[|steps|]
  }

  lemma {:induction false} StatesFollow(s: State, steps: seq<Step>, i: nat)
    requires Runs(s, steps) && 0 < i <= |steps|
    ensures Follows(States(s, steps)[i - 1], States(s, steps)[i])
    decreases |steps|
  {
    hide Apply, Enabled;
    if i > 1 {
      StatesFollow(Apply(s, steps[0]), steps[1..], i - 1);
    } else {
      assert Enabled(s, steps[0]) && States(s, steps)[1] == Apply(s, steps[0]);
    }
  }

  lemma StepsAreRun(steps: seq<Step>)
    requires Runs(INIT, steps)
    ensures IsRun(States(INIT, steps))
  {
    hide Follows, Apply, Enabled;
    forall i | 0 < i <= |steps| ensures Follows(States(INIT, steps)[i - 1], States(INIT, steps)[i]) {
      StatesFollow(INIT, steps, i);
    }
  }

  function Fires(steps: seq<Step>): nat {
    if steps == [] then 0 else (if steps[0].Fire? then 1 else 0) + Fires(steps[1..])
  }

  function Returns(steps: seq<Step>): nat {
    if steps == [] then 0 else (if steps[0].JobReturns? then 1 else 0) + Returns(steps[1..])
  }

  function Panics(steps: seq<Step>): nat {
    if steps == [] then 0 else (if steps[0].JobPanics? then 1 else 0) + Panics(steps[1..])
  }

  function PutBacks(steps: seq<Step>): nat {
    if steps == [] then 0 else (if steps[0].PutBack? then 1 else 0) + PutBacks(steps[1..])
  }

  lemma OneStepTally(s: State, step: Step)
    requires Inv(s) && Enabled(s, step)
    ensures var t := Apply(s, step);
            && |t.firings| == |s.firings| + Fires([step])
            && Number(t, Panicked) == Number(s, Panicked) + Panics([step])
            && Number(t, Completed) == Number(s, Completed) + PutBacks([step])
            && Number(t, Returning) + Number(t, Completed) == Number(s, Returning) + Number(s, Completed) + Returns([step])
  {
    hide Count;
    assert [step][1..] == [];
    match step
    case Fire =>
      forall y ensures Count(s.firings + [Fired], y) == Number(s, y) + if y == Fired then 1 else 0 {
        CountJoin(s.firings, [Fired], y);
        OneFiring(y);
      }
    case Decide(i) => MoveFiring(s, i, if s.token then Running else Skipped);
    case JobReturns(i) => MoveFiring(s, i, Returning);
    case JobPanics(i) => MoveFiring(s, i, Panicked);
    case PutBack(i) => MoveFiring(s, i, Completed);
  }

  lemma {:induction false} StepsTally(s: State, steps: seq<Step>)
    requires Inv(s) && Runs(s, steps)
    ensures var t := After(s, steps);
            && Inv(t) && |t.firings| == |s.firings| + Fires(steps)
            && Number(t, Panicked) == Number(s, Panicked) + Panics(steps)
            && Number(t, Completed) == Number(s, Completed) + PutBacks(steps)
            && Number(t, Returning) + Number(t, Completed) == Number(s, Returning) + Number(s, Completed) + Returns(steps)
    decreases |steps|
  {
    hide Apply, Enabled, Inv, Number;
    if steps != [] {
      assert [steps[0]][1..] == [];
      OneStepTally(s, steps[0]);
      StepKeepsInv(s, steps[0]);
      StepsTally(Apply(s, steps[0]), steps[1..]);
    }
  }

  /** On every run there are as many firings as the entry was fired, and each panicked job, each returned one and each
      token put back is one of them. Without a panicking job no firing has panicked, and the token is there exactly
      when every job that was started has put it back. */
  lemma RunTally(steps: seq<Step>)
    requires Runs(INIT, steps)
    ensures var s := After(INIT, steps);
            && |s.firings| == Fires(steps) && Number(s, Panicked) == Panics(steps)
            && Number(s, Completed) == PutBacks(steps)
            && Number(s, Returning) == Returns(steps) - PutBacks(steps)
            && (s.token <==> s.started == PutBacks(steps))
            && (Panics(steps) == 0 ==> forall i :: 0 <= i < |s.firings| ==> !s.firings[i].Panicked?)
  {
    hide *;
    StartTally();
    StepsTally(INIT, steps);
    TokenTally(After(INIT, steps));
  }

  lemma StartTally()
    ensures Inv(INIT) && |INIT.firings| == 0 && forall y :: Number(INIT, y) == 0
  {
  }

  lemma TokenTally(s: State)
    requires Inv(s)
    ensures s.token <==> s.started == Number(s, Completed)
    ensures Number(s, Panicked) == 0 ==> forall i :: 0 <= i < |s.firings| ==> !s.firings[i].Panicked?
  {
    hide Count;
    CountMeaning(s.firings, Panicked);
  }

  lemma OneStep(s: State, a: Step)
    requires Enabled(s, a)
    ensures Runs(s, [a]) && After(s, [a]) == Apply(s, a)
  {
    hide Apply, Enabled;
    assert [a][1..] == [];
  }

  lemma TwoSteps(s: State, a: Step, b: Step)
    requires Enabled(s, a) && Enabled(Apply(s, a), b)
    ensures Runs(s, [a, b]) && After(s, [a, b]) == Apply(Apply(s, a), b)
  {
    hide Apply, Enabled;
    OneStep(Apply(s, a), b);
    assert [a, b][1..] == [b];
  }

  /** A job that returns can put the token back at once, whatever else has happened; afterwards the firing has completed,
      the token is there and the next decision is to run. A job that panics leaves no token. */
  lemma ReturnGivesBack(run: seq<State>, n: nat, i: nat)
    requires IsRun(run) && n < |run| && In(run[n], i, Running)
    ensures var s := run[n];
            && Runs(s, [JobReturns(i), PutBack(i)])
            && After(s, [JobReturns(i), PutBack(i)]) == s.(token := true, firings := s.firings[i := Completed])
            && Runs(s, [JobPanics(i)])
            && After(s, [JobPanics(i)]) == s.(firings := s.firings[i := Panicked]) && !s.token
  {
    RunKeepsInv(run, n);
    var s := run[n];
    CountMeaning(s.firings, Running);
    assert s.firings[i := Returning][i := Completed] == s.firings[i := Completed];
    TwoSteps(s, JobReturns(i), PutBack(i));
    OneStep(s, JobPanics(i));
  }
}
