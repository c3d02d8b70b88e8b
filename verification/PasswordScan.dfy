/** The credential pipeline of passwordmanager/postgres.go.

    File readers fill one channel of lines, the main goroutine hands every line to one channel per user, the
    users' workers test them one at a time or in batches of goroutines, and a tracker adds up the reports. The
    state machine takes one channel operation, or the end of one authentication, as a step; goroutines
    interleave in any order and the outcome of an authentication is free. The end is signalled in band, by the
    line EXIT_SIGNAL. No run here is cancelled. */
module PasswordScan {
  import opened Common

  const EXIT_SIGNAL := "__AllFilesProcessed__"
  const CAPACITY := 1000000

  datatype Report = Tested(user: nat, password: string, succeeded: bool) | NoReportPending

  datatype Place = Looping | Holding(password: string) | Testing(password: string) | Leaving | Finished

  /** A user's goroutine: its channel, where it is, how many goroutines it has spawned since it last waited,
      what those still running test, and as history every line it received. */
  datatype Worker = Worker(ch: seq<string>, place: Place, ctr: nat, inFlight: seq<string>, taken: seq<string>)

  datatype Main = Receiving | Forwarding(password: string, next: nat) | WaitingForUsers | WaitingForTracker | Returned

  /** unread: what each reader has yet to send. passwords and reports are the channels passwordChan and reportCh;
      received and tracked are the histories of what was taken from them. */
  datatype State = State(perUser: int, files: seq<seq<string>>, unread: seq<seq<string>>, exitSent: bool,
                         passwords: seq<string>, received: seq<string>, main: Main, workers: seq<Worker>,
                         reports: seq<Report>, tracked: seq<Report>)

  datatype Step =
    | Read(file: nat)                                    // a reader sends a line
    | SendExit                                           // all readers done
    | Receive
    | Forward
    | Forwarded                                          // every user has the line
    | Take(user: nat)
    | Spawn(user: nat)
    | Finish(user: nat, task: nat, succeeded: bool)      // a spawned goroutine reports
    | Test(user: nat, succeeded: bool)                   // the worker itself reports
    | Leave(user: nat)                                   // the last goroutines are awaited
    | SendFinal
    | Track
    | Return

  function Init(perUser: int, files: seq<seq<string>>, users: nat): State {
    State(perUser, files, files, false, [], [], Receiving,
          seq(users, u => Worker([], Looping, 0, [], [])), [], [])
  }

  predicate Concurrent(s: State) {
    s.perUser > 1
  }

  predicate WorkerEnabled(s: State, step: Step) {
    match step
    case Take(u) => u < |s.workers| && s.workers[u].place.Looping? && s.workers[u].ch != []
    case Spawn(u) =>
      u < |s.workers| && s.workers[u].place.Holding? && (s.workers[u].ctr < s.perUser || s.workers[u].inFlight == [])
    case Finish(u, k, _) => u < |s.workers| && k < |s.workers[u].inFlight| && |s.reports| < CAPACITY
    case Test(u, _) => u < |s.workers| && s.workers[u].place.Testing? && |s.reports| < CAPACITY
    case Leave(u) =>
      u < |s.workers| && s.workers[u].place.Leaving? && (s.workers[u].ctr == 0 || s.workers[u].inFlight == [])
    case _ => false
  }

  predicate Enabled(s: State, step: Step) {
    match step
    case Read(i) => i < |s.unread| && s.unread[i] != [] && |s.passwords| < CAPACITY
    case SendExit => !s.exitSent && (forall i :: 0 <= i < |s.unread| ==> s.unread[i] == []) && |s.passwords| < CAPACITY
    case Receive => s.main.Receiving? && s.passwords != []
    case Forward => s.main.Forwarding? && s.main.next < |s.workers| && |s.workers[s.main.next].ch| < CAPACITY
    case Forwarded => s.main.Forwarding? && s.main.next == |s.workers|
    case SendFinal =>
      && s.main.WaitingForUsers? && |s.reports| < CAPACITY
      && forall u :: 0 <= u < |s.workers| ==> s.workers[u].place.Finished?
    case Track => s.reports != [] && NoReportPending !in s.tracked
    case Return => s.main.WaitingForTracker? && NoReportPending in s.tracked
    case _ => WorkerEnabled(s, step)
  }

  function WorkerAfter(s: State, step: Step): Worker
    requires WorkerEnabled(s, step)
  {
    var w := s.workers[step.user];
    match step
    case Take(_) =>
      var p := w.ch[0];
      w.(ch := w.ch[1..], taken := w.taken + [p],
         place := if p == EXIT_SIGNAL then Leaving else if Concurrent(s) then Holding(p) else Testing(p))
    case Spawn(_) =>
      var ctr := if w.ctr >= s.perUser then 0 else w.ctr;
      w.(place := Looping, inFlight := w.inFlight + [w.place.password], ctr := ctr + 1)
    case Finish(_, k, _) => w.(inFlight := w.inFlight[..k] + w.inFlight[k + 1..])
    case Test(_, _) => w.(place := Looping)
    case Leave(_) => w.(place := Finished)
  }

  function ReportsAfter(s: State, step: Step): seq<Report>
    requires WorkerEnabled(s, step)
  {
    match step
    case Finish(u, k, ok) => s.reports + [Tested(u, s.workers[u].inFlight[k], ok)]
    case Test(u, ok) => s.reports + [Tested(u, s.workers[u].place.password, ok)]
    case _ => s.reports
  }

  function Apply(s: State, step: Step): State
    requires Enabled(s, step)
  {
    match step
    case Read(i) =>
      s.(unread := s.unread[i := s.unread[i][1..]], passwords := s.passwords + [s.unread[i][0]])
    case SendExit => s.(exitSent := true, passwords := s.passwords + [EXIT_SIGNAL])
    case Receive =>
      s.(passwords := s.passwords[1..], received := s.received + [s.passwords[0]], main := Forwarding(s.passwords[0], 0))
    case Forward =>
      var u, p := s.main.next, s.main.password;
      s.(workers := s.workers[u := s.workers[u].(ch := s.workers[u].ch + [p])], main := Forwarding(p, u + 1))
    case Forwarded => s.(main := if s.main.password == EXIT_SIGNAL then WaitingForUsers else Receiving)
    case SendFinal => s.(reports := s.reports + [NoReportPending], main := WaitingForTracker)
    case Track => s.(reports := s.reports[1..], tracked := s.tracked + [s.reports[0]])
    case Return => s.(main := Returned)
    case _ => s.(workers := s.workers[step.user := WorkerAfter(s, step)], reports := ReportsAfter(s, step))
  }

  ghost predicate Follows(s: State, t: State) {
    exists step :: Enabled(s, step) && t == Apply(s, step)
  }

  ghost predicate IsRun(run: seq<State>) {
    && run != [] && run[0] == Init(run[0].perUser, run[0].files, |run[0].workers|)
    && forall i :: 0 < i < |run| ==> Follows(run[i - 1], run[i])
  }

  // ----- The readers -----

  function Lines(files: seq<seq<string>>): seq<string> {
    if files == [] then [] else files[0] + Lines(files[1..])
  }

  /** Taking the first line of one file takes one line out of them all. */
  lemma {:induction false} LinesLess(files: seq<seq<string>>, i: nat) returns (a: seq<string>, b: seq<string>)
    requires i < |files| && files[i] != []
    ensures Lines(files) == a + [files[i][0]] + b
    ensures Lines(files[i := files[i][1..]]) == a + b
  {
    var less := files[i := files[i][1..]];
    if i == 0 {
      a, b := [], files[0][1..] + Lines(files[1..]);
      assert files[0] == [files[0][0]] + files[0][1..];
      assert less[1..] == files[1..];
      assert Lines(files) == [files[0][0]] + b;
    } else {
      a, b := LinesLess(files[1..], i - 1);
      assert less[1..] == files[1..][i - 1 := files[i][1..]];
      a := files[0] + a;
      assert files[0] + ((a[|files[0]|..] + [files[i][0]]) + b) == a + [files[i][0]] + b;
      assert files[0] + (a[|files[0]|..] + b) == a + b;
    }
  }

  lemma {:induction false} NoLines(files: seq<seq<string>>)
    requires forall i :: 0 <= i < |files| ==> files[i] == []
    ensures Lines(files) == []
  {
    if files != [] {
      NoLines(files[1..]);
    }
  }

  lemma CountOneMore(a: seq<string>, x: string, b: seq<string>, p: string)
    ensures Count(a + [x] + b, p) == Count(a + b, p) + if x == p then 1 else 0
  {
    CountJoin(a, [x] + b, p);
    CountJoin(a, b, p);
    assert a + [x] + b == a + ([x] + b);
    assert ([x] + b)[1..] == b;
  }

  lemma CountLast(a: seq<string>, x: string, p: string)
    ensures Count(a + [x], p) == Count(a, p) + if x == p then 1 else 0
  {
    CountOneMore(a, x, [], p);
    assert a + [x] + [] == a + [x] && a + [] == a;
  }

  /** Everything put into passwordChan so far. */
  function Sent(s: State): seq<string> {
    s.received + s.passwords
  }

  /** Every line of the files is unread or was sent once, and the exit signal follows them all. */
  ghost predicate ReadersOk(s: State) {
    var lines, extra := Lines(s.files), if s.exitSent then 1 else 0;
    && (forall p :: Count(Sent(s), p) + Count(Lines(s.unread), p) == Count(lines, p) + if p == EXIT_SIGNAL then extra else 0)
    && |Sent(s)| + |Lines(s.unread)| == |lines| + extra
    && (s.exitSent ==> Lines(s.unread) == [] && Sent(s) != [] && Last(Sent(s)) == EXIT_SIGNAL)
    && (!s.exitSent && Lines(s.unread) == [] ==> forall i :: 0 <= i < |s.unread| ==> s.unread[i] == [])
    && |s.passwords| <= CAPACITY
  }

  function Last(s: seq<string>): string
    requires s != []
  {
    s[|s| - 1]
  }

  function Front(s: seq<string>): seq<string>
    requires s != []
  {
    s[..|s| - 1]
  }

  lemma {:induction false} LinesEmpty(files: seq<seq<string>>, i: nat)
    requires Lines(files) == [] && i < |files|
    ensures files[i] == []
  {
    assert |Lines(files)| == |files[0]| + |Lines(files[1..])|;
    if i > 0 {
      LinesEmpty(files[1..], i - 1);
    }
  }

  lemma ReadKeepsReaders(s: State, i: nat)
    requires ReadersOk(s) && Enabled(s, Read(i))
    ensures ReadersOk(Apply(s, Read(i)))
  {
    var t := Apply(s, Read(i));
    var line := s.unread[i][0];
    var a, b := LinesLess(s.unread, i);
    assert Sent(t) == Sent(s) + [line];
    assert Lines(s.unread) != [];
    forall p ensures Count(Sent(t), p) + Count(Lines(t.unread), p) == Count(Sent(s), p) + Count(Lines(s.unread), p) {
      CountLast(Sent(s), line, p);
      CountOneMore(a, line, b, p);
    }
    if Lines(t.unread) == [] {
      forall j | 0 <= j < |t.unread| ensures t.unread[j] == [] {
        LinesEmpty(t.unread, j);
      }
    }
  }

  lemma SendExitKeepsReaders(s: State)
    requires ReadersOk(s) && Enabled(s, SendExit)
    ensures ReadersOk(Apply(s, SendExit))
  {
    var t := Apply(s, SendExit);
    NoLines(s.unread);
    assert Sent(t) == Sent(s) + [EXIT_SIGNAL];
    forall p ensures Count(Sent(t), p) == Count(Sent(s), p) + if p == EXIT_SIGNAL then 1 else 0 {
      CountLast(Sent(s), EXIT_SIGNAL, p);
    }
  }

  lemma StepKeepsReaders(s: State, step: Step)
    requires ReadersOk(s) && Enabled(s, step)
    ensures ReadersOk(Apply(s, step))
  {
    match step
    case Read(i) => ReadKeepsReaders(s, i);
    case SendExit => SendExitKeepsReaders(s);
    case Receive =>
      assert Sent(Apply(s, step)) == Sent(s);
    case _ =>
      assert Sent(Apply(s, step)) == Sent(s);
  }

  // ----- The main goroutine -----

  /** The first exit signal ends the distribution: before it all lines go to every user, after it none. */
  ghost predicate MainOk(s: State) {
    match s.main
    case Receiving => EXIT_SIGNAL !in s.received
    case Forwarding(p, next) =>
      next <= |s.workers| && s.received != [] && Last(s.received) == p && EXIT_SIGNAL !in Front(s.received)
    case _ => s.received != [] && Last(s.received) == EXIT_SIGNAL && EXIT_SIGNAL !in Front(s.received)
  }

  /** What user u has been sent so far. */
  function SentTo(s: State, u: nat): seq<string> {
    if s.main.Forwarding? && s.main.next <= u && s.received != [] then Front(s.received) else s.received
  }

  lemma StepKeepsMain(s: State, step: Step)
    requires MainOk(s) && Enabled(s, step)
    ensures MainOk(Apply(s, step))
  {
    var t := Apply(s, step);
    if step.Receive? {
      assert Front(t.received) == s.received;
    } else if step.Forwarded? && s.main.password != EXIT_SIGNAL {
      assert s.received == Front(s.received) + [s.main.password];
    }
  }

  // ----- The workers -----

  /** Every report so far. */
  function Emitted(s: State): seq<Report> {
    s.tracked + s.reports
  }

  /** What user u has been tested with, in the order of the reports. */
  function TestsOf(rs: seq<Report>, u: nat): seq<string> {
    if rs == [] then [] else TestOf(rs[0], u) + TestsOf(rs[1..], u)
  }

  function TestOf(r: Report, u: nat): seq<string> {
    if r.Tested? && r.user == u then [r.password] else []
  }

  lemma {:induction false} TestsOfJoin(a: seq<Report>, b: seq<Report>, u: nat)
    ensures TestsOf(a + b, u) == TestsOf(a, u) + TestsOf(b, u)
  {
    if a == [] {
      assert a + b == b;
    } else {
      hide TestOf;
      TestsOfJoin(a[1..], b, u);
      assert (a + b)[0] == a[0] && (a + b)[1..] == a[1..] + b;
      Regroup(TestOf(a[0], u), TestsOf(a[1..], u), TestsOf(b, u));
    }
  }

  lemma TestsOfLast(rs: seq<Report>, r: Report, u: nat)
    ensures TestsOf(rs + [r], u) == if r.Tested? && r.user == u then TestsOf(rs, u) + [r.password] else TestsOf(rs, u)
  {
    TestsOfJoin(rs, [r], u);
    assert TestsOf([r], u) == if r.Tested? && r.user == u then [r.password] else [] by {
      assert [r][1..] == [];
    }
  }

  predicate Left(w: Worker) {
    w.place.Leaving? || w.place.Finished?
  }

  /** The line a worker is busy with, and the exit signal once it has left its loop. */
  function InHand(w: Worker): seq<string> {
    if w.place.Holding? || w.place.Testing? then [w.place.password]
    else if Left(w) then [EXIT_SIGNAL]
    else []
  }

  /** What a worker received, and will find in its channel, is what was forwarded to it, and each line it received is
      tested, being tested, or in hand. At most perUser tests run at a time; a single one when that is below two. */
  ghost predicate WorkerOk(w: Worker, perUser: int, forwarded: seq<string>, tests: seq<string>) {
    && w.taken + w.ch == forwarded
    && (Left(w) <==> EXIT_SIGNAL in w.taken)
    && (forall p :: Count(w.taken, p) == Count(tests, p) + Count(w.inFlight, p) + Count(InHand(w), p))
    && |w.taken| == |tests| + |w.inFlight| + |InHand(w)|
    && (if perUser > 1 then !w.place.Testing? && |w.inFlight| <= w.ctr <= perUser
        else !w.place.Holding? && w.inFlight == [] && w.ctr == 0)
    && (w.place.Finished? ==> w.inFlight == [])
    && |w.ch| <= CAPACITY
  }

  ghost predicate WorkersOk(s: State) {
    forall u :: 0 <= u < |s.workers| ==> WorkerOk(s.workers[u], s.perUser, SentTo(s, u), TestsOf(Emitted(s), u))
  }

  lemma TakeKeepsWorker(s: State, u: nat)
    requires WorkersOk(s) && Enabled(s, Take(u))
    requires forall i :: 0 <= i < |SentTo(s, u)| - 1 ==> SentTo(s, u)[i] != EXIT_SIGNAL
    ensures WorkerOk(WorkerAfter(s, Take(u)), s.perUser, SentTo(s, u), TestsOf(Emitted(s), u))
  {
    var w, w' := s.workers[u], WorkerAfter(s, Take(u));
    assert WorkerOk(w, s.perUser, SentTo(s, u), TestsOf(Emitted(s), u));
    assert w.ch == [w.ch[0]] + w.ch[1..];
    assert w'.taken + w'.ch == w.taken + w.ch;
    forall p ensures Count(w'.taken, p) == Count(w.taken, p) + Count([w.ch[0]], p) {
      CountJoin(w.taken, [w.ch[0]], p);
    }
  }

  lemma SpawnKeepsWorker(w: Worker, perUser: int, forwarded: seq<string>, tests: seq<string>)
    requires WorkerOk(w, perUser, forwarded, tests) && w.place.Holding? && (w.ctr < perUser || w.inFlight == [])
    ensures var ctr := if w.ctr >= perUser then 0 else w.ctr;
            WorkerOk(w.(place := Looping, inFlight := w.inFlight + [w.place.password], ctr := ctr + 1), perUser, forwarded, tests)
  {
    forall p ensures Count(w.inFlight + [w.place.password], p) == Count(w.inFlight, p) + Count(InHand(w), p) {
      CountJoin(w.inFlight, InHand(w), p);
    }
  }

  lemma FinishKeepsWorker(w: Worker, perUser: int, forwarded: seq<string>, tests: seq<string>, k: nat)
    requires WorkerOk(w, perUser, forwarded, tests) && k < |w.inFlight|
    ensures WorkerOk(w.(inFlight := w.inFlight[..k] + w.inFlight[k + 1..]), perUser, forwarded, tests + [w.inFlight[k]])
  {
    var less := w.inFlight[..k] + w.inFlight[k + 1..];
    assert w.inFlight == w.inFlight[..k] + [w.inFlight[k]] + w.inFlight[k + 1..];
    forall p ensures Count(tests + [w.inFlight[k]], p) + Count(less, p) == Count(tests, p) + Count(w.inFlight, p) {
      CountLast(tests, w.inFlight[k], p);
      CountOneMore(w.inFlight[..k], w.inFlight[k], w.inFlight[k + 1..], p);
    }
  }

  lemma TestKeepsWorker(w: Worker, perUser: int, forwarded: seq<string>, tests: seq<string>)
    requires WorkerOk(w, perUser, forwarded, tests) && w.place.Testing?
    ensures WorkerOk(w.(place := Looping), perUser, forwarded, tests + [w.place.password])
  {
    forall p ensures Count(tests + [w.place.password], p) == Count(tests, p) + Count(InHand(w), p) {
      CountJoin(tests, InHand(w), p);
    }
  }

  lemma ForwardKeepsWorker(w: Worker, perUser: int, forwarded: seq<string>, tests: seq<string>, p: string)
    requires WorkerOk(w, perUser, forwarded, tests) && |w.ch| < CAPACITY
    ensures WorkerOk(w.(ch := w.ch + [p]), perUser, forwarded + [p], tests)
  {
    assert w.taken + (w.ch + [p]) == (w.taken + w.ch) + [p];
  }

  lemma StepKeepsWorkers(s: State, step: Step)
    requires MainOk(s) && WorkersOk(s) && Enabled(s, step)
    ensures WorkersOk(Apply(s, step))
  {
    forall u | 0 <= u < |s.workers|
      ensures var t := Apply(s, step); WorkerOk(t.workers[u], t.perUser, SentTo(t, u), TestsOf(Emitted(t), u))
    {
      StepKeepsWorker(s, step, u);
    }
  }

  lemma StepKeepsWorker(s: State, step: Step, u: nat)
    requires MainOk(s) && WorkersOk(s) && Enabled(s, step) && u < |s.workers|
    ensures var t := Apply(s, step);
            |t.workers| == |s.workers| && WorkerOk(t.workers[u], t.perUser, SentTo(t, u), TestsOf(Emitted(t), u))
  {
    hide WorkerOk, SentTo, TestsOf, Emitted, MainOk;
    assert WorkerOk(s.workers[u], s.perUser, SentTo(s, u), TestsOf(Emitted(s), u));
    SentToAfter(s, step, u);
    EmittedAfter(s, step, u);
    if step == Forward && s.main.next == u {
      ForwardKeepsWorker(s.workers[u], s.perUser, SentTo(s, u), TestsOf(Emitted(s), u), s.main.password);
    } else if step == Take(u) {
      ExitIsLast(s, u);
      TakeKeepsWorker(s, u);
    } else if step == Spawn(u) {
      SpawnKeepsWorker(s.workers[u], s.perUser, SentTo(s, u), TestsOf(Emitted(s), u));
    } else if step.Finish? && step.user == u {
      FinishKeepsWorker(s.workers[u], s.perUser, SentTo(s, u), TestsOf(Emitted(s), u), step.task);
    } else if step.Test? && step.user == u {
      TestKeepsWorker(s.workers[u], s.perUser, SentTo(s, u), TestsOf(Emitted(s), u));
    } else if step == Leave(u) {
      LeaveKeepsWorker(s.workers[u], s.perUser, SentTo(s, u), TestsOf(Emitted(s), u));
    }
  }

  lemma LeaveKeepsWorker(w: Worker, perUser: int, forwarded: seq<string>, tests: seq<string>)
    requires WorkerOk(w, perUser, forwarded, tests) && w.place.Leaving? && (w.ctr == 0 || w.inFlight == [])
    ensures WorkerOk(w.(place := Finished), perUser, forwarded, tests)
  {
  }

  lemma ExitIsLast(s: State, u: nat)
    requires MainOk(s)
    ensures forall i :: 0 <= i < |SentTo(s, u)| - 1 ==> SentTo(s, u)[i] != EXIT_SIGNAL
  {
    if s.received != [] {
      forall i | 0 <= i < |s.received| - 1 ensures s.received[i] != EXIT_SIGNAL {
        assert Front(s.received)[i] == s.received[i];
      }
    }
  }

  /** Only Forward adds to what a user was sent, and only for the user it is at. */
  lemma SentToAfter(s: State, step: Step, u: nat)
    requires MainOk(s) && Enabled(s, step) && u < |s.workers|
    ensures SentTo(Apply(s, step), u)
         == if step == Forward && s.main.next == u then SentTo(s, u) + [s.main.password] else SentTo(s, u)
  {
    var t := Apply(s, step);
    if step.Receive? {
      assert Front(t.received) == s.received;
    } else if step.Forward? {
      assert s.received == Front(s.received) + [s.main.password];
    }
  }

  /** Only the end of a test adds to a user's tests. */
  lemma EmittedAfter(s: State, step: Step, u: nat)
    requires Enabled(s, step) && u < |s.workers|
    ensures TestsOf(Emitted(Apply(s, step)), u) ==
              if step.Finish? && step.user == u then TestsOf(Emitted(s), u) + [s.workers[u].inFlight[step.task]]
              else if step.Test? && step.user == u then TestsOf(Emitted(s), u) + [s.workers[u].place.password]
              else TestsOf(Emitted(s), u)
  {
    var t := Apply(s, step);
    if step.Track? {
      assert s.tracked + [s.reports[0]] + s.reports[1..] == s.tracked + s.reports;
    } else if |t.reports| > |s.reports| {
      var r := t.reports[|s.reports|];
      assert Emitted(t) == Emitted(s) + [r];
      TestsOfLast(Emitted(s), r, u);
    }
  }

  // ----- The reports -----

  /** Every report precedes the final one, which is sent when all users are finished. */
  ghost predicate ReportsOk(s: State) {
    var e := Emitted(s);
    && (forall i :: 0 <= i < |e| && e[i].Tested? ==> e[i].user < |s.workers|)
    && (forall i :: 0 <= i < |e| && e[i].NoReportPending? ==> i == |e| - 1)
    && ((exists i :: 0 <= i < |e| && e[i].NoReportPending?) <==> s.main.WaitingForTracker? || s.main.Returned?)
    && (s.main.WaitingForTracker? || s.main.Returned? ==> forall u :: 0 <= u < |s.workers| ==> s.workers[u].place.Finished?)
    && (s.main.Returned? ==> NoReportPending in s.tracked)
    && |s.reports| <= CAPACITY
  }

  lemma StepKeepsReports(s: State, step: Step)
    requires WorkersOk(s) && ReportsOk(s) && Enabled(s, step)
    ensures ReportsOk(Apply(s, step))
  {
    hide WorkersOk;
    var t := Apply(s, step);
    if step.Track? {
      assert Emitted(t) == Emitted(s);
    } else if step.SendFinal? {
      assert Emitted(t) == Emitted(s) + [NoReportPending];
      assert Emitted(t)[|Emitted(s)|].NoReportPending?;
    } else if step.Finish? || step.Test? {
      NoneLeftBusy(s, step);
      var r := t.reports[|s.reports|];
      assert Emitted(t) == Emitted(s) + [r];
      assert forall i :: 0 <= i < |Emitted(t)| && Emitted(t)[i].NoReportPending? ==> i < |Emitted(s)| && Emitted(s)[i].NoReportPending?;
    } else {
      assert Emitted(t) == Emitted(s);
    }
  }

  /** A user with a test still running is not finished. */
  lemma NoneLeftBusy(s: State, step: Step)
    requires WorkersOk(s) && Enabled(s, step) && (step.Finish? || step.Test?)
    ensures !s.workers[step.user].place.Finished?
  {
    assert WorkerOk(s.workers[step.user], s.perUser, SentTo(s, step.user), TestsOf(Emitted(s), step.user));
  }

  // ----- Every run -----

  ghost predicate Inv(s: State) {
    ReadersOk(s) && MainOk(s) && WorkersOk(s) && ReportsOk(s)
  }

  lemma StepKeepsInv(s: State, step: Step)
    requires Inv(s) && Enabled(s, step)
    ensures Inv(Apply(s, step))
    ensures var t := Apply(s, step);
            t.perUser == s.perUser && t.files == s.files && |t.workers| == |s.workers|
  {
    StepKeepsReaders(s, step);
    StepKeepsMain(s, step);
    StepKeepsWorkers(s, step);
    StepKeepsReports(s, step);
  }

  lemma InitInv(perUser: int, files: seq<seq<string>>, users: nat)
    ensures Inv(Init(perUser, files, users))
  {
    var s := Init(perUser, files, users);
    assert Sent(s) == [] && Emitted(s) == [];
    if Lines(files) == [] {
      forall i | 0 <= i < |files| ensures files[i] == [] {
        LinesEmpty(files, i);
      }
    }
  }

  lemma {:induction false} RunKeepsInv(run: seq<State>, i: nat)
    requires IsRun(run) && i < |run|
    ensures Inv(run[i])
    ensures run[i].perUser == run[0].perUser && run[i].files == run[0].files && |run[i].workers| == |run[0].workers|
  {
    hide Inv, Apply, Enabled;
    if i == 0 {
      InitInv(run[0].perUser, run[0].files, |run[0].workers|);
    } else {
      RunKeepsInv(run, i - 1);
      assert Follows(run[i - 1], run[i]);
      var step :| Enabled(run[i - 1], step) && run[i] == Apply(run[i - 1], step);
      StepKeepsInv(run[i - 1], step);
    }
  }

  // ----- The tracker -----

  function Totals(rs: seq<Report>): nat {
    if rs == [] then 0 else (if rs[0].Tested? then 1 else 0) + Totals(rs[1..])
  }

  /** The reports of successful tests, in order. */
  function Successes(rs: seq<Report>): seq<Report> {
    if rs == [] then [] else SuccessOf(rs[0]) + Successes(rs[1..])
  }

  function SuccessOf(r: Report): seq<Report> {
    if r.Tested? && r.succeeded then [r] else []
  }

  lemma {:induction false} TotalsJoin(a: seq<Report>, b: seq<Report>)
    ensures Totals(a + b) == Totals(a) + Totals(b)
    ensures Successes(a + b) == Successes(a) + Successes(b)
  {
    if a == [] {
      assert a + b == b;
    } else {
      hide SuccessOf;
      TotalsJoin(a[1..], b);
      assert (a + b)[0] == a[0] && (a + b)[1..] == a[1..] + b;
      Regroup(SuccessOf(a[0]), Successes(a[1..]), Successes(b));
    }
  }

  lemma LastTotals(rs: seq<Report>, r: Report)
    ensures Totals(rs + [r]) == Totals(rs) + if r.Tested? then 1 else 0
    ensures Successes(rs + [r]) == Successes(rs) + if r.Tested? && r.succeeded then [r] else []
  {
    TotalsJoin(rs, [r]);
    assert [r][1..] == [];
  }

  ghost predicate TrackerResult(reportCh: seq<Report>, total: nat, success: nat, failure: nat, combinations: seq<Report>,
                                next: nat)
  {
    && next <= |reportCh| && NoReportPending !in reportCh[..next]
    && (next == |reportCh| || reportCh[next].NoReportPending?)
    && total == Totals(reportCh[..next]) == next && total == success + failure
    && combinations == Successes(reportCh[..next]) && success == |combinations|
  }

  /** The loop over reportCh, on the reports it will receive: it stops after the first final report, with the totals
      of those before it. */
  method StatusTracker(reportCh: seq<Report>) returns (total: nat, success: nat, failure: nat, combinations: seq<Report>,
                                                       next: nat)
    ensures TrackerResult(reportCh, total, success, failure, combinations, next)
  {
    total, success, failure, combinations, next := 0, 0, 0, [], 0;
    while next < |reportCh|
      invariant next <= |reportCh| && NoReportPending !in reportCh[..next]
      invariant total == Totals(reportCh[..next]) == next && total == success + failure
      invariant combinations == Successes(reportCh[..next]) && success == |combinations|
    {
      var report := reportCh[next];
      if report.NoReportPending? {
        return;
      }
      assert reportCh[..next + 1] == reportCh[..next] + [report];
      LastTotals(reportCh[..next], report);
      total := total + 1;
      if report.succeeded {
        success := success + 1;
        combinations := combinations + [report];
      } else {
        failure := failure + 1;
      }
      next := next + 1;
    }
  }

  /** The tests of the first n users together. */
  function TestsOfFirst(rs: seq<Report>, n: nat): nat {
    if n == 0 then 0 else TestsOfFirst(rs, n - 1) + |TestsOf(rs, n - 1)|
  }

  lemma {:induction false} FirstOf(r: Report, rest: seq<Report>, n: nat)
    ensures TestsOfFirst([r] + rest, n) == TestsOfFirst(rest, n) + if r.Tested? && r.user < n then 1 else 0
  {
    if n > 0 {
      FirstOf(r, rest, n - 1);
      assert ([r] + rest)[1..] == rest;
    }
  }

  /** Adding up over users is adding up over reports. */
  lemma {:induction false} TotalsByUser(rs: seq<Report>, n: nat)
    requires forall i :: 0 <= i < |rs| && rs[i].Tested? ==> rs[i].user < n
    ensures Totals(rs) == TestsOfFirst(rs, n)
  {
    if rs == [] {
      NoTests(n);
    } else {
      TotalsByUser(rs[1..], n);
      FirstOf(rs[0], rs[1..], n);
      assert rs == [rs[0]] + rs[1..];
    }
  }

  lemma {:induction false} NoTests(n: nat)
    ensures TestsOfFirst([], n) == 0
  {
    if n > 0 {
      NoTests(n - 1);
    }
  }

  lemma {:induction false} EqualShares(rs: seq<Report>, n: nat, each: nat)
    requires forall u :: 0 <= u < n ==> |TestsOf(rs, u)| == each
    ensures TestsOfFirst(rs, n) == n * each
  {
    if n > 0 {
      EqualShares(rs, n - 1, each);
    }
  }

  // ----- The outcome -----

  /** When the scan has returned, the tracker has every report, and each user was tested with exactly the lines
      that the main goroutine received before the exit signal. */
  lemma ReturnedTests(s: State, u: nat, p: string)
    requires Inv(s) && s.main.Returned? && u < |s.workers|
    ensures s.reports == []
    ensures Count(TestsOf(s.tracked, u), p) == Count(Front(s.received), p)
    ensures |TestsOf(s.tracked, u)| == |s.received| - 1
  {
    AllTracked(s);
    var w := s.workers[u];
    assert WorkerOk(w, s.perUser, SentTo(s, u), TestsOf(Emitted(s), u)) && w.place.Finished?;
    assert w.taken + w.ch == s.received && s.received == Front(s.received) + [EXIT_SIGNAL];
    assert w.taken == s.received by {
      ExitIsLast(s, u);
      var i :| 0 <= i < |w.taken| && w.taken[i] == EXIT_SIGNAL;
      assert s.received[i] == EXIT_SIGNAL;
    }
    CountJoin(Front(s.received), [EXIT_SIGNAL], p);
  }

  lemma AllTracked(s: State)
    requires ReportsOk(s) && s.main.Returned?
    ensures s.reports == [] && Emitted(s) == s.tracked
  {
    var i :| 0 <= i < |s.tracked| && s.tracked[i] == NoReportPending;
    assert Emitted(s)[i].NoReportPending?;
    assert s.tracked + [] == s.tracked;
  }

  /** The lines received before the exit signal are all the lines exactly when none of them equals the signal. */
  lemma ReceivedAll(s: State)
    requires ReadersOk(s) && MainOk(s) && (s.main.WaitingForUsers? || s.main.WaitingForTracker? || s.main.Returned?)
    ensures |s.received| - 1 <= |Lines(s.files)|
    ensures |s.received| - 1 == |Lines(s.files)| <==> EXIT_SIGNAL !in Lines(s.files)
    ensures EXIT_SIGNAL !in Lines(s.files) ==>
              forall p :: Count(Front(s.received), p) == Count(Lines(s.files), p)
  {
    var lines, front := Lines(s.files), Front(s.received);
    assert s.received == front + [EXIT_SIGNAL];
    CountMeaning(front, EXIT_SIGNAL);
    CountMeaning(lines, EXIT_SIGNAL);
    CountMeaning(s.passwords, EXIT_SIGNAL);
    CountLast(front, EXIT_SIGNAL, EXIT_SIGNAL);
    CountJoin(s.received, s.passwords, EXIT_SIGNAL);
    assert s.passwords == [] ==> Sent(s) == s.received;
    if EXIT_SIGNAL !in lines {
      if s.passwords != [] {
        LastSent(s);
      }
      assert Sent(s) == s.received;
      forall p ensures Count(front, p) == Count(lines, p) {
        CountLast(front, EXIT_SIGNAL, p);
      }
    }
  }

  lemma LastSent(s: State)
    requires s.passwords != []
    ensures Sent(s) != [] && Last(Sent(s)) in s.passwords
  {
  }

  /** The outcome of every uncancelled run that returns. Every report precedes the final one, every user was tested the
      same number of times, and the final total is users x lines exactly when no line equals the exit
      signal (or there are no users); then each user was tested with every line, as often as the files hold it.
      Otherwise the total is short. */
  lemma FinalReport(run: seq<State>, i: nat)
    requires IsRun(run) && i < |run| && run[i].main.Returned?
    ensures var s, lines, users := run[i], Lines(run[0].files), |run[0].workers|;
            && s.reports == [] && s.tracked != [] && s.tracked[|s.tracked| - 1].NoReportPending?
            && NoReportPending !in s.tracked[..|s.tracked| - 1]
            && Totals(s.tracked) <= users * |lines|
            && (Totals(s.tracked) == users * |lines| <==> EXIT_SIGNAL !in lines || users == 0)
            && (EXIT_SIGNAL !in lines ==>
                  forall u, p :: 0 <= u < users ==> Count(TestsOf(s.tracked, u), p) == Count(lines, p))
  {
    hide IsRun, TestsOf, Totals, Lines, Count;
    RunKeepsInv(run, i);
    ReturnedReports(run[i]);
    ReturnedTotals(run[i]);
  }

  lemma ReturnedReports(s: State)
    requires ReportsOk(s) && s.main.Returned?
    ensures s.reports == [] && s.tracked != [] && s.tracked[|s.tracked| - 1].NoReportPending?
    ensures NoReportPending !in s.tracked[..|s.tracked| - 1]
  {
    AllTracked(s);
    var j :| 0 <= j < |s.tracked| && s.tracked[j] == NoReportPending;
    assert Emitted(s)[j].NoReportPending?;
  }

  lemma ReturnedTotals(s: State)
    requires Inv(s) && s.main.Returned?
    ensures var lines, users := Lines(s.files), |s.workers|;
            && Totals(s.tracked) <= users * |lines|
            && (Totals(s.tracked) == users * |lines| <==> EXIT_SIGNAL !in lines || users == 0)
            && (EXIT_SIGNAL !in lines ==>
                  forall u, p :: 0 <= u < users ==> Count(TestsOf(s.tracked, u), p) == Count(lines, p))
  {
    hide TestsOf, Totals, Lines, Count, WorkersOk;
    var lines, users := Lines(s.files), |s.workers|;
    AllTracked(s);
    ReceivedAll(s);
    hide ReadersOk;
    forall u, p | 0 <= u < users
      ensures Count(TestsOf(s.tracked, u), p) == Count(Front(s.received), p)
    {
      ReturnedTests(s, u, p);
    }
    forall u | 0 <= u < users ensures |TestsOf(s.tracked, u)| == |s.received| - 1 {
      ReturnedTests(s, u, "");
    }
    TotalsByUser(s.tracked, users);
    EqualShares(s.tracked, users, |s.received| - 1);
    Products(users, |s.received| - 1, |lines|);
  }

  lemma NoneBefore(rs: seq<Report>, n: nat)
    requires n <= |rs| && NoReportPending !in rs[..n]
    ensures forall i :: 0 <= i < n ==> !rs[i].NoReportPending?
  {
    forall i | 0 <= i < n ensures !rs[i].NoReportPending? {
      assert rs[i] in rs[..n];
    }
  }

  /** What the tracker prints at the end of such a run: total = success + failure, which is users x lines if and only if
      no line equals the exit signal, and every successful combination. */
  lemma PrintedReport(run: seq<State>, i: nat, total: nat, success: nat, failure: nat, combinations: seq<Report>, next: nat)
    requires IsRun(run) && i < |run| && run[i].main.Returned?
    requires TrackerResult(run[i].tracked, total, success, failure, combinations, next)
    ensures var lines, users := Lines(run[0].files), |run[0].workers|;
            && next == |run[i].tracked| - 1 && combinations == Successes(run[i].tracked)
            && total == success + failure && success == |combinations|
            && (total == users * |lines| <==> EXIT_SIGNAL !in lines || users == 0)
  {
    hide IsRun, Totals, Lines, Count, Successes, TestsOf;
    FinalReport(run, i);
    var rs := run[i].tracked;
    var last := |rs| - 1;
    NoneBefore(rs, last);
    NoneBefore(rs, next);
    assert rs == rs[..last] + [rs[last]];
    LastTotals(rs[..last], rs[last]);
    assert Successes(rs[..last]) + [] == Successes(rs[..last]);
  }

  /** A send waits exactly when a million items wait in its channel. */
  lemma SendsWait(s: State)
    ensures forall i :: 0 <= i < |s.unread| && s.unread[i] != [] ==> (Enabled(s, Read(i)) <==> |s.passwords| < 1_000_000)
    ensures s.main.Forwarding? && s.main.next < |s.workers| ==>
              (Enabled(s, Forward) <==> |s.workers[s.main.next].ch| < 1_000_000)
    ensures forall u, ok :: 0 <= u < |s.workers| && s.workers[u].place.Testing? ==>
              (Enabled(s, Test(u, ok)) <==> |s.reports| < 1_000_000)
  {
  }

  /** From two goroutines per user on, a worker with a line and room in its batch runs one more test at once with those
      already under way. */
  lemma BatchGrows(s: State, u: nat)
    requires Inv(s) && u < |s.workers| && s.perUser >= 2 && s.workers[u].place.Looping?
    requires s.workers[u].ch != [] && s.workers[u].ch[0] != EXIT_SIGNAL && s.workers[u].ctr < s.perUser
    ensures Enabled(s, Take(u)) && Enabled(Apply(s, Take(u)), Spawn(u))
    ensures var t := Apply(Apply(s, Take(u)), Spawn(u));
            && t.workers[u].inFlight == s.workers[u].inFlight + [s.workers[u].ch[0]]
            && t.workers[u].place.Looping? && t.workers[u].ctr == s.workers[u].ctr + 1
  {
  }

  // ----- The outcomes -----

  /** The end of an authentication reports what the database answers. */
  predicate Answers(auth: (nat, string) -> bool, s: State, step: Step)
    requires Enabled(s, step)
  {
    match step
    case Finish(u, k, succeeded) => succeeded == auth(u, s.workers[u].inFlight[k])
    case Test(u, succeeded) => succeeded == auth(u, s.workers[u].place.password)
    case _ => true
  }

  /** A run whose authentications are answered in this way. */
  ghost predicate IsAnswered(auth: (nat, string) -> bool, run: seq<State>, steps: seq<Step>) {
    && |run| == |steps| + 1 && run[0] == Init(run[0].perUser, run[0].files, |run[0].workers|)
    && forall i :: 0 <= i < |steps| ==>
         Enabled(run[i], steps[i]) && Answers(auth, run[i], steps[i]) && run[i + 1] == Apply(run[i], steps[i])
  }

  /** Every report says what the database answers for its user and password. */
  ghost predicate Truthful(auth: (nat, string) -> bool, rs: seq<Report>) {
    forall i :: 0 <= i < |rs| && rs[i].Tested? ==> (rs[i].succeeded <==> auth(rs[i].user, rs[i].password))
  }

  lemma StepTruthful(auth: (nat, string) -> bool, s: State, step: Step)
    requires Enabled(s, step) && Answers(auth, s, step) && Truthful(auth, Emitted(s))
    ensures Truthful(auth, Emitted(Apply(s, step)))
  {
    var t := Apply(s, step);
    if step.Track? {
      assert s.tracked + [s.reports[0]] + s.reports[1..] == s.tracked + s.reports;
    } else if |t.reports| > |s.reports| {
      assert Emitted(t) == Emitted(s) + [t.reports[|s.reports|]];
    }
  }

  lemma {:induction false} RunTruthful(auth: (nat, string) -> bool, run: seq<State>, steps: seq<Step>, i: nat)
    requires IsAnswered(auth, run, steps) && i < |run|
    ensures Truthful(auth, Emitted(run[i])) && IsRun(run)
    decreases i
  {
    hide Apply, Enabled, Answers;
    forall j | 0 < j < |run| ensures Follows(run[j - 1], run[j]) {
      assert Enabled(run[j - 1], steps[j - 1]) && run[j - 1 + 1] == Apply(run[j - 1], steps[j - 1]);
    }
    if i == 0 {
      assert Emitted(run[0]) == [];
    } else {
      RunTruthful(auth, run, steps, i - 1);
      assert Enabled(run[i - 1], steps[i - 1]) && run[i - 1 + 1] == Apply(run[i - 1], steps[i - 1]);
      StepTruthful(auth, run[i - 1], steps[i - 1]);
    }
  }

  /** How many of the lines are passwords of user u. */
  function PasswordsOf(auth: (nat, string) -> bool, u: nat, lines: seq<string>): nat {
    if lines == [] then 0 else (if auth(u, lines[0]) then 1 else 0) + PasswordsOf(auth, u, lines[1..])
  }

  /** How many pairs of one of the first n users and a line there are that the database accepts. */
  function Pairs(auth: (nat, string) -> bool, n: nat, lines: seq<string>): nat {
    if n == 0 then 0 else Pairs(auth, n - 1, lines) + PasswordsOf(auth, n - 1, lines)
  }

  /** A combination is printed as often as its user was tested with the password, if the database accepts it. */
  lemma {:induction false} SuccessCount(auth: (nat, string) -> bool, rs: seq<Report>, u: nat, p: string)
    requires Truthful(auth, rs)
    ensures Count(Successes(rs), Tested(u, p, true)) == if auth(u, p) then Count(TestsOf(rs, u), p) else 0
    ensures Count(Successes(rs), Tested(u, p, false)) == 0
  {
    if rs != [] {
      var r, rest := rs[0], rs[1..];
      assert rs == [r] + rest;
      assert Truthful(auth, rest) by {
        assert forall i :: 0 <= i < |rest| ==> rest[i] == rs[i + 1];
      }
      SuccessCount(auth, rest, u, p);
      CountJoin(SuccessOf(r), Successes(rest), Tested(u, p, true));
      CountJoin(SuccessOf(r), Successes(rest), Tested(u, p, false));
      CountJoin(TestOf(r, u), TestsOf(rest, u), p);
    }
  }

  /** Taking out one occurrence of a line. */
  lemma TakeOut(auth: (nat, string) -> bool, u: nat, b: seq<string>, x: string) returns (less: seq<string>)
    requires x in b
    ensures forall p :: Count(b, p) == Count(less, p) + if x == p then 1 else 0
    ensures PasswordsOf(auth, u, b) == PasswordsOf(auth, u, less) + if auth(u, x) then 1 else 0
  {
    hide Count;
    var k :| 0 <= k < |b| && b[k] == x;
    var front, back := b[..k], b[k + 1..];
    less := front + back;
    assert b == front + [x] + back && front + [x] + back == front + ([x] + back) && ([x] + back)[1..] == back;
    forall p ensures Count(b, p) == Count(less, p) + if x == p then 1 else 0 {
      CountOneMore(front, x, back, p);
    }
    PasswordsJoin(auth, u, front, [x] + back);
    PasswordsJoin(auth, u, front, back);
  }

  lemma NothingCounted(b: seq<string>)
    ensures b != [] ==> exists p :: Count(b, p) > 0
  {
    if b != [] {
      assert Count(b, b[0]) > 0;
    }
  }

  /** Lists with the same lines hold the same number of passwords. */
  lemma {:induction false} PasswordsCount(auth: (nat, string) -> bool, u: nat, a: seq<string>, b: seq<string>)
    requires forall p :: Count(a, p) == Count(b, p)
    ensures PasswordsOf(auth, u, a) == PasswordsOf(auth, u, b)
    decreases |a|
  {
    if a == [] {
      NothingCounted(b);
    } else {
      CountMeaning(a, a[0]);
      CountMeaning(b, a[0]);
      var less := TakeOut(auth, u, b, a[0]);
      forall p ensures Count(a[1..], p) == Count(less, p) {
        assert Count(a, p) == Count(b, p);
      }
      PasswordsCount(auth, u, a[1..], less);
    }
  }

  lemma {:induction false} PasswordsJoin(auth: (nat, string) -> bool, u: nat, a: seq<string>, b: seq<string>)
    ensures PasswordsOf(auth, u, a + b) == PasswordsOf(auth, u, a) + PasswordsOf(auth, u, b)
  {
    if a == [] {
      assert a + b == b;
    } else {
      assert (a + b)[1..] == a[1..] + b;
      PasswordsJoin(auth, u, a[1..], b);
    }
  }

  /** The successes of the first n users together. */
  function SuccessesOfFirst(rs: seq<Report>, auth: (nat, string) -> bool, n: nat): nat {
    if n == 0 then 0 else SuccessesOfFirst(rs, auth, n - 1) + PasswordsOf(auth, n - 1, TestsOf(rs, n - 1))
  }

  lemma {:induction false} FirstSuccess(r: Report, rest: seq<Report>, auth: (nat, string) -> bool, n: nat)
    requires r.Tested? ==> (r.succeeded <==> auth(r.user, r.password))
    ensures SuccessesOfFirst([r] + rest, auth, n) ==
              SuccessesOfFirst(rest, auth, n) + if r.Tested? && r.succeeded && r.user < n then 1 else 0
  {
    if n > 0 {
      hide PasswordsOf, TestsOf;
      FirstSuccess(r, rest, auth, n - 1);
      OneTestMore(r, rest, auth, n - 1);
    }
  }

  lemma OneTestMore(r: Report, rest: seq<Report>, auth: (nat, string) -> bool, u: nat)
    ensures PasswordsOf(auth, u, TestsOf([r] + rest, u)) ==
              PasswordsOf(auth, u, TestsOf(rest, u)) + if r.Tested? && r.user == u && auth(u, r.password) then 1 else 0
  {
    assert ([r] + rest)[1..] == rest;
    PasswordsJoin(auth, u, TestOf(r, u), TestsOf(rest, u));
    if r.Tested? && r.user == u {
      assert TestOf(r, u)[1..] == [];
    }
  }

  lemma {:induction false} SuccessesByUser(auth: (nat, string) -> bool, rs: seq<Report>, n: nat)
    requires Truthful(auth, rs) && forall i :: 0 <= i < |rs| && rs[i].Tested? ==> rs[i].user < n
    ensures |Successes(rs)| == SuccessesOfFirst(rs, auth, n)
  {
    if rs == [] {
      NoSuccesses(auth, n);
    } else {
      var rest := rs[1..];
      assert forall i :: 0 <= i < |rest| ==> rest[i] == rs[i + 1];
      SuccessesByUser(auth, rest, n);
      FirstSuccess(rs[0], rest, auth, n);
      assert rs == [rs[0]] + rest;
    }
  }

  lemma {:induction false} NoSuccesses(auth: (nat, string) -> bool, n: nat)
    ensures SuccessesOfFirst([], auth, n) == 0
  {
    if n > 0 {
      NoSuccesses(auth, n - 1);
    }
  }

  lemma {:induction false} SuccessPairs(auth: (nat, string) -> bool, rs: seq<Report>, n: nat, lines: seq<string>)
    requires forall u, p :: 0 <= u < n ==> Count(TestsOf(rs, u), p) == Count(lines, p)
    ensures SuccessesOfFirst(rs, auth, n) == Pairs(auth, n, lines)
  {
    if n > 0 {
      SuccessPairs(auth, rs, n - 1, lines);
      PasswordsCount(auth, n - 1, TestsOf(rs, n - 1), lines);
    }
  }

  /** What is printed when no line equals the exit signal: success is the number of pairs of a user and a line that the
      database accepts, failure the number of the other pairs, and the combinations are exactly the accepted pairs,
      each as often as the files hold the line. */
  lemma PrintedOutcomes(auth: (nat, string) -> bool, run: seq<State>, steps: seq<Step>, i: nat, total: nat, success: nat,
                        failure: nat, combinations: seq<Report>, next: nat)
    requires IsAnswered(auth, run, steps) && i < |run| && run[i].main.Returned?
    requires TrackerResult(run[i].tracked, total, success, failure, combinations, next)
    requires "__AllFilesProcessed__" !in Lines(run[0].files)
    ensures var lines, users := Lines(run[0].files), |run[0].workers|;
            && success == Pairs(auth, users, lines) && failure == users * |lines| - Pairs(auth, users, lines)
            && (forall r :: r in combinations ==> r.Tested? && r.succeeded && r.user < users)
            && forall u, p :: 0 <= u < users ==>
                 Count(combinations, Tested(u, p, true)) == if auth(u, p) then Count(lines, p) else 0
  {
    hide IsRun, Totals, Lines, Count, Successes, TestsOf, Truthful, Pairs, SuccessesOfFirst, Inv;
    var s, lines, users := run[i], Lines(run[0].files), |run[0].workers|;
    RunTruthful(auth, run, steps, i);
    RunKeepsInv(run, i);
    FinalReport(run, i);
    PrintedReport(run, i, total, success, failure, combinations, next);
    ReportUsers(s);
    SuccessesByUser(auth, s.tracked, users);
    SuccessPairs(auth, s.tracked, users, lines);
    forall u, p | 0 <= u < users
      ensures Count(combinations, Tested(u, p, true)) == if auth(u, p) then Count(lines, p) else 0
    {
      SuccessCount(auth, s.tracked, u, p);
    }
    forall r | r in combinations ensures r.Tested? && r.succeeded && r.user < users {
      SuccessesAre(s.tracked, r);
      var k :| 0 <= k < |s.tracked| && s.tracked[k] == r;
    }
  }

  lemma ReportUsers(s: State)
    requires Inv(s) && s.main.Returned?
    ensures Emitted(s) == s.tracked
    ensures forall k :: 0 <= k < |s.tracked| && s.tracked[k].Tested? ==> s.tracked[k].user < |s.workers|
  {
    AllTracked(s);
  }

  lemma {:induction false} SuccessesAre(rs: seq<Report>, r: Report)
    requires r in Successes(rs)
    ensures r in rs && r.Tested? && r.succeeded
  {
    assert rs == [rs[0]] + rs[1..];
    if r !in SuccessOf(rs[0]) {
      SuccessesAre(rs[1..], r);
    }
  }

  lemma Products(n: nat, a: nat, b: nat)
    requires a <= b
    ensures n * a <= n * b
    ensures n * a == n * b <==> n == 0 || a == b
  {
    assert n * (b - a) == n * b - n * a;
    if n > 0 && a < b {
      assert n * (b - a) > 0;
    }
  }

  /** In every state of every run, a user has at most GoroutinesPerUser authentications under way, and at most
      one when that is below two. */
  lemma InFlightBound(run: seq<State>, i: nat, u: nat)
    requires IsRun(run) && i < |run| && u < |run[i].workers|
    ensures var s, w := run[i], run[i].workers[u];
            |w.inFlight| + (if w.place.Testing? then 1 else 0) <= if s.perUser > 1 then s.perUser else 1
  {
    RunKeepsInv(run, i);
    assert WorkerOk(run[i].workers[u], run[i].perUser, SentTo(run[i], u), TestsOf(Emitted(run[i]), u));
  }

  // ----- Every run ends -----

  lemma ReporterMoves(s: State, step: Step) returns (next: Step)
    requires Inv(s) && (step.Finish? || step.Test?)
    requires Enabled(s.(reports := []), step) && !s.workers[step.user].place.Finished?
    ensures Enabled(s, next)
  {
    if |s.reports| < CAPACITY {
      next := step;
    } else {
      next := Track;
      NotYetTracked(s);
    }
  }

  lemma NotYetTracked(s: State)
    requires ReportsOk(s) && !(forall u :: 0 <= u < |s.workers| ==> s.workers[u].place.Finished?)
    ensures NoReportPending !in s.tracked
  {
    if NoReportPending in s.tracked {
      TrackedEmitted(s);
    }
  }

  lemma TrackedEmitted(s: State)
    requires NoReportPending in s.tracked
    ensures exists i :: 0 <= i < |Emitted(s)| && Emitted(s)[i].NoReportPending?
  {
    var i :| 0 <= i < |s.tracked| && s.tracked[i] == NoReportPending;
    assert Emitted(s)[i].NoReportPending?;
  }

  lemma WorkerMoves(s: State, u: nat) returns (step: Step)
    requires Inv(s) && u < |s.workers| && !s.workers[u].place.Finished?
    requires s.workers[u].place.Looping? ==> s.workers[u].ch != []
    ensures Enabled(s, step)
  {
    var w := s.workers[u];
    assert WorkerOk(w, s.perUser, SentTo(s, u), TestsOf(Emitted(s), u));
    match w.place
    case Looping => step := Take(u);
    case Testing(_) => step := ReporterMoves(s, Test(u, true));
    case Holding(_) =>
      if w.ctr < s.perUser || w.inFlight == [] {
        step := Spawn(u);
      } else {
        step := ReporterMoves(s, Finish(u, 0, true));
      }
    case Leaving =>
      if w.ctr == 0 || w.inFlight == [] {
        step := Leave(u);
      } else {
        step := ReporterMoves(s, Finish(u, 0, true));
      }
  }

  /** No reachable state short of the return is stuck. */
  lemma Progress(s: State) returns (step: Step)
    requires Inv(s) && !s.main.Returned?
    ensures Enabled(s, step)
  {
    match s.main
    case Receiving => step := ReceiverMoves(s);
    case Forwarding(p, next) => step := ForwarderMoves(s);
    case WaitingForUsers => step := UsersFinish(s);
    case WaitingForTracker =>
      if NoReportPending in s.tracked {
        step := Return;
      } else {
        step := Track;
        var i :| 0 <= i < |Emitted(s)| && Emitted(s)[i].NoReportPending?;
        assert Emitted(s)[i] in s.tracked || Emitted(s)[i] in s.reports;
      }
  }

  lemma ReceiverMoves(s: State) returns (step: Step)
    requires Inv(s) && s.main.Receiving?
    ensures Enabled(s, step)
  {
    if s.passwords != [] {
      step := Receive;
    } else if i: nat :| i < |s.unread| && s.unread[i] != [] {
      step := Read(i);
    } else {
      step := SendExit;
      assert Sent(s) == s.received;
    }
  }

  lemma ForwarderMoves(s: State) returns (step: Step)
    requires Inv(s) && s.main.Forwarding?
    ensures Enabled(s, step)
  {
    var u := s.main.next;
    if u == |s.workers| {
      step := Forwarded;
    } else if |s.workers[u].ch| < CAPACITY {
      step := Forward;
    } else {
      var w := s.workers[u];
      assert WorkerOk(w, s.perUser, SentTo(s, u), TestsOf(Emitted(s), u));
      assert forall p :: p in w.taken ==> p in w.taken + w.ch;
      step := WorkerMoves(s, u);
    }
  }

  lemma UsersFinish(s: State) returns (step: Step)
    requires Inv(s) && s.main.WaitingForUsers?
    ensures Enabled(s, step)
  {
    if u: nat :| u < |s.workers| && !s.workers[u].place.Finished? {
      var w := s.workers[u];
      assert WorkerOk(w, s.perUser, SentTo(s, u), TestsOf(Emitted(s), u));
      assert Last(s.received) in w.taken + w.ch;
      step := WorkerMoves(s, u);
    } else if |s.reports| < CAPACITY {
      step := SendFinal;
    } else {
      step := Track;
      if NoReportPending in s.tracked {
        TrackedEmitted(s);
      }
    }
  }

  function Weight(w: Worker): nat {
    4 * |w.ch| + 2 * |w.inFlight|
      + match w.place { case Looping => 1 case Holding(_) => 4 case Testing(_) => 4 case Leaving => 1 case Finished => 0 }
  }

  function Weights(ws: seq<Worker>): nat {
    if ws == [] then 0 else Weight(ws[0]) + Weights(ws[1..])
  }

  lemma {:induction false} WeightsUpdate(ws: seq<Worker>, u: nat, w: Worker)
    requires u < |ws|
    ensures Weights(ws[u := w]) == Weights(ws) - Weight(ws[u]) + Weight(w)
  {
    hide Weight;
    var changed := ws[u := w];
    if u == 0 {
      assert changed[1..] == ws[1..];
    } else {
      WeightsUpdate(ws[1..], u - 1, w);
      assert changed[1..] == ws[1..][u - 1 := w];
    }
  }

  /** What is left to do for one line once it is received. */
  function LineWork(s: State): nat {
    5 * |s.workers| + 2
  }

  function MainWeight(s: State): int {
    match s.main
    case Receiving => 3
    case Forwarding(_, next) => 4 + 5 * (|s.workers| - next)
    case WaitingForUsers => 3
    case WaitingForTracker => 1
    case Returned => 0
  }

  /** Work left, in channel operations at most. */
  function Work(s: State): int {
    (LineWork(s) + 1) * (|Lines(s.unread)| + if s.exitSent then 0 else 1) + LineWork(s) * |s.passwords|
      + MainWeight(s) + Weights(s.workers) + |s.reports|
  }

  lemma WorkPositive(s: State)
    requires MainOk(s)
    ensures Work(s) >= 0
  {
  }

  /** Every step does some of the work. */
  lemma StepWorks(s: State, step: Step)
    requires MainOk(s) && Enabled(s, step)
    ensures Work(Apply(s, step)) < Work(s)
  {
    var t, k, m := Apply(s, step), LineWork(s), |s.passwords|;
    match step
    case Read(i) =>
      var a, b := LinesLess(s.unread, i);
      hide Weights, Lines;
      OneLineOn(k, |a + b| + (if s.exitSent then 0 else 1), m);
    case SendExit =>
      hide Weights, Lines;
      OneLineOn(k, |Lines(s.unread)|, m);
    case Receive =>
      hide Weights, Lines;
      OneLineOn(k, 0, m - 1);
    case Forward =>
      hide Lines, Weights;
      WeightsUpdate(s.workers, s.main.next, t.workers[s.main.next]);
    case Take(u) => WorkerWorks(s, step);
    case Spawn(u) => WorkerWorks(s, step);
    case Finish(u, _, _) => WorkerWorks(s, step);
    case Test(u, _) => WorkerWorks(s, step);
    case Leave(u) => WorkerWorks(s, step);
    case _ =>
  }

  lemma OneLineOn(k: nat, n: nat, m: nat)
    ensures (k + 1) * (n + 1) == (k + 1) * n + k + 1
    ensures k * (m + 1) == k * m + k
  {
  }

  lemma WorkerWorks(s: State, step: Step)
    requires Enabled(s, step) && WorkerEnabled(s, step)
    ensures Work(Apply(s, step)) < Work(s)
  {
    hide Lines, Weights;
    WeightsUpdate(s.workers, step.user, WorkerAfter(s, step));
  }

  lemma {:induction false} RunWorks(run: seq<State>, i: nat)
    requires IsRun(run) && i < |run|
    ensures i <= Work(run[0]) - Work(run[i])
  {
    hide Work, Inv, Enabled, Apply;
    if i > 0 {
      RunWorks(run, i - 1);
      RunKeepsInv(run, i - 1);
      assert Follows(run[i - 1], run[i]);
      var step :| Enabled(run[i - 1], step) && run[i] == Apply(run[i - 1], step);
      MainOfInv(run[i - 1]);
      StepWorks(run[i - 1], step);
    }
  }

  lemma MainOfInv(s: State)
    requires Inv(s)
    ensures MainOk(s)
  {
  }

  ghost predicate Stuck(s: State) {
    forall step :: !Enabled(s, step)
  }

  /** No run deadlocks and none goes on for ever: a run has at most as many steps as the work it starts with, and when
      no step is left the scan has returned. That holds for every set of files, even with a line equal to
      the exit signal. */
  lemma EveryRunEnds(run: seq<State>)
    requires IsRun(run)
    ensures |run| - 1 <= Work(run[0])
    ensures Stuck(run[|run| - 1]) ==> run[|run| - 1].main.Returned?
  {
    var last := |run| - 1;
    RunKeepsInv(run, last);
    RunWorks(run, last);
    WorkPositive(run[last]);
    if !run[last].main.Returned? {
      var step := Progress(run[last]);
    }
  }
}
