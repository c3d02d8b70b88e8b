/** From commands to checks: getProcessorsForCron and scheduleRunner of cmd/ciscollector/crons.go, with NewLogParser of
    pkg/config/config.go, and what splitting the command all over several schedules means for the checks
    that run. */
module ScheduledChecks {
  import opened Common
  import opened CollectorSchedules
  import Text

  datatype Check =
    | Cis | Hba | Ssl | Guc
    | CommonUsers(everyUser: bool)
    | PiiScan
    | LogParse(command: string)
    | Rds | Aurora
    | MySql(server: string)

  /** A runner: a log parser runner does all its commands. target is None where no PostgreSQL target is involved. */
  datatype Runner = Runner(checks: seq<Check>, target: Option<Postgres>)

  datatype Error =
    | TargetsMissing
    | ScheduleUnparsed
    | BadLogParser
    | BadPiiConfig
    | InvalidCommand
    | ShieldMissing
    | NilLogParser     // the dereference that panics

  /** What the environment answers: whether a schedule parses where the time of its last run is computed, and whether the
      scheduler accepts it (these are two libraries); whether the PII scanner's configuration is built, which does
      not depend on the target; whether a file pattern is valid and matches some file; and whether there is a
      shield configuration. */
  datatype Env = Env(parses: string -> bool, registers: string -> bool, piiConfigOk: bool, filesMatch: string -> bool,
                     shield: bool)

  const COMMON_USERS := "common_users"
  const AWS_RDS := "aws_rds"
  const AWS_AURORA := "aws_aurora"
  const MYSQL := "mysql"

  /** The sorted expansion of the log parser command all. */
  const SORTED_LOG_COMMANDS := [INACTIVE_USERS, PASSWORD_LEAK, UNIQUE_IP, UNUSED_LINES]

  const CORE: seq<Check> := [Cis, Hba, Ssl, CommonUsers(true)]

  function NewLogParser(name: string, input: LogParserInput, env: Env): Result<seq<string>, Error> {
    if name != ALL && name !in SORTED_LOG_COMMANDS then Err(BadLogParser)
    else if Blank(input.prefix) || !env.filesMatch(Text.TrimSpace(input.logFile)) then Err(BadLogParser)
    else Ok(if name == ALL then SORTED_LOG_COMMANDS else [name])
  }

  function LogChecks(commands: seq<string>): seq<Check> {
    seq(|commands|, i requires 0 <= i < |commands| => LogParse(commands[i]))
  }

  // ----- Runners -----

  /** One runner per target and check, target by target. */
  function PerTarget(targets: seq<Postgres>, checks: seq<Check>): seq<Runner> {
    if targets == [] then [] else ForTarget(targets[0], checks) + PerTarget(targets[1..], checks)
  }

  function ForTarget(target: Postgres, checks: seq<Check>): seq<Runner> {
    seq(|checks|, i requires 0 <= i < |checks| => Runner([checks[i]], Some(target)))
  }

  function PiiRunners(targets: seq<Postgres>, env: Env): Result<seq<Runner>, Error> {
    if targets == [] then Ok([])
    else if !env.piiConfigOk then Err(BadPiiConfig)
    else
      match PiiRunners(targets[1..], env)
      case Err(e) => Err(e)
      case Ok(rest) => Ok([Runner([PiiScan], Some(targets[0]))] + rest)
  }

  function LogRunnersFor(cmd: Command, targets: seq<Postgres>, env: Env): Result<seq<Runner>, Error> {
    if targets == [] then Ok([])
    else if cmd.logParser.None? then Err(NilLogParser)
    else
      match NewLogParser(cmd.name, cmd.logParser.value, env)
      case Err(e) => Err(e)
      case Ok(commands) =>
        match LogRunnersFor(cmd, targets[1..], env)
        case Err(e) => Err(e)
        case Ok(rest) => Ok([Runner(LogChecks(commands), Some(targets[0]))] + rest)
  }

  /** getLogParserCron */
  function LogRunners(schedule: string, cmd: Command, env: Env): Result<seq<Runner>, Error> {
    if cmd.postgres == [] then Err(TargetsMissing)
    else if !env.parses(schedule) then Err(ScheduleUnparsed)
    else LogRunnersFor(cmd, cmd.postgres, env)
  }

  /** The checks per target of the commands that only need targets. */
  function SimpleChecks(name: string): seq<Check> {
    if name == ALL_CORE then CORE
    else if name == POSTGRES_CIS then [Cis]
    else if name == HBA_SCANNER then [Hba]
    else if name == SSL_CHECK then [Ssl]
    else if name == COMMON_USERS then [CommonUsers(false)]
    else if name == GUC_DRIFT then [Guc]
    else []
  }

  function Processors(schedule: string, cmd: Command, env: Env): Result<seq<Runner>, Error> {
    if cmd.name == AWS_RDS then Ok([Runner([Rds], None)])
    else if cmd.name == AWS_AURORA then Ok([Runner([Aurora], None)])
    else if cmd.name == MYSQL then Ok(seq(|cmd.mysql|, i requires 0 <= i < |cmd.mysql| => Runner([MySql(cmd.mysql[i])], None)))
    else if cmd.name in LOG_TOKENS then LogRunners(schedule, cmd, env)
    else if cmd.name == PII_SCANNER then
      if !env.shield then Err(ShieldMissing)
      else if cmd.postgres == [] then Err(TargetsMissing)
      else PiiRunners(cmd.postgres, env)
    else if cmd.name == ALL then
      if cmd.postgres == [] then Err(TargetsMissing)
      else
        match LogRunners(schedule, cmd, env)
        case Err(e) => Err(e)
        case Ok(logs) =>
          if !env.shield then Ok(PerTarget(cmd.postgres, CORE) + logs)
          else
            match PiiRunners(cmd.postgres, env)
            case Err(e) => Err(e)
            case Ok(pii) => Ok(PerTarget(cmd.postgres, CORE) + logs + pii)
    else if SimpleChecks(cmd.name) != [] then
      if cmd.postgres == [] then Err(TargetsMissing) else Ok(PerTarget(cmd.postgres, SimpleChecks(cmd.name)))
    else Err(InvalidCommand)
  }

  method MakePerTarget(targets: seq<Postgres>, checks: seq<Check>) returns (out: seq<Runner>)
    ensures out == PerTarget(targets, checks)
  {
    out := [];
    ghost var whole := PerTarget(targets, checks);
    assert targets[0..] == targets && [] + whole == whole;
    for k := 0 to |targets|
      invariant whole == out + PerTarget(targets[k..], checks)
    {
      assert targets[k..][0] == targets[k] && targets[k..][1..] == targets[k + 1..];
      Regroup(out, ForTarget(targets[k], checks), PerTarget(targets[k + 1..], checks));
      ghost var before := out;
      for j := 0 to |checks|
        invariant out == before + ForTarget(targets[k], checks)[..j]
      {
        assert ForTarget(targets[k], checks)[..j + 1]
            == ForTarget(targets[k], checks)[..j] + [Runner([checks[j]], Some(targets[k]))];
        out := out + [Runner([checks[j]], Some(targets[k]))];
      }
      assert ForTarget(targets[k], checks)[..|checks|] == ForTarget(targets[k], checks);
    }
    assert targets[|targets|..] == [] && out + [] == out;
  }

  method MakePii(targets: seq<Postgres>, env: Env) returns (r: Result<seq<Runner>, Error>)
    ensures r == PiiRunners(targets, env)
  {
    var out: seq<Runner> := [];
    ghost var whole := PiiRunners(targets, env);
    assert targets[0..] == targets;
    BeforeStep(out, Runner([], None), whole);
    for k := 0 to |targets|
      invariant whole == Before(out, PiiRunners(targets[k..], env))
    {
      assert targets[k..][0] == targets[k] && targets[k..][1..] == targets[k + 1..];
      if !env.piiConfigOk {
        return Err(BadPiiConfig);
      }
      BeforeStep(out, Runner([PiiScan], Some(targets[k])), PiiRunners(targets[k + 1..], env));
      out := out + [Runner([PiiScan], Some(targets[k]))];
    }
    assert targets[|targets|..] == [];
    BeforeStep(out, Runner([], None), whole);
    r := Ok(out);
  }

  method GetLogParserCron(schedule: string, cmd: Command, env: Env) returns (r: Result<seq<Runner>, Error>)
    ensures r == LogRunners(schedule, cmd, env)
  {
    hide NewLogParser;
    if |cmd.postgres| == 0 {
      return Err(TargetsMissing);
    }
    if !env.parses(schedule) {
      return Err(ScheduleUnparsed);
    }
    var out: seq<Runner> := [];
    var targets := cmd.postgres;
    ghost var whole := LogRunnersFor(cmd, targets, env);
    assert targets[0..] == targets;
    BeforeStep(out, Runner([], None), whole);
    for k := 0 to |targets|
      invariant whole == Before(out, LogRunnersFor(cmd, targets[k..], env))
    {
      assert targets[k..][0] == targets[k] && targets[k..][1..] == targets[k + 1..];
      if cmd.logParser.None? {
        return Err(NilLogParser);
      }
      var commands := NewLogParser(cmd.name, cmd.logParser.value, env);
      if commands.Err? {
        return Err(commands.error);
      }
      BeforeStep(out, Runner(LogChecks(commands.value), Some(targets[k])), LogRunnersFor(cmd, targets[k + 1..], env));
      out := out + [Runner(LogChecks(commands.value), Some(targets[k]))];
    }
    assert targets[|targets|..] == [];
    BeforeStep(out, Runner([], None), whole);
    r := Ok(out);
  }

  method GetProcessorsForCron(schedule: string, cmd: Command, env: Env) returns (r: Result<seq<Runner>, Error>)
    ensures r == Processors(schedule, cmd, env)
  {
    hide LogRunners, PiiRunners, PerTarget;
    if cmd.name == ALL {
      if |cmd.postgres| == 0 {
        return Err(TargetsMissing);
      }
      var out := MakePerTarget(cmd.postgres, CORE);
      var logs := GetLogParserCron(schedule, cmd, env);
      if logs.Err? {
        return Err(logs.error);
      }
      out := out + logs.value;
      if env.shield {
        var pii := MakePii(cmd.postgres, env);
        if pii.Err? {
          return Err(pii.error);
        }
        out := out + pii.value;
      }
      return Ok(out);
    }
    if cmd.name == PII_SCANNER {
      if !env.shield {
        return Err(ShieldMissing);
      }
      if |cmd.postgres| == 0 {
        return Err(TargetsMissing);
      }
      r := MakePii(cmd.postgres, env);
      return;
    }
    if cmd.name in LOG_TOKENS {
      r := GetLogParserCron(schedule, cmd, env);
      return;
    }
    if SimpleChecks(cmd.name) != [] {
      if |cmd.postgres| == 0 {
        return Err(TargetsMissing);
      }
      var out := MakePerTarget(cmd.postgres, SimpleChecks(cmd.name));
      return Ok(out);
    }
    if cmd.name == AWS_RDS {
      return Ok([Runner([Rds], None)]);
    }
    if cmd.name == AWS_AURORA {
      return Ok([Runner([Aurora], None)]);
    }
    if cmd.name == MYSQL {
      return Ok(seq(|cmd.mysql|, i requires 0 <= i < |cmd.mysql| => Runner([MySql(cmd.mysql[i])], None)));
    }
    r := Err(InvalidCommand);
  }

  // ----- What runs for a target -----

  /** The checks of some runners. */
  function ChecksOf(rs: seq<Runner>): set<Check> {
    set r, k | r in rs && k in r.checks :: k
  }

  /** scheduleRunner gives every target a command of its own, and an error costs only that target and command. */
  function ChecksBy(schedule: string, cmd: Command, p: Postgres, env: Env): set<Check> {
    if p !in cmd.postgres then {}
    else
      match Processors(schedule, cmd.(postgres := [p]), env)
      case Err(_) => {}
      case Ok(rs) => ChecksOf(rs)
  }

  /** The command reaches for a log parser section that is not there, at its first target. */
  predicate Panics(schedule: string, cmd: Command, env: Env) {
    cmd.postgres != [] && Processors(schedule, cmd.(postgres := [cmd.postgres[0]]), env) == Err(NilLogParser)
  }

  /** One tick of a schedule. A panic ends the tick: later commands do not run. */
  function ChecksAt(schedule: string, cmds: seq<Command>, p: Postgres, env: Env): set<Check> {
    if cmds == [] || Panics(schedule, cmds[0], env) then {}
    else ChecksBy(schedule, cmds[0], p, env) + ChecksAt(schedule, cmds[1..], p, env)
  }

  /** The runners that a command starts, target by target. */
  function CommandRunners(schedule: string, cmd: Command, targets: seq<Postgres>, env: Env): seq<Runner> {
    if targets == [] then []
    else TargetRunners(schedule, cmd, targets[0], env) + CommandRunners(schedule, cmd, targets[1..], env)
  }

  function TargetRunners(schedule: string, cmd: Command, p: Postgres, env: Env): seq<Runner> {
    match Processors(schedule, cmd.(postgres := [p]), env)
    case Err(_) => []
    case Ok(rs) => rs
  }

  /** The runners of one tick, in the order in which they start. */
  function TickRunners(schedule: string, cmds: seq<Command>, env: Env): seq<Runner> {
    if cmds == [] || Panics(schedule, cmds[0], env) then []
    else CommandRunners(schedule, cmds[0], cmds[0].postgres, env) + TickRunners(schedule, cmds[1..], env)
  }

  /** A tick reaches for a section that is not there at a log parser command, or the command all, that has targets but no
      section, where the schedule parses. */
  lemma PanicMeaning(s: string, cmd: Command, env: Env)
    ensures Panics(s, cmd, env) <==>
              && cmd.postgres != [] && cmd.logParser.None? && env.parses(s)
              && (cmd.name == "all" || IsLogName(cmd.name))
  {
    LogNamesExact(cmd.name);
    if cmd.postgres != [] {
      var one := cmd.(postgres := [cmd.postgres[0]]);
      if cmd.logParser.None? {
        NoSection(s, cmd, cmd.postgres[0], env);
      }
      if cmd.logParser.Some? {
        SectionNoPanic(s, cmd, env);
      }
      NoPiiNil(one.postgres, env);
      hide LogRunners, PiiRunners;
    }
  }

  /** A tick runs a check when one of its commands does and no command up to that one panics. */
  lemma {:induction false} TickMeaning(s: string, cmds: seq<Command>, p: Postgres, env: Env, k: Check)
    ensures k in ChecksAt(s, cmds, p, env) <==>
              exists i :: && 0 <= i < |cmds| && k in ChecksBy(s, cmds[i], p, env)
                          && forall j :: 0 <= j <= i ==> !Panics(s, cmds[j], env)
  {
    hide ChecksBy, Panics;
    if cmds != [] && !Panics(s, cmds[0], env) {
      var rest := cmds[1..];
      TickMeaning(s, rest, p, env, k);
      if k in ChecksBy(s, cmds[0], p, env) {
        assert forall j :: 0 <= j <= 0 ==> !Panics(s, cmds[j], env);
      }
      if k in ChecksAt(s, rest, p, env) {
        var i :| 0 <= i < |rest| && k in ChecksBy(s, rest[i], p, env) && forall j :: 0 <= j <= i ==> !Panics(s, rest[j], env);
        assert cmds[i + 1] == rest[i];
        forall j | 0 <= j <= i + 1 ensures !Panics(s, cmds[j], env) {
          assert j > 0 ==> cmds[j] == rest[j - 1];
        }
      }
      if i :| && 0 < i < |cmds| && k in ChecksBy(s, cmds[i], p, env)
              && forall j :: 0 <= j <= i ==> !Panics(s, cmds[j], env) {
        assert cmds[i] == rest[i - 1];
        forall j | 0 <= j <= i - 1 ensures !Panics(s, rest[j], env) {
          assert rest[j] == cmds[j + 1];
        }
      }
    }
  }

  /** They run the checks of the targets, and no others. */
  lemma {:induction false} TickChecks(s: string, cmds: seq<Command>, env: Env, k: Check)
    ensures k in ChecksOf(TickRunners(s, cmds, env)) <==> exists p :: k in ChecksAt(s, cmds, p, env)
  {
    hide Processors, Panics, ChecksOf, ChecksBy;
    if cmds == [] || Panics(s, cmds[0], env) {
      NoChecks();
    } else {
      TickChecks(s, cmds[1..], env, k);
      ChecksByRunners(s, cmds[0], env, k);
      ChecksOfJoin(CommandRunners(s, cmds[0], cmds[0].postgres, env), TickRunners(s, cmds[1..], env));
      if k in ChecksOf(CommandRunners(s, cmds[0], cmds[0].postgres, env)) {
        var p :| k in ChecksBy(s, cmds[0], p, env);
        assert k in ChecksAt(s, cmds, p, env);
      } else if k in ChecksOf(TickRunners(s, cmds[1..], env)) {
        var p :| k in ChecksAt(s, cmds[1..], p, env);
        assert k in ChecksAt(s, cmds, p, env);
      } else {
        forall p ensures k !in ChecksAt(s, cmds, p, env) {
          assert k !in ChecksBy(s, cmds[0], p, env) && k !in ChecksAt(s, cmds[1..], p, env);
        }
      }
    }
  }

  lemma NoChecks()
    ensures ChecksOf([]) == {}
  {
  }

  lemma {:induction false} CommandChecks(s: string, cmd: Command, targets: seq<Postgres>, env: Env, k: Check)
    ensures k in ChecksOf(CommandRunners(s, cmd, targets, env)) <==>
              exists p :: p in targets && k in ChecksOf(TargetRunners(s, cmd, p, env))
  {
    hide Processors, ChecksOf, TargetRunners;
    NoChecks();
    if targets != [] {
      CommandChecks(s, cmd, targets[1..], env, k);
      ChecksOfJoin(TargetRunners(s, cmd, targets[0], env), CommandRunners(s, cmd, targets[1..], env));
      assert targets == [targets[0]] + targets[1..];
    }
  }

  lemma ChecksByRunners(s: string, cmd: Command, env: Env, k: Check)
    ensures k in ChecksOf(CommandRunners(s, cmd, cmd.postgres, env)) <==> exists p :: k in ChecksBy(s, cmd, p, env)
  {
    hide Processors, ChecksOf;
    NoChecks();
    CommandChecks(s, cmd, cmd.postgres, env, k);
    forall p ensures k in ChecksBy(s, cmd, p, env) <==> p in cmd.postgres && k in ChecksOf(TargetRunners(s, cmd, p, env)) {
    }
  }

  /** The checks for a target over all schedules of a map. */
  function ChecksOver(out: map<string, seq<Command>>, p: Postgres, env: Env): set<Check> {
    set s, k | s in out && k in ChecksAt(s, out[s], p, env) :: k
  }

  /** SetupCron fails as a whole when the scheduler refuses a schedule of the map. */
  predicate Registered(out: map<string, seq<Command>>, env: Env) {
    forall s :: s in out ==> env.registers(s)
  }

  function RunsOver(out: map<string, seq<Command>>, p: Postgres, env: Env): set<Check> {
    if Registered(out, env) then ChecksOver(out, p, env) else {}
  }

  predicate SetUp(list: seq<Assignment>, env: Env) {
    forall a :: a in list && a.commands != [] ==> env.registers(a.schedule)
  }

  /** The checks of a map are set up exactly when those of its assignments are. */
  lemma RegisteredExact(out: map<string, seq<Command>>, list: seq<Assignment>, env: Env)
    requires Maps(out, list)
    ensures Registered(out, env) <==> SetUp(list, env)
  {
    hide Gather;
    forall s | s in out ensures exists a :: a in list && a.commands != [] && a.schedule == s {
      var a := GatherStems(list, s);
    }
    forall a | a in list && a.commands != [] ensures a.schedule in out {
      GatherHolds(list, a);
    }
  }

  lemma {:induction false} GatherHolds(list: seq<Assignment>, a: Assignment)
    requires a in list && a.commands != []
    ensures Gather(list, a.schedule) != []
  {
    if list[0] != a {
      GatherHolds(list[1..], a);
    }
  }

  /** The checks of what is gathered at each schedule of the list. */
  function RunsOf(list: seq<Assignment>, p: Postgres, env: Env): set<Check> {
    set a, k | a in list && k in ChecksAt(a.schedule, Gather(list, a.schedule), p, env) :: k
  }

  /** The checks of each assignment by itself. */
  function ChecksIn(list: seq<Assignment>, p: Postgres, env: Env): set<Check> {
    if list == [] then {} else ChecksAt(list[0].schedule, list[0].commands, p, env) + ChecksIn(list[1..], p, env)
  }

  predicate SomePanic(schedule: string, cmds: seq<Command>, env: Env) {
    exists cmd :: cmd in cmds && Panics(schedule, cmd, env)
  }

  lemma {:induction false} ChecksAtJoin(s: string, a: seq<Command>, b: seq<Command>, p: Postgres, env: Env)
    ensures ChecksAt(s, a + b, p, env)
         == ChecksAt(s, a, p, env) + if SomePanic(s, a, env) then {} else ChecksAt(s, b, p, env)
  {
    hide ChecksBy, Panics;
    if a == [] {
      assert a + b == b;
    } else {
      ChecksAtJoin(s, a[1..], b, p, env);
      assert (a + b)[0] == a[0] && (a + b)[1..] == a[1..] + b;
      assert a == [a[0]] + a[1..];
    }
  }

  /** The command has the log parser section it needs. */
  predicate HasSection(cmd: Command) {
    cmd.logParser.Some? || cmd.name !in LOG_TOKENS + [ALL]
  }

  lemma SectionNoPanic(s: string, cmd: Command, env: Env)
    requires HasSection(cmd)
    ensures !Panics(s, cmd, env)
  {
    if cmd.postgres != [] {
      var one := cmd.(postgres := [cmd.postgres[0]]);
      if cmd.logParser.Some? {
        NeverNil(one, one.postgres, env);
      }
      NoPiiNil(one.postgres, env);
    }
  }

  lemma {:induction false} NeverNil(cmd: Command, targets: seq<Postgres>, env: Env)
    requires cmd.logParser.Some?
    ensures LogRunnersFor(cmd, targets, env) != Err(NilLogParser)
  {
    hide NewLogParser;
    if targets != [] {
      NeverNil(cmd, targets[1..], env);
      ParserNotNil(cmd, env);
    }
  }

  lemma ParserNotNil(cmd: Command, env: Env)
    requires cmd.logParser.Some?
    ensures NewLogParser(cmd.name, cmd.logParser.value, env) != Err(NilLogParser)
  {
  }

  lemma {:induction false} NoPiiNil(targets: seq<Postgres>, env: Env)
    ensures PiiRunners(targets, env) != Err(NilLogParser)
  {
    if targets != [] {
      NoPiiNil(targets[1..], env);
    }
  }

  predicate AllSections(cmds: seq<Command>) {
    forall cmd :: cmd in cmds ==> HasSection(cmd)
  }

  predicate SectionsGiven(list: seq<Assignment>) {
    forall a :: a in list ==> AllSections(a.commands)
  }

  /** Commands that have their sections run as if each were alone. */
  lemma SectionsJoin(s: string, a: seq<Command>, b: seq<Command>, p: Postgres, env: Env)
    requires AllSections(a)
    ensures ChecksAt(s, a + b, p, env) == ChecksAt(s, a, p, env) + ChecksAt(s, b, p, env)
  {
    hide HasSection, Panics, ChecksAt;
    ChecksAtJoin(s, a, b, p, env);
    forall cmd | cmd in a ensures !Panics(s, cmd, env) {
      SectionNoPanic(s, cmd, env);
    }
  }

  lemma {:induction false} GatherSections(list: seq<Assignment>, s: string)
    requires SectionsGiven(list)
    ensures AllSections(Gather(list, s))
  {
    hide HasSection;
    if list != [] {
      assert list == [list[0]] + list[1..];
      GatherSections(list[1..], s);
    }
  }

  /** Something is gathered at a schedule only if something is assigned to it. */
  lemma {:induction false} GatherStems(list: seq<Assignment>, s: string) returns (a: Assignment)
    requires Gather(list, s) != []
    ensures a in list && a.schedule == s && a.commands != []
  {
    if GatherOne(list[0], s) != [] {
      a := list[0];
    } else {
      a := GatherStems(list[1..], s);
    }
  }

  lemma RunsOfExact(list: seq<Assignment>, p: Postgres, env: Env, s: string, k: Check)
    requires k in ChecksAt(s, Gather(list, s), p, env)
    ensures k in RunsOf(list, p, env)
  {
    hide ChecksBy, Panics;
    var a := GatherStems(list, s);
  }

  /** What is gathered at a schedule is assigned somewhere, and the other way round. */
  lemma {:induction false} GatheredRuns(list: seq<Assignment>, p: Postgres, env: Env, k: Check, s: string)
    requires SectionsGiven(list) && k in ChecksAt(s, Gather(list, s), p, env)
    ensures k in ChecksIn(list, p, env)
  {
    hide ChecksBy, Panics, HasSection;
    if list != [] {
      assert list[0] in list && AllSections(list[0].commands);
      SectionsJoin(s, GatherOne(list[0], s), Gather(list[1..], s), p, env);
      if k in ChecksAt(s, Gather(list[1..], s), p, env) {
        GatheredRuns(list[1..], p, env, k, s);
      }
    }
  }

  lemma {:induction false} RunsGathered(list: seq<Assignment>, p: Postgres, env: Env, k: Check) returns (s: string)
    requires SectionsGiven(list) && k in ChecksIn(list, p, env)
    ensures k in ChecksAt(s, Gather(list, s), p, env)
  {
    hide ChecksBy, Panics, HasSection;
    assert list[0] in list && AllSections(list[0].commands);
    if k in ChecksAt(list[0].schedule, list[0].commands, p, env) {
      s := list[0].schedule;
    } else {
      s := RunsGathered(list[1..], p, env, k);
    }
    SectionsJoin(s, GatherOne(list[0], s), Gather(list[1..], s), p, env);
  }

  /** Assignments whose commands have their sections, followed by any others: the first run as if alone. */
  lemma RunsJoin(scan: seq<Assignment>, legacy: seq<Assignment>, p: Postgres, env: Env)
    requires SectionsGiven(scan)
    ensures RunsOf(scan + legacy, p, env) == ChecksIn(scan, p, env) + RunsOf(legacy, p, env)
  {
    hide ChecksAt, ChecksIn, Gather, SectionsGiven;
    forall s ensures ChecksAt(s, Gather(scan + legacy, s), p, env)
                  == ChecksAt(s, Gather(scan, s), p, env) + ChecksAt(s, Gather(legacy, s), p, env)
    {
      GatherJoin(scan, legacy, s);
      GatherSections(scan, s);
      SectionsJoin(s, Gather(scan, s), Gather(legacy, s), p, env);
    }
    forall k | k in RunsOf(scan + legacy, p, env) ensures k in ChecksIn(scan, p, env) + RunsOf(legacy, p, env) {
      var a :| a in scan + legacy && k in ChecksAt(a.schedule, Gather(scan + legacy, a.schedule), p, env);
      if k in ChecksAt(a.schedule, Gather(scan, a.schedule), p, env) {
        GatheredRuns(scan, p, env, k, a.schedule);
      } else {
        RunsOfExact(legacy, p, env, a.schedule, k);
      }
    }
    forall k | k in ChecksIn(scan, p, env) + RunsOf(legacy, p, env) ensures k in RunsOf(scan + legacy, p, env) {
      if k in ChecksIn(scan, p, env) {
        var s := RunsGathered(scan, p, env, k);
        RunsOfExact(scan + legacy, p, env, s, k);
      } else {
        var a :| a in legacy && k in ChecksAt(a.schedule, Gather(legacy, a.schedule), p, env);
        RunsOfExact(scan + legacy, p, env, a.schedule, k);
      }
    }
  }

  /** The checks of the built map are those of its assignments, gathered by schedule. */
  lemma MapChecks(out: map<string, seq<Command>>, list: seq<Assignment>, p: Postgres, env: Env)
    requires Maps(out, list)
    ensures ChecksOver(out, p, env) == RunsOf(list, p, env)
  {
    hide ChecksBy, Panics, Gather;
    forall k | k in ChecksOver(out, p, env) ensures k in RunsOf(list, p, env) {
      var s :| s in out && k in ChecksAt(s, out[s], p, env);
      RunsOfExact(list, p, env, s, k);
    }
    forall k | k in RunsOf(list, p, env) ensures k in ChecksOver(out, p, env) {
      var a :| a in list && k in ChecksAt(a.schedule, Gather(list, a.schedule), p, env);
      assert a.schedule in out;
    }
  }

  /** Commands from scan_commands have their sections. */
  lemma {:induction false} CommandsForSections(tokens: seq<string>, targets: seq<Postgres>, lp: Option<LogParserInput>)
    requires CommandsFor(tokens, targets, lp).Ok? && ALL !in tokens
    ensures AllSections(CommandsFor(tokens, targets, lp).value)
  {
    hide ResolveLogParserInput;
    if tokens != [] {
      assert tokens == [tokens[0]] + tokens[1..];
      CommandsForSections(tokens[1..], targets, lp);
    }
  }

  lemma {:induction false} OnlySections(cmds: seq<Command>, b: Bucket)
    requires AllSections(cmds)
    ensures AllSections(Only(cmds, b))
  {
    hide HasSection, BucketOf;
    if cmds != [] {
      assert cmds == [cmds[0]] + cmds[1..];
      OnlySections(cmds[1..], b);
    }
  }

  lemma {:induction false} AllLogSections(names: seq<string>, targets: seq<Postgres>, lp: Option<LogParserInput>)
    requires AllLogCommands(names, targets, lp).Ok?
    ensures AllSections(AllLogCommands(names, targets, lp).value)
  {
    hide ResolveLogParserInput;
    if names != [] {
      AllLogSections(names[1..], targets, lp);
    }
  }

  lemma SlotsSections(c: Config, main: seq<Command>, pii: seq<Command>, log: seq<Command>)
    requires AllSections(main) && AllSections(pii) && AllSections(log)
    ensures SectionsGiven(Slots(c, main, pii, log))
  {
    hide HasSection, SeparatePii, SeparateLog, LogParserSchedule;
  }

  lemma ScanSections(c: Config)
    requires ScanAssignments(c).Ok?
    ensures SectionsGiven(ScanAssignments(c).value)
  {
    hide SeparatePii, SeparateLog, Targets, ResolveLogParserInput, CommandFor, Tokens, CommandsFor, AllLogCommands,
         SectionsGiven, Only, LogParserSchedule;
    if CollectorScheduleReady(c) {
      var targets := Targets(c.postgres);
      var cmds := Commands(c.postgres, c.scanCommands, c.logParser).value;
      if !(ALL in EffectiveTokens(c.scanCommands)) {
        CommandsForSections(EffectiveTokens(c.scanCommands), targets, c.logParser);
      }
      assert AllSections(cmds);
      if !SeparatePii(c) && !SeparateLog(c) {
        OneSection(Assignment(Text.TrimSpace(c.schedule), cmds));
      } else if ALL in Tokens(c.scanCommands) {
        AllLogSections(LOG_TOKENS, targets, c.logParser);
        SlotsSections(c, [Command(ALL_CORE, targets, [], None)], [Command(PII_SCANNER, targets, [], None)],
                      AllLogCommands(LOG_TOKENS, targets, c.logParser).value);
      } else {
        OnlySections(cmds, Main);
        OnlySections(cmds, Pii);
        OnlySections(cmds, Log);
        SlotsSections(c, Only(cmds, Main), Only(cmds, Pii), Only(cmds, Log));
      }
    } else {
      NoSections();
    }
  }

  lemma OneSection(a: Assignment)
    requires AllSections(a.commands)
    ensures SectionsGiven([a])
  {
    hide HasSection;
  }

  lemma NoSections()
    ensures SectionsGiven([])
  {
  }

  // ----- Splitting all -----

  /** What the single command all is for. */
  function AllChecks(env: Env): set<Check> {
    {Cis, Hba, Ssl, CommonUsers(true), LogParse(INACTIVE_USERS), LogParse(PASSWORD_LEAK), LogParse(UNIQUE_IP),
     LogParse(UNUSED_LINES)} + if env.shield then {PiiScan} else {}
  }

  function CoreChecks(): set<Check> {
    {Cis, Hba, Ssl, CommonUsers(true)}
  }

  /** A configuration without separate schedules. */
  function Joined(c: Config): Config {
    c.(piiSchedule := "", logParser := if c.logParser.None? then None else Some(c.logParser.value.(schedule := "")))
  }

  /** The schedule of the log parser commands. */
  function LogSlot(c: Config): string {
    if SeparateLog(c) then LogParserSchedule(c) else Text.TrimSpace(c.schedule)
  }

  predicate LogFilesMatch(c: Config, env: Env) {
    c.logParser.Some? && env.filesMatch(Text.TrimSpace(c.logParser.value.logFile))
  }

  lemma DefaultPrefix()
    ensures !Blank(DEFAULT_LOG_PREFIX)
  {
    assert DEFAULT_LOG_PREFIX[0] == '%' && DEFAULT_LOG_PREFIX[2] == ' ';
    assert Text.TrimLeft(DEFAULT_LOG_PREFIX) == DEFAULT_LOG_PREFIX;
    assert DEFAULT_LOG_PREFIX[..2] == "%t";
    assert Text.TrimRight(DEFAULT_LOG_PREFIX) == "%t";
  }

  /** A resolved log parser section is accepted exactly when its files match. */
  lemma ResolvedParses(c: Config, requireHBA: bool, name: string, env: Env)
    requires ResolveLogParserInput(c.logParser, requireHBA).Ok? && (name == ALL || name in LOG_TOKENS)
    ensures var r := NewLogParser(name, ResolveLogParserInput(c.logParser, requireHBA).value, env);
            && (r.Ok? <==> LogFilesMatch(c, env))
            && (r.Ok? ==> r.value == if name == ALL then SORTED_LOG_COMMANDS else [name])
  {
    DefaultPrefix();
    BlankEmpty();
    hide Text.TrimSpace;
  }

  lemma BlankEmpty()
    ensures Blank("")
  {
  }

  lemma OneTarget(s: string, cmd: Command, p: Postgres, env: Env)
    requires p in cmd.postgres && HasSection(cmd)
    ensures ChecksAt(s, [cmd], p, env) == ChecksBy(s, cmd, p, env)
  {
    hide ChecksBy, Panics;
    SectionNoPanic(s, cmd, env);
    assert [cmd][1..] == [];
  }

  /** The core command always runs its four checks. */
  lemma CoreRuns(s: string, cmd: Command, p: Postgres, env: Env)
    requires cmd.name == ALL_CORE && p in cmd.postgres
    ensures ChecksBy(s, cmd, p, env) == CoreChecks()
  {
    CoreOf(p);
    assert PerTarget([p], CORE) == ForTarget(p, CORE) by {
      assert [p][1..] == [] && ForTarget(p, CORE) + [] == ForTarget(p, CORE);
    }
  }

  lemma CoreOf(p: Postgres)
    ensures ChecksOf(ForTarget(p, CORE)) == CoreChecks()
  {
    var rs := ForTarget(p, CORE);
    assert rs[0].checks == [Cis] && rs[1].checks == [Hba] && rs[2].checks == [Ssl] && rs[3].checks == [CommonUsers(true)];
    forall k | k in CoreChecks() ensures k in ChecksOf(rs) {
      assert rs[0] in rs && rs[1] in rs && rs[2] in rs && rs[3] in rs;
      assert Cis in rs[0].checks && Hba in rs[1].checks && Ssl in rs[2].checks && CommonUsers(true) in rs[3].checks;
    }
    forall k | k in ChecksOf(rs) ensures k in CoreChecks() {
      var r :| r in rs && k in r.checks;
    }
  }

  /** A command of one simple check runs that check. */
  lemma SingleRuns(s: string, cmd: Command, p: Postgres, env: Env, k: Check)
    requires SimpleChecks(cmd.name) == [k] && p in cmd.postgres
    requires cmd.name !in LOG_TOKENS + [AWS_RDS, AWS_AURORA, MYSQL, PII_SCANNER, ALL]
    ensures ChecksBy(s, cmd, p, env) == {k}
  {
    var r := Runner([k], Some(p));
    assert PerTarget([p], [k]) == [r] by {
      assert [p][1..] == [] && ForTarget(p, [k]) == [r] && [r] + [] == [r];
    }
    assert r in [r] && k in r.checks;
  }

  // What each command runs, by its name.

  /** NewLogParser accepts the section: it has a prefix and its files match. */
  predicate SectionAccepted(cmd: Command, env: Env) {
    && cmd.logParser.Some? && Text.TrimSpace(cmd.logParser.value.prefix) != ""
    && env.filesMatch(Text.TrimSpace(cmd.logParser.value.logFile))
  }

  predicate IsCoreCheck(k: Check) {
    k == Cis || k == Hba || k == Ssl || k == CommonUsers(true)
  }

  predicate IsLogCheck(k: Check) {
    k.LogParse? && IsLogName(k.command)
  }

  /** The check is one that the command is for, and nothing stands in its way. */
  predicate RunsCheck(s: string, cmd: Command, env: Env, k: Check) {
    if cmd.name == "postgres_cis" then k == Cis
    else if cmd.name == "hba_scanner" then k == Hba
    else if cmd.name == "ssl_check" then k == Ssl
    else if cmd.name == "guc_drift" then k == Guc
    else if cmd.name == "common_users" then k == CommonUsers(false)
    else if cmd.name == "all_core" then IsCoreCheck(k)
    else if cmd.name == "aws_rds" then k == Rds
    else if cmd.name == "aws_aurora" then k == Aurora
    else if cmd.name == "mysql" then k.MySql? && k.server in cmd.mysql
    else if cmd.name == "pii_scanner" then k == PiiScan && env.shield && env.piiConfigOk
    else if IsLogName(cmd.name) then k == LogParse(cmd.name) && env.parses(s) && SectionAccepted(cmd, env)
    else if cmd.name == "all" then
      && env.parses(s) && SectionAccepted(cmd, env) && (env.shield ==> env.piiConfigOk)
      && (IsCoreCheck(k) || IsLogCheck(k) || (env.shield && k == PiiScan))
    else false
  }

  /** One tick of scheduleRunner: every target of every command by itself, up to the command that panics. */
  method ScheduleRunner(schedule: string, cmds: seq<Command>, env: Env) returns (started: seq<Runner>, panicked: bool)
    ensures started == TickRunners(schedule, cmds, env)
    ensures panicked <==> SomePanic(schedule, cmds, env)
  {
    hide Processors, Panics, CommandRunners;
    started, panicked := [], false;
    assert cmds[0..] == cmds && [] + TickRunners(schedule, cmds, env) == TickRunners(schedule, cmds, env);
    for k := 0 to |cmds|
      invariant TickRunners(schedule, cmds, env) == started + TickRunners(schedule, cmds[k..], env)
      invariant forall j :: 0 <= j < k ==> !Panics(schedule, cmds[j], env)
    {
      assert cmds[k..][0] == cmds[k] && cmds[k..][1..] == cmds[k + 1..];
      ghost var rest := TickRunners(schedule, cmds[k + 1..], env);
      var cmd := cmds[k];
      var targets := cmd.postgres;
      ghost var before, whole := started, CommandRunners(schedule, cmd, targets, env);
      if Panics(schedule, cmd, env) {
        assert before + [] == before;
      }
      assert targets[0..] == targets;
      for j := 0 to |targets|
        invariant before + whole == started + CommandRunners(schedule, cmd, targets[j..], env)
        invariant j == 0 ==> started == before
        invariant j > 0 ==> !Panics(schedule, cmd, env)
      {
        assert targets[j..][0] == targets[j] && targets[j..][1..] == targets[j + 1..];
        NextTarget(schedule, cmd, targets[j..], env);
        PanicsAtOnce(schedule, cmd, targets[j], env);
        var processors := GetProcessorsForCron(schedule, cmd.(postgres := [targets[j]]), env);
        if processors == Err(NilLogParser) {
          assert cmd in cmds;
          return started, true;
        }
        Regroup(started, TargetRunners(schedule, cmd, targets[j], env), CommandRunners(schedule, cmd, targets[j + 1..], env));
        if processors.Ok? {
          started := started + processors.value;
        } else {
          assert started + [] == started;
        }
      }
      NoTargets(schedule, cmd, env);
      assert targets[|targets|..] == [] && started + [] == started;
      Regroup(before, whole, rest);
    }
    assert cmds[|cmds|..] == [] && started + [] == started;
  }

  lemma NextTarget(s: string, cmd: Command, targets: seq<Postgres>, env: Env)
    requires targets != []
    ensures CommandRunners(s, cmd, targets, env)
         == TargetRunners(s, cmd, targets[0], env) + CommandRunners(s, cmd, targets[1..], env)
  {
    hide TargetRunners;
  }

  lemma NoTargets(s: string, cmd: Command, env: Env)
    ensures CommandRunners(s, cmd, [], env) == [] && (cmd.postgres == [] ==> !Panics(s, cmd, env))
  {
  }

  /** A command that panics at a target does so at its first. */
  lemma PanicsAtOnce(s: string, cmd: Command, p: Postgres, env: Env)
    requires p in cmd.postgres
    ensures Processors(s, cmd.(postgres := [p]), env) == Err(NilLogParser) <==> Panics(s, cmd, env)
  {
    hide Processors, Panics;
    PanicMeaning(s, cmd, env);
    PanicMeaning(s, cmd.(postgres := [p]), env);
    OneTargetPanics(s, cmd.(postgres := [p]), p, env);
  }

  lemma OneTargetPanics(s: string, cmd: Command, p: Postgres, env: Env)
    requires cmd.postgres == [p]
    ensures Panics(s, cmd, env) <==> Processors(s, cmd, env) == Err(NilLogParser)
  {
    hide Processors;
    assert cmd.(postgres := [cmd.postgres[0]]) == cmd;
  }

  /** A command runs exactly its own checks for each of its targets. */
  lemma CommandRuns(s: string, cmd: Command, p: Postgres, env: Env, k: Check)
    ensures k in ChecksBy(s, cmd, p, env) <==> p in cmd.postgres && RunsCheck(s, cmd, env, k)
  {
    hide ChecksBy, RunsCheck;
    if p !in cmd.postgres {
      NotATarget(s, cmd, p, env);
    } else if cmd.name == "pii_scanner" {
      PiiRuns(s, cmd, p, env);
      PiiMeans(s, cmd, env, k);
    } else if IsLogName(cmd.name) {
      LogCommandRuns(s, cmd, p, env, k);
    } else if cmd.name == "all" {
      AllCommandRuns(s, cmd, p, env, k);
    } else if cmd.name == "aws_rds" || cmd.name == "aws_aurora" || cmd.name == "mysql" {
      CloudRuns(s, cmd, p, env, k);
    } else if cmd.name == "all_core" {
      CoreRuns(s, cmd, p, env);
      CoreMeans(s, cmd, env, k);
    } else {
      OtherRuns(s, cmd, p, env, k);
    }
  }

  lemma NotATarget(s: string, cmd: Command, p: Postgres, env: Env)
    requires p !in cmd.postgres
    ensures ChecksBy(s, cmd, p, env) == {}
  {
    hide Processors;
  }

  lemma PiiMeans(s: string, cmd: Command, env: Env, k: Check)
    requires cmd.name == "pii_scanner"
    ensures RunsCheck(s, cmd, env, k) <==> k in (if env.shield && env.piiConfigOk then {PiiScan} else {})
  {
  }

  lemma CoreMeans(s: string, cmd: Command, env: Env, k: Check)
    requires cmd.name == "all_core"
    ensures RunsCheck(s, cmd, env, k) <==> k in CoreChecks()
  {
  }

  lemma LogNamesExact(name: string)
    ensures name in LOG_TOKENS <==> IsLogName(name)
    ensures name in SORTED_LOG_COMMANDS <==> IsLogName(name)
  {
    var tokens, sorted := LOG_TOKENS, SORTED_LOG_COMMANDS;
    assert tokens[0] in tokens && tokens[1] in tokens && tokens[2] in tokens && tokens[3] in tokens;
    assert sorted[0] in sorted && sorted[1] in sorted && sorted[2] in sorted && sorted[3] in sorted;
  }

  /** A log parser section is accepted for a known command. */
  lemma AcceptedMeaning(cmd: Command, env: Env)
    requires cmd.logParser.Some? && (cmd.name == "all" || IsLogName(cmd.name))
    ensures NewLogParser(cmd.name, cmd.logParser.value, env) ==
              if SectionAccepted(cmd, env) then Ok(if cmd.name == "all" then SORTED_LOG_COMMANDS else [cmd.name])
              else Err(BadLogParser)
  {
    hide Text.TrimSpace;
    LogNamesExact(cmd.name);
  }

  lemma LogCommandRuns(s: string, cmd: Command, p: Postgres, env: Env, k: Check)
    requires p in cmd.postgres && IsLogName(cmd.name)
    ensures k in ChecksBy(s, cmd, p, env) <==> RunsCheck(s, cmd, env, k)
  {
    LogNamesExact(cmd.name);
    LogOf([cmd.name], p);
    assert LogSet([cmd.name]) == {LogParse(cmd.name)};
    if cmd.logParser.Some? {
      AcceptedMeaning(cmd, env);
      OneLog(s, cmd, p, env);
    }
    hide SectionAccepted, NewLogParser, ChecksOf, LogSet;
    assert RunsCheck(s, cmd, env, k) <==> k == LogParse(cmd.name) && env.parses(s) && SectionAccepted(cmd, env);
  }

  lemma AllCommandRuns(s: string, cmd: Command, p: Postgres, env: Env, k: Check)
    requires p in cmd.postgres && cmd.name == "all"
    ensures k in ChecksBy(s, cmd, p, env) <==> RunsCheck(s, cmd, env, k)
  {
    AllStarts(s, cmd, p, env);
    AllRunnerChecks(p, env);
    AllMeans(env, k);
    hide SectionAccepted, Processors, ChecksOf, AllRunners;
  }

  lemma AllMeans(env: Env, k: Check)
    ensures k in AllChecks(env) <==> IsCoreCheck(k) || IsLogCheck(k) || (env.shield && k == PiiScan)
  {
  }

  lemma AllStarts(s: string, cmd: Command, p: Postgres, env: Env)
    requires cmd.name == "all"
    ensures var r := Processors(s, cmd.(postgres := [p]), env);
            if env.parses(s) && SectionAccepted(cmd, env) && (env.shield ==> env.piiConfigOk) then r == Ok(AllRunners(p, env))
            else r.Err?
  {
    hide NewLogParser, SectionAccepted, PiiRunners, LogRunners;
    if cmd.logParser.Some? {
      AcceptedMeaning(cmd, env);
      OneLog(s, cmd, p, env);
    } else {
      NoSection(s, cmd, p, env);
    }
    OnePii(p, env);
    var core, log := ForTarget(p, CORE), [Runner(LogChecks(SORTED_LOG_COMMANDS), Some(p))];
    assert PerTarget([p], CORE) == core by {
      assert [p][1..] == [] && core + [] == core;
    }
    assert core + log + [] == core + log;
  }

  lemma NoSection(s: string, cmd: Command, p: Postgres, env: Env)
    requires cmd.logParser.None?
    ensures LogRunners(s, cmd.(postgres := [p]), env) == Err(if env.parses(s) then NilLogParser else ScheduleUnparsed)
    ensures !SectionAccepted(cmd, env)
  {
  }

  lemma CloudRuns(s: string, cmd: Command, p: Postgres, env: Env, k: Check)
    requires p in cmd.postgres && (cmd.name == "aws_rds" || cmd.name == "aws_aurora" || cmd.name == "mysql")
    ensures k in ChecksBy(s, cmd, p, env) <==> RunsCheck(s, cmd, env, k)
  {
    var rs := Processors(s, cmd.(postgres := [p]), env).value;
    if RunsCheck(s, cmd, env, k) {
      if cmd.name == "mysql" {
        var i :| 0 <= i < |cmd.mysql| && cmd.mysql[i] == k.server;
        assert rs[i].checks == [k] && rs[i] in rs && k in rs[i].checks;
      } else {
        assert rs[0].checks == [k] && rs[0] in rs && k in rs[0].checks;
      }
    }
    if k in ChecksOf(rs) {
      var r :| r in rs && k in r.checks;
      assert r.checks[0] == k;
    }
  }

  lemma OtherRuns(s: string, cmd: Command, p: Postgres, env: Env, k: Check)
    requires p in cmd.postgres && !IsLogName(cmd.name)
    requires cmd.name != "pii_scanner" && cmd.name != "all" && cmd.name != "all_core"
    requires cmd.name != "aws_rds" && cmd.name != "aws_aurora" && cmd.name != "mysql"
    ensures k in ChecksBy(s, cmd, p, env) <==> RunsCheck(s, cmd, env, k)
  {
    LogNamesExact(cmd.name);
    var checks := SimpleChecks(cmd.name);
    if checks != [] {
      assert checks == [checks[0]];
      SingleRuns(s, cmd, p, env, checks[0]);
    }
  }

  /** The core of all is the CIS, HBA and SSL commands of their own and the password check of every user. */
  lemma CoreIsItsParts(s: string, targets: seq<Postgres>, p: Postgres, env: Env)
    requires p in targets
    ensures ChecksBy(s, Command(ALL_CORE, targets, [], None), p, env) ==
              ChecksAt(s, [Command(POSTGRES_CIS, targets, [], None), Command(HBA_SCANNER, targets, [], None),
                           Command(SSL_CHECK, targets, [], None)], p, env) + {CommonUsers(true)}
  {
    hide ChecksBy;
    var cis, hba, ssl := Command(POSTGRES_CIS, targets, [], None), Command(HBA_SCANNER, targets, [], None),
                         Command(SSL_CHECK, targets, [], None);
    CoreRuns(s, Command(ALL_CORE, targets, [], None), p, env);
    SingleRuns(s, cis, p, env, Cis);
    SingleRuns(s, hba, p, env, Hba);
    SingleRuns(s, ssl, p, env, Ssl);
    assert [cis, hba, ssl] == [cis] + ([hba] + [ssl]);
    SectionsJoin(s, [cis], [hba] + [ssl], p, env);
    SectionsJoin(s, [hba], [ssl], p, env);
    OneTarget(s, cis, p, env);
    OneTarget(s, hba, p, env);
    OneTarget(s, ssl, p, env);
  }

  lemma PiiRuns(s: string, cmd: Command, p: Postgres, env: Env)
    requires cmd.name == PII_SCANNER && p in cmd.postgres
    ensures ChecksBy(s, cmd, p, env) == if env.shield && env.piiConfigOk then {PiiScan} else {}
  {
    OnePii(p, env);
    PiiOf(p);
  }

  lemma OnePii(p: Postgres, env: Env)
    ensures PiiRunners([p], env) == if env.piiConfigOk then Ok([Runner([PiiScan], Some(p))]) else Err(BadPiiConfig)
  {
    assert [p][1..] == [];
    assert [Runner([PiiScan], Some(p))] + [] == [Runner([PiiScan], Some(p))];
  }

  lemma PiiOf(p: Postgres)
    ensures ChecksOf([Runner([PiiScan], Some(p))]) == {PiiScan}
  {
    var r := Runner([PiiScan], Some(p));
    assert r in [r] && PiiScan in r.checks;
  }

  function LogSet(commands: seq<string>): set<Check> {
    set name | name in commands :: LogParse(name)
  }

  lemma LogOf(commands: seq<string>, p: Postgres)
    ensures ChecksOf([Runner(LogChecks(commands), Some(p))]) == LogSet(commands)
  {
    var r := Runner(LogChecks(commands), Some(p));
    assert r in [r];
    forall k | k in LogSet(commands) ensures k in ChecksOf([r]) {
      var i :| 0 <= i < |commands| && k == LogParse(commands[i]);
      assert r.checks[i] == k;
      assert k in r.checks;
    }
    forall k | k in ChecksOf([r]) ensures k in LogSet(commands) {
      var i :| 0 <= i < |r.checks| && r.checks[i] == k;
      assert commands[i] in commands;
    }
  }

  lemma OneLog(s: string, cmd: Command, p: Postgres, env: Env)
    requires cmd.logParser.Some?
    ensures LogRunners(s, cmd.(postgres := [p]), env) ==
              if !env.parses(s) then Err(ScheduleUnparsed)
              else
                match NewLogParser(cmd.name, cmd.logParser.value, env)
                case Err(e) => Err(e)
                case Ok(commands) => Ok([Runner(LogChecks(commands), Some(p))])
  {
    hide NewLogParser;
    assert [p][1..] == [];
    var one := cmd.(postgres := [p]);
    assert LogRunnersFor(one, [], env) == Ok([]);
    var commands := NewLogParser(cmd.name, cmd.logParser.value, env);
    if commands.Ok? {
      assert [Runner(LogChecks(commands.value), Some(p))] + [] == [Runner(LogChecks(commands.value), Some(p))];
    }
  }

  lemma LogRuns(s: string, c: Config, name: string, targets: seq<Postgres>, p: Postgres, env: Env)
    requires name in LOG_TOKENS && p in targets && LogParserCommand(targets, c.logParser, name).Ok?
    ensures ChecksBy(s, LogParserCommand(targets, c.logParser, name).value, p, env) ==
              if env.parses(s) && LogFilesMatch(c, env) then {LogParse(name)} else {}
  {
    hide NewLogParser, LogFilesMatch, ResolveLogParserInput, LogRunners;
    var cmd := LogParserCommand(targets, c.logParser, name).value;
    ResolvedParses(c, name == UNUSED_LINES, name, env);
    OneLog(s, cmd, p, env);
    LogOf([name], p);
    assert LogSet([name]) == {LogParse(name)};
  }

  /** The PII configuration does not stand in the way: there is no shield, or it is built. */
  predicate PiiClear(env: Env) {
    env.shield ==> env.piiConfigOk
  }

  /** The command all runs everything for a target, without a shield all but the PII scan, or nothing. */
  lemma AllRuns(s: string, c: Config, targets: seq<Postgres>, p: Postgres, env: Env)
    requires p in targets && ResolveLogParserInput(c.logParser, true).Ok?
    ensures ChecksBy(s, Command(ALL, targets, [], Some(ResolveLogParserInput(c.logParser, true).value)), p, env) ==
              if env.parses(s) && LogFilesMatch(c, env) && PiiClear(env) then AllChecks(env) else {}
  {
    hide LogFilesMatch, ResolveLogParserInput, Processors, ChecksOf;
    var cmd := Command(ALL, targets, [], Some(ResolveLogParserInput(c.logParser, true).value));
    AllProcessors(s, c, cmd, p, env);
    AllRunnerChecks(p, env);
  }

  /** What the command all starts for one target. */
  function AllRunners(p: Postgres, env: Env): seq<Runner> {
    ForTarget(p, CORE) + [Runner(LogChecks(SORTED_LOG_COMMANDS), Some(p))]
      + if env.shield then [Runner([PiiScan], Some(p))] else []
  }

  lemma AllProcessors(s: string, c: Config, cmd: Command, p: Postgres, env: Env)
    requires ResolveLogParserInput(c.logParser, true).Ok?
    requires cmd.name == ALL && cmd.logParser == Some(ResolveLogParserInput(c.logParser, true).value)
    ensures var r := Processors(s, cmd.(postgres := [p]), env);
            if env.parses(s) && LogFilesMatch(c, env) && PiiClear(env) then r == Ok(AllRunners(p, env)) else r.Err?
  {
    hide NewLogParser, LogFilesMatch, ResolveLogParserInput, LogRunners, PiiRunners;
    ResolvedParses(c, true, ALL, env);
    OneLog(s, cmd, p, env);
    OnePii(p, env);
    assert PerTarget([p], CORE) == ForTarget(p, CORE) by {
      assert [p][1..] == [] && ForTarget(p, CORE) + [] == ForTarget(p, CORE);
    }
    var core, log := ForTarget(p, CORE), [Runner(LogChecks(SORTED_LOG_COMMANDS), Some(p))];
    assert core + log + [] == core + log;
  }

  lemma AllRunnerChecks(p: Postgres, env: Env)
    ensures ChecksOf(AllRunners(p, env)) == AllChecks(env)
  {
    hide ChecksOf, LogSet;
    var core, log := ForTarget(p, CORE), [Runner(LogChecks(SORTED_LOG_COMMANDS), Some(p))];
    CoreOf(p);
    LogOf(SORTED_LOG_COMMANDS, p);
    PiiOf(p);
    ChecksOfJoin(core, log);
    ChecksOfJoin(core + log, [Runner([PiiScan], Some(p))]);
    assert core + log + [] == core + log;
    SortedLogSet(env);
  }

  lemma ChecksOfJoin(a: seq<Runner>, b: seq<Runner>)
    ensures ChecksOf(a + b) == ChecksOf(a) + ChecksOf(b)
  {
  }

  lemma SortedLogSet(env: Env)
    ensures CoreChecks() + LogSet(SORTED_LOG_COMMANDS) + (if env.shield then {PiiScan} else {}) == AllChecks(env)
    ensures LogSet(LOG_TOKENS) == LogSet(SORTED_LOG_COMMANDS)
  {
    var sorted := SORTED_LOG_COMMANDS;
    assert sorted[0] in sorted && sorted[1] in sorted && sorted[2] in sorted && sorted[3] in sorted;
    var tokens := LOG_TOKENS;
    assert tokens[0] in tokens && tokens[1] in tokens && tokens[2] in tokens && tokens[3] in tokens;
  }

  lemma LogCommandSection(targets: seq<Postgres>, lp: Option<LogParserInput>, name: string)
    requires LogParserCommand(targets, lp, name).Ok?
    ensures HasSection(LogParserCommand(targets, lp, name).value)
  {
  }

  /** The split log parser commands run each their own check, or none. */
  lemma {:induction false} SplitLogRuns(s: string, c: Config, names: seq<string>, targets: seq<Postgres>, p: Postgres, env: Env)
    requires p in targets && (forall n :: n in names ==> n in LOG_TOKENS)
    requires AllLogCommands(names, targets, c.logParser).Ok?
    ensures ChecksAt(s, AllLogCommands(names, targets, c.logParser).value, p, env) ==
              if env.parses(s) && LogFilesMatch(c, env) then LogSet(names) else {}
  {
    hide LogFilesMatch, ChecksBy, Panics, LogParserCommand;
    if names != [] {
      LogCommandSection(targets, c.logParser, names[0]);
      SplitLogRuns(s, c, names[1..], targets, p, env);
      LogRuns(s, c, names[0], targets, p, env);
      assert names == [names[0]] + names[1..];
      assert LogSet(names) == {LogParse(names[0])} + LogSet(names[1..]);
      SectionNoPanic(s, LogParserCommand(targets, c.logParser, names[0]).value, env);
      var rest := AllLogCommands(names[1..], targets, c.logParser).value;
      assert ([LogParserCommand(targets, c.logParser, names[0]).value] + rest)[1..] == rest;
    }
  }

  /** With all and a schedule of its own for PII or log parsing: for a target, the core checks always run, the PII scan if
      its configuration is built, the log parser commands if their schedule parses and their files match. */
  lemma SplitRuns(c: Config, p: Postgres, env: Env)
    requires CollectorScheduleReady(c) && ALL in Tokens(c.scanCommands) && (SeparatePii(c) || SeparateLog(c))
    requires ScanAssignments(c).Ok? && p in Targets(c.postgres)
    ensures ChecksIn(ScanAssignments(c).value, p, env) ==
              CoreChecks() + (if env.shield && env.piiConfigOk then {PiiScan} else {})
              + if env.parses(LogSlot(c)) && LogFilesMatch(c, env) then LogSet(LOG_TOKENS) else {}
  {
    hide LogFilesMatch, ChecksBy, LogParserCommand, Tokens, Targets, Text.TrimSpace, AllLogCommands, Commands, LogParserSchedule;
    var targets := Targets(c.postgres);
    var main, pii, logs := Command(ALL_CORE, targets, [], None), Command(PII_SCANNER, targets, [], None),
                           AllLogCommands(LOG_TOKENS, targets, c.logParser).value;
    var slots := Slots(c, [main], [pii], logs);
    assert ScanAssignments(c).value == slots;
    AllLogSections(LOG_TOKENS, targets, c.logParser);
    SlotsChecks(c, [main], [pii], logs, p, env);
    var piiAt := if SeparatePii(c) then Text.TrimSpace(c.piiSchedule) else Text.TrimSpace(c.schedule);
    OneTarget(Text.TrimSpace(c.schedule), main, p, env);
    OneTarget(piiAt, pii, p, env);
    CoreRuns(Text.TrimSpace(c.schedule), main, p, env);
    PiiRuns(piiAt, pii, p, env);
    SplitLogRuns(LogSlot(c), c, LOG_TOKENS, targets, p, env);
  }

  lemma SlotsChecks(c: Config, main: seq<Command>, pii: seq<Command>, log: seq<Command>, p: Postgres, env: Env)
    requires AllSections(main) && AllSections(pii) && AllSections(log)
    ensures ChecksIn(Slots(c, main, pii, log), p, env) ==
              ChecksAt(Text.TrimSpace(c.schedule), main, p, env)
              + ChecksAt(if SeparatePii(c) then Text.TrimSpace(c.piiSchedule) else Text.TrimSpace(c.schedule), pii, p, env)
              + ChecksAt(LogSlot(c), log, p, env)
  {
    hide SeparatePii, SeparateLog, LogParserSchedule, Text.TrimSpace, ChecksBy, Panics, HasSection;
    var slots := Slots(c, main, pii, log);
    var s := Text.TrimSpace(c.schedule);
    var none: seq<Command> := [];
    var piiHere, logHere := if SeparatePii(c) then none else pii, if SeparateLog(c) then none else log;
    SectionsJoin(s, main + piiHere, logHere, p, env);
    SectionsJoin(s, main, piiHere, p, env);
    assert slots[1..][1..] == [slots[2]] && [slots[2]][1..] == [];
    assert ChecksIn([slots[2]], p, env) == ChecksAt(slots[2].schedule, slots[2].commands, p, env);
    assert ChecksIn(slots[1..], p, env) == ChecksAt(slots[1].schedule, slots[1].commands, p, env) + ChecksIn([slots[2]], p, env);
  }

  lemma JoinedRuns(c: Config, p: Postgres, env: Env)
    requires CollectorScheduleReady(c) && ALL in Tokens(c.scanCommands) && !SeparatePii(c) && !SeparateLog(c)
    requires ScanAssignments(c).Ok? && p in Targets(c.postgres)
    ensures ChecksIn(ScanAssignments(c).value, p, env) ==
              if env.parses(Text.TrimSpace(c.schedule)) && LogFilesMatch(c, env) && PiiClear(env) then AllChecks(env) else {}
  {
    hide LogFilesMatch, ChecksBy, Targets, Text.TrimSpace, ResolveLogParserInput;
    var cmd := Command(ALL, Targets(c.postgres), [], Some(ResolveLogParserInput(c.logParser, true).value));
    var a := Assignment(Text.TrimSpace(c.schedule), [cmd]);
    assert ScanAssignments(c).value == [a];
    assert [a][1..] == [];
    OneTarget(a.schedule, cmd, p, env);
    AllRuns(a.schedule, c, Targets(c.postgres), p, env);
  }

  lemma JoinedIsJoined(c: Config)
    ensures !SeparatePii(Joined(c)) && !SeparateLog(Joined(c))
    ensures CollectorScheduleReady(Joined(c)) == CollectorScheduleReady(c)
    ensures ResolveLogParserInput(Joined(c).logParser, true).Ok? == ResolveLogParserInput(c.logParser, true).Ok?
  {
    BlankEmpty();
    hide Tokens;
  }

  /** Nothing stands in the way of the single command. */
  predicate SingleClear(c: Config, env: Env) {
    env.parses(Text.TrimSpace(c.schedule)) && LogFilesMatch(c, env) && PiiClear(env)
  }

  /** Nothing stands in the way of any check. */
  predicate AllClear(c: Config, env: Env) {
    && env.parses(Text.TrimSpace(c.schedule)) && env.parses(LogSlot(c))
    && LogFilesMatch(c, env) && PiiClear(env)
  }

  /** Splitting all over separate schedules, for every target, once all schedules are set up: the single command and the
      split ones run the same checks exactly when the main and the log schedule parse, the log files match and the PII
      configuration is built, if there is a shield at all. Otherwise the single command runs everything or nothing
      for the target, the split ones at least the core checks. */
  lemma SplitAllExact(c: Config, p: Postgres, env: Env)
    requires CollectorScheduleReady(c) && ALL in Tokens(c.scanCommands) && (SeparatePii(c) || SeparateLog(c))
    requires ScanAssignments(c).Ok? && p in Targets(c.postgres)
    ensures ScanAssignments(Joined(c)).Ok?
    ensures ChecksIn(ScanAssignments(c).value, p, env) == ChecksIn(ScanAssignments(Joined(c)).value, p, env) <==>
              AllClear(c, env)
    ensures CoreChecks() <= ChecksIn(ScanAssignments(c).value, p, env) <= AllChecks(env)
    ensures ChecksIn(ScanAssignments(Joined(c)).value, p, env) == if SingleClear(c, env) then AllChecks(env) else {}
  {
    hide Tokens, Targets, Text.TrimSpace, ChecksIn, ResolveLogParserInput, AllLogCommands;
    JoinedIsJoined(c);
    SplitRuns(c, p, env);
    JoinedRuns(Joined(c), p, env);
    SameJoined(c, env);
    SortedLogSet(env);
    assert Cis in CoreChecks();
    assert LogParse(INACTIVE_USERS) in AllChecks(env) && (env.shield ==> PiiScan in AllChecks(env));
  }

  /** The scheduler accepts the schedules that splitting adds. */
  predicate AddedRegister(c: Config, env: Env) {
    && (SeparatePii(c) ==> env.registers(Text.TrimSpace(c.piiSchedule)))
    && (SeparateLog(c) ==> env.registers(LogSlot(c)))
  }

  /** What is set up of the scan commands: the main schedule and, when split, the added ones. */
  lemma SlotsSetUp(c: Config, env: Env)
    requires CollectorScheduleReady(c) && ALL in Tokens(c.scanCommands) && ScanAssignments(c).Ok?
    requires Targets(c.postgres) != []
    ensures SetUp(ScanAssignments(c).value, env) <==> env.registers(Text.TrimSpace(c.schedule)) && AddedRegister(c, env)
  {
    hide Tokens, Targets, Text.TrimSpace, ResolveLogParserInput, AllLogCommands, LogParserSchedule;
    if SeparatePii(c) || SeparateLog(c) {
      var targets := Targets(c.postgres);
      var main, pii, logs := Command(ALL_CORE, targets, [], None), Command(PII_SCANNER, targets, [], None),
                             AllLogCommands(LOG_TOKENS, targets, c.logParser).value;
      SomeLogCommands(targets, c.logParser);
      assert ScanAssignments(c).value == Slots(c, [main], [pii], logs);
      SlotsRegister(c, [main], [pii], logs, env);
    } else {
      var cmd := Command(ALL, Targets(c.postgres), [], Some(ResolveLogParserInput(c.logParser, true).value));
      var a := Assignment(Text.TrimSpace(c.schedule), [cmd]);
      assert ScanAssignments(c).value == [a];
      assert a in [a];
    }
  }

  lemma SomeLogCommands(targets: seq<Postgres>, lp: Option<LogParserInput>)
    requires AllLogCommands(LOG_TOKENS, targets, lp).Ok?
    ensures AllLogCommands(LOG_TOKENS, targets, lp).value != []
  {
  }

  lemma SlotsRegister(c: Config, main: seq<Command>, pii: seq<Command>, log: seq<Command>, env: Env)
    requires main != [] && pii != [] && log != []
    ensures SetUp(Slots(c, main, pii, log), env) <==> env.registers(Text.TrimSpace(c.schedule)) && AddedRegister(c, env)
  {
    hide SeparatePii, SeparateLog, LogParserSchedule, Text.TrimSpace;
    var slots := Slots(c, main, pii, log);
    assert slots[0] in slots && slots[1] in slots && slots[2] in slots;
    forall a | a in slots ensures a == slots[0] || a == slots[1] || a == slots[2] {
    }
  }

  /** The same over the built maps, legacy entries included: splitting all changes a target's checks exactly when
      something stands in the way of the single command and the split ones run a check that the legacy entries do
      not run anyway, or the other way round. */
  lemma SplitMapsAgree(c: Config, runsDaily: string -> Option<bool>, split: map<string, seq<Command>>,
                       single: map<string, seq<Command>>, p: Postgres, env: Env)
    requires CollectorScheduleReady(c) && ALL in Tokens(c.scanCommands) && p in Targets(c.postgres)
    requires Assignments(c, runsDaily).Ok? && Maps(split, Assignments(c, runsDaily).value)
    requires Assignments(Joined(c), runsDaily).Ok? && Maps(single, Assignments(Joined(c), runsDaily).value)
    ensures AllClear(c, env) ==> ChecksOver(split, p, env) == ChecksOver(single, p, env)
    ensures c.crons == [] && (SeparatePii(c) || SeparateLog(c)) ==>
              (ChecksOver(split, p, env) == ChecksOver(single, p, env) <==> AllClear(c, env))
    ensures c.crons == [] && (SeparatePii(c) || SeparateLog(c)) ==>
              (ChecksOver(single, p, env) == {} <==> !SingleClear(c, env))
    ensures var legacy := RunsOf(LegacyAssignments(c.crons, runsDaily, 0).value, p, env);
            var here, there := ChecksIn(ScanAssignments(c).value, p, env), ChecksIn(ScanAssignments(Joined(c)).value, p, env);
            ChecksOver(split, p, env) == ChecksOver(single, p, env) <==> here - legacy == there - legacy
  {
    hide Tokens, Targets, Text.TrimSpace, ChecksIn, ChecksOver, RunsOf, Maps, SeparatePii, SeparateLog, AllClear, SingleClear;
    var legacy := LegacyAssignments(c.crons, runsDaily, 0).value;
    assert Joined(c).crons == c.crons;
    MapChecks(split, Assignments(c, runsDaily).value, p, env);
    MapChecks(single, Assignments(Joined(c), runsDaily).value, p, env);
    ScanSections(c);
    ScanSections(Joined(c));
    RunsJoin(ScanAssignments(c).value, legacy, p, env);
    RunsJoin(ScanAssignments(Joined(c)).value, legacy, p, env);
    if SeparatePii(c) || SeparateLog(c) {
      SplitAllExact(c, p, env);
      assert Cis in AllChecks(env);
    } else {
      JoinedIsJoined(c);
      JoinedRuns(c, p, env);
      JoinedRuns(Joined(c), p, env);
      SameJoined(c, env);
    }
    UnionExact(ChecksIn(ScanAssignments(c).value, p, env), ChecksIn(ScanAssignments(Joined(c)).value, p, env),
               RunsOf(legacy, p, env));
    if c.crons == [] {
      NothingRuns(p, env);
    }
  }

  /** The scheduler accepts every schedule of the entries. */
  predicate LegacySetUp(c: Config, runsDaily: string -> Option<bool>, env: Env)
    requires LegacyAssignments(c.crons, runsDaily, 0).Ok?
  {
    SetUp(LegacyAssignments(c.crons, runsDaily, 0).value, env)
  }

  /** Setting the maps up can fail as well, and then nothing runs: splitting adds schedules that the scheduler may refuse.
      So the two configurations run the same checks for a target exactly when neither is set up, or both are and
      agree, or the single one alone is set up and runs nothing. */
  lemma SplitRunsAgree(c: Config, runsDaily: string -> Option<bool>, split: map<string, seq<Command>>,
                       single: map<string, seq<Command>>, p: Postgres, env: Env)
    requires CollectorScheduleReady(c) && ALL in Tokens(c.scanCommands) && p in Targets(c.postgres)
    requires Assignments(c, runsDaily).Ok? && Maps(split, Assignments(c, runsDaily).value)
    requires Assignments(Joined(c), runsDaily).Ok? && Maps(single, Assignments(Joined(c), runsDaily).value)
    ensures var single' := env.registers(Text.TrimSpace(c.schedule)) && LegacySetUp(c, runsDaily, env);
            && (Registered(single, env) <==> single')
            && (Registered(split, env) <==> single' && AddedRegister(c, env))
    ensures RunsOver(split, p, env) == RunsOver(single, p, env) <==>
              || !Registered(single, env)
              || if AddedRegister(c, env) then ChecksOver(split, p, env) == ChecksOver(single, p, env)
                 else ChecksOver(single, p, env) == {}
    ensures c.crons == [] && (SeparatePii(c) || SeparateLog(c)) ==>
              (RunsOver(split, p, env) == RunsOver(single, p, env) <==>
                || !env.registers(Text.TrimSpace(c.schedule))
                || if AddedRegister(c, env) then AllClear(c, env) else !SingleClear(c, env))
  {
    hide Tokens, Targets, Text.TrimSpace, ChecksIn, ChecksOver, RunsOf, Maps, SeparatePii, SeparateLog, AllClear, SingleClear,
         AddedRegister, Registered;
    var legacy := LegacyAssignments(c.crons, runsDaily, 0).value;
    assert Joined(c).crons == c.crons;
    RegisteredExact(split, Assignments(c, runsDaily).value, env);
    RegisteredExact(single, Assignments(Joined(c), runsDaily).value, env);
    SlotsSetUp(c, env);
    SlotsSetUp(Joined(c), env);
    JoinedAdds(c, env);
    SetUpJoin(ScanAssignments(c).value, legacy, env);
    SetUpJoin(ScanAssignments(Joined(c)).value, legacy, env);
    SplitMapsAgree(c, runsDaily, split, single, p, env);
  }

  lemma SetUpJoin(a: seq<Assignment>, b: seq<Assignment>, env: Env)
    ensures SetUp(a + b, env) <==> SetUp(a, env) && SetUp(b, env)
  {
    if SetUp(a + b, env) {
      forall x | (x in a || x in b) && x.commands != [] ensures env.registers(x.schedule) {
        assert x in a + b;
      }
    }
  }

  lemma JoinedAdds(c: Config, env: Env)
    ensures AddedRegister(Joined(c), env)
  {
    JoinedIsJoined(c);
    hide SeparatePii, SeparateLog;
  }

  lemma SameJoined(c: Config, env: Env)
    ensures LogFilesMatch(Joined(c), env) == LogFilesMatch(c, env) && Joined(c).schedule == c.schedule
  {
  }

  lemma UnionExact(a: set<Check>, b: set<Check>, more: set<Check>)
    ensures a + more == b + more <==> a - more == b - more
  {
    if a + more == b + more {
      forall k ensures k in a - more <==> k in b - more {
        assert k in a + more <==> k in b + more;
      }
    }
    if a - more == b - more {
      forall k ensures k in a + more <==> k in b + more {
        assert k in a - more <==> k in b - more;
      }
    }
  }

  lemma NothingRuns(p: Postgres, env: Env)
    ensures RunsOf([], p, env) == {}
  {
  }
}
