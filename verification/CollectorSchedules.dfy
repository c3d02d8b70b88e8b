/** The schedule map of pkg/config/collector_schedules.go: which commands run at which cron schedule.

    Error texts are constructors of Error. Parsing a cron expression is a parameter: runsDaily gives None when it
    does not parse, else whether its next two runs are at least 24 hours apart. */
module CollectorSchedules {
  import opened Common
  import Text

  datatype Postgres = Postgres(host: string, port: string, user: string, password: string, dbName: string,
                               settings: ConnectionSettings)

  datatype ConnectionSettings = ConnectionSettings(sslMode: string, sslCert: string, sslKey: string, sslRootCert: string,
                                                   pingCheck: bool, maxIdleConn: int, maxOpenConn: int)

  datatype LogParserInput = LogParserInput(schedule: string, prefix: string, logFile: string, hbaConfFile: string)

  /** mysql: host and port of each MySQL server. */
  datatype Command = Command(name: string, postgres: seq<Postgres>, mysql: seq<string>, logParser: Option<LogParserInput>)

  datatype Cron = Cron(schedule: string, commands: seq<Command>)

  /** The parts of Config that schedules depend on. */
  datatype Config = Config(postgres: Option<Postgres>, schedule: string, scanCommands: string,
                           logParser: Option<LogParserInput>, piiSchedule: string, crons: seq<Cron>)

  datatype Error =
    | PostgresMissing
    | Unsupported(command: string)
    | LogFileRequired
    | HbaConfFileRequired
    | ScheduleRequired(entry: nat)
    | BadSchedule(entry: nat)
    | TooFrequent(entry: nat)

  const ALL := "all"
  const ALL_CORE := "all_core"
  const POSTGRES_CIS := "postgres_cis"
  const HBA_SCANNER := "hba_scanner"
  const GUC_DRIFT := "guc_drift"
  const SSL_CHECK := "ssl_check"
  const PII_SCANNER := "pii_scanner"
  const INACTIVE_USERS := "inactive_users"
  const UNIQUE_IP := "unique_ip"
  const UNUSED_LINES := "unused_lines"
  const PASSWORD_LEAK := "password_leak_scanner"

  const LOG_TOKENS := [INACTIVE_USERS, UNIQUE_IP, UNUSED_LINES, PASSWORD_LEAK]

  const DEFAULT_LOG_PREFIX := "%t "

  // ----- Parsing -----

  /** Lower-case, trimmed, empty parts left out. */
  function Kept(parts: seq<string>): seq<string> {
    if parts == [] then [] else KeptOf(parts[0]) + Kept(parts[1..])
  }

  function KeptOf(part: string): seq<string> {
    var p := Text.TrimSpace(Text.ToLower(part));
    if p == "" then [] else [p]
  }

  /** The tokens are the parts between commas, in lower case and trimmed, that are not blank. */
  lemma TokenListed(raw: string, token: string)
    ensures token in Tokens(raw) <==>
              exists part :: Text.Listed(raw, ',', part) && token == Text.TrimSpace(Text.ToLower(part)) && token != ""
  {
    hide Text.TrimSpace, Text.ToLower, Text.Split, Text.Listed;
    KeptMembers(Text.Split(raw, ','), token);
    forall part ensures part in Text.Split(raw, ',') <==> Text.Listed(raw, ',', part) {
      Text.SplitListed(raw, ',', part);
    }
  }

  lemma {:induction false} KeptMembers(parts: seq<string>, token: string)
    ensures token in Kept(parts) <==>
              exists part :: part in parts && token == Text.TrimSpace(Text.ToLower(part)) && token != ""
  {
    hide Text.TrimSpace, Text.ToLower;
    if parts != [] {
      KeptMembers(parts[1..], token);
      assert parts == [parts[0]] + parts[1..];
    }
  }

  function Tokens(raw: string): seq<string> {
    Kept(Text.Split(raw, ','))
  }

  lemma {:induction false} KeptJoin(a: seq<string>, b: seq<string>)
    ensures Kept(a + b) == Kept(a) + Kept(b)
  {
    if a == [] {
      assert a + b == b;
    } else {
      hide KeptOf;
      KeptJoin(a[1..], b);
      Regroup(KeptOf(a[0]), Kept(a[1..]), Kept(b));
      assert (a + b)[0] == a[0] && (a + b)[1..] == a[1..] + b;
    }
  }

  method ParseScanCommands(raw: string) returns (out: seq<string>)
    ensures out == Tokens(raw)
  {
    hide Text.TrimSpace, Text.ToLower;
    out := [];
    var parts := Text.Split(raw, ',');
    for k := 0 to |parts|
      invariant out == Kept(parts[..k])
    {
      assert parts[..k + 1] == parts[..k] + [parts[k]];
      KeptJoin(parts[..k], [parts[k]]);
      var p := Text.TrimSpace(Text.ToLower(parts[k]));
      if p != "" {
        out := out + [p];
      }
    }
    assert parts[..|parts|] == parts;
  }

  /** One target per non-empty database name. */
  function TargetsOf(pg: Postgres, parts: seq<string>): seq<Postgres> {
    if parts == [] then [] else TargetOf(pg, parts[0]) + TargetsOf(pg, parts[1..])
  }

  function TargetOf(pg: Postgres, part: string): seq<Postgres> {
    var db := Text.TrimSpace(part);
    if db == "" then [] else [pg.(dbName := db)]
  }

  function Targets(pg: Option<Postgres>): seq<Postgres> {
    if pg.None? then [] else TargetsOf(pg.value, Text.Split(pg.value.dbName, ','))
  }

  /** The targets are the databases listed between commas, trimmed, each with the server and the credentials given. */
  lemma TargetListed(pg: Postgres, t: Postgres)
    ensures t in Targets(Some(pg)) <==>
              exists part :: Text.Listed(pg.dbName, ',', part) && Text.TrimSpace(part) != ""
                             && t == pg.(dbName := Text.TrimSpace(part))
  {
    hide Text.TrimSpace, Text.Split, Text.Listed;
    TargetMembers(pg, Text.Split(pg.dbName, ','), t);
    forall part ensures part in Text.Split(pg.dbName, ',') <==> Text.Listed(pg.dbName, ',', part) {
      Text.SplitListed(pg.dbName, ',', part);
    }
  }

  lemma {:induction false} TargetMembers(pg: Postgres, parts: seq<string>, t: Postgres)
    ensures t in TargetsOf(pg, parts) <==>
              exists part :: part in parts && Text.TrimSpace(part) != "" && t == pg.(dbName := Text.TrimSpace(part))
  {
    hide Text.TrimSpace;
    if parts != [] {
      TargetMembers(pg, parts[1..], t);
      assert parts == [parts[0]] + parts[1..];
    }
  }

  lemma {:induction false} TargetsJoin(pg: Postgres, a: seq<string>, b: seq<string>)
    ensures TargetsOf(pg, a + b) == TargetsOf(pg, a) + TargetsOf(pg, b)
  {
    if a == [] {
      assert a + b == b;
    } else {
      hide TargetOf;
      TargetsJoin(pg, a[1..], b);
      Regroup(TargetOf(pg, a[0]), TargetsOf(pg, a[1..]), TargetsOf(pg, b));
      assert (a + b)[0] == a[0] && (a + b)[1..] == a[1..] + b;
    }
  }

  method ExpandTargets(pg: Option<Postgres>) returns (out: seq<Postgres>)
    ensures out == Targets(pg)
  {
    hide Text.TrimSpace;
    out := [];
    if pg.None? {
      return;
    }
    var names := Text.Split(pg.value.dbName, ',');
    for k := 0 to |names|
      invariant out == TargetsOf(pg.value, names[..k])
    {
      assert names[..k + 1] == names[..k] + [names[k]];
      TargetsJoin(pg.value, names[..k], [names[k]]);
      var db := Text.TrimSpace(names[k]);
      if db != "" {
        out := out + [pg.value.(dbName := db)];
      }
    }
    assert names[..|names|] == names;
  }

  // ----- Commands -----

  predicate Blank(s: string) {
    Text.TrimSpace(s) == ""
  }

  function ResolveLogParserInput(lp: Option<LogParserInput>, requireHBA: bool): Result<LogParserInput, Error> {
    var given := if lp.None? then LogParserInput("", "", "", "") else lp.value;
    var cp := if Blank(given.prefix) then given.(prefix := DEFAULT_LOG_PREFIX) else given;
    if Blank(cp.logFile) then Err(LogFileRequired)
    else if requireHBA && Blank(cp.hbaConfFile) then Err(HbaConfFileRequired)
    else Ok(cp)
  }

  function LogParserCommand(targets: seq<Postgres>, lp: Option<LogParserInput>, name: string): Result<Command, Error> {
    match ResolveLogParserInput(lp, name == UNUSED_LINES)
    case Err(e) => Err(e)
    case Ok(input) => Ok(Command(name, targets, [], Some(input)))
  }

  /** The command of one scan_commands token other than all. */
  function CommandFor(token: string, targets: seq<Postgres>, lp: Option<LogParserInput>): Result<Command, Error> {
    if token in [POSTGRES_CIS, HBA_SCANNER, GUC_DRIFT, PII_SCANNER] then Ok(Command(token, targets, [], None))
    else if token in ["ssl_check", "ssl_audit"] then Ok(Command(SSL_CHECK, targets, [], None))
    else if token in LOG_TOKENS then LogParserCommand(targets, lp, token)
    else Err(Unsupported(token))
  }

  function CommandsFor(tokens: seq<string>, targets: seq<Postgres>, lp: Option<LogParserInput>): Result<seq<Command>, Error> {
    if tokens == [] then Ok([])
    else
      match CommandFor(tokens[0], targets, lp)
      case Err(e) => Err(e)
      case Ok(cmd) =>
        match CommandsFor(tokens[1..], targets, lp)
        case Err(e) => Err(e)
        case Ok(rest) => Ok([cmd] + rest)
  }

  /** The tokens that are expanded; CIS and HBA checks when there are none. */
  function EffectiveTokens(raw: string): seq<string> {
    if Tokens(raw) == [] then [POSTGRES_CIS, HBA_SCANNER] else Tokens(raw)
  }

  function Commands(pg: Option<Postgres>, raw: string, lp: Option<LogParserInput>): Result<seq<Command>, Error> {
    if Targets(pg) == [] then Err(PostgresMissing)
    else if ALL in EffectiveTokens(raw) then
      match ResolveLogParserInput(lp, true)
      case Err(e) => Err(e)
      case Ok(input) => Ok([Command(ALL, Targets(pg), [], Some(input))])
    else CommandsFor(EffectiveTokens(raw), Targets(pg), lp)
  }

  method CommandsFromPostgres(pg: Option<Postgres>, raw: string, lp: Option<LogParserInput>)
    returns (r: Result<seq<Command>, Error>)
    ensures r == Commands(pg, raw, lp)
  {
    hide Tokens, CommandFor, ResolveLogParserInput, Targets;
    var targets := ExpandTargets(pg);
    if targets == [] {
      return Err(PostgresMissing);
    }
    var commands := ParseScanCommands(raw);
    if commands == [] {
      commands := [POSTGRES_CIS, HBA_SCANNER];
    }
    if ALL in commands {
      var resolved := ResolveLogParserInput(lp, true);
      if resolved.Err? {
        return Err(resolved.error);
      }
      return Ok([Command(ALL, targets, [], Some(resolved.value))]);
    }
    var out: seq<Command> := [];
    ghost var whole := CommandsFor(commands, targets, lp);
    assert commands[0..] == commands;
    BeforeStep(out, Command("", [], [], None), whole);
    for k := 0 to |commands|
      invariant whole == Before(out, CommandsFor(commands[k..], targets, lp))
    {
      assert commands[k..][0] == commands[k] && commands[k..][1..] == commands[k + 1..];
      var c := CommandFor(commands[k], targets, lp);
      if c.Err? {
        return Err(c.error);
      }
      BeforeStep(out, c.value, CommandsFor(commands[k + 1..], targets, lp));
      out := out + [c.value];
    }
    assert commands[|commands|..] == [];
    BeforeStep(out, Command("", [], [], None), whole);
    r := Ok(out);
  }

  predicate IsLogName(name: string) {
    name == "inactive_users" || name == "unique_ip" || name == "unused_lines" || name == "password_leak_scanner"
  }

  predicate IsPlainName(name: string) {
    name == "postgres_cis" || name == "hba_scanner" || name == "guc_drift" || name == "pii_scanner"
  }

  /** The log parser section with the prefix "%t " where it has none. */
  function WithPrefix(lp: LogParserInput): LogParserInput {
    if Text.TrimSpace(lp.prefix) == "" then lp.(prefix := "%t ") else lp
  }

  lemma InputMeaning(lp: Option<LogParserInput>, requireHBA: bool)
    ensures ResolveLogParserInput(lp, requireHBA) ==
              if lp.None? || Text.TrimSpace(lp.value.logFile) == "" then Err(LogFileRequired)
              else if requireHBA && Text.TrimSpace(lp.value.hbaConfFile) == "" then Err(HbaConfFileRequired)
              else Ok(WithPrefix(lp.value))
  {
    assert Text.TrimSpace("") == "";
  }

  /** Which command a token becomes: each of four names its own, both SSL names the SSL check, a log parser name its own
      with the section, which needs a log file and for unused_lines a file of rules. No other token is known. */
  lemma CommandMeaning(token: string, targets: seq<Postgres>, lp: Option<LogParserInput>)
    ensures IsPlainName(token) ==> CommandFor(token, targets, lp) == Ok(Command(token, targets, [], None))
    ensures token == "ssl_check" || token == "ssl_audit" ==>
              CommandFor(token, targets, lp) == Ok(Command("ssl_check", targets, [], None))
    ensures IsLogName(token) ==>
              var r := CommandFor(token, targets, lp);
              if lp.None? || Text.TrimSpace(lp.value.logFile) == "" then r == Err(LogFileRequired)
              else if token == "unused_lines" && Text.TrimSpace(lp.value.hbaConfFile) == "" then r == Err(HbaConfFileRequired)
              else r == Ok(Command(token, targets, [], Some(WithPrefix(lp.value))))
    ensures !IsPlainName(token) && token != "ssl_check" && token != "ssl_audit" && !IsLogName(token) ==>
              CommandFor(token, targets, lp) == Err(Unsupported(token))
  {
    hide Text.TrimSpace, ResolveLogParserInput;
    InputMeaning(lp, token == UNUSED_LINES);
  }

  /** Token by token, up to the first error. */
  lemma {:induction false} EachToken(tokens: seq<string>, targets: seq<Postgres>, lp: Option<LogParserInput>)
    ensures match CommandsFor(tokens, targets, lp)
            case Ok(cmds) =>
              && |cmds| == |tokens|
              && forall i :: 0 <= i < |tokens| ==> CommandFor(tokens[i], targets, lp) == Ok(cmds[i])
            case Err(e) =>
              exists i :: && 0 <= i < |tokens| && CommandFor(tokens[i], targets, lp) == Err(e)
                          && forall j :: 0 <= j < i ==> CommandFor(tokens[j], targets, lp).Ok?
  {
    hide CommandFor;
    if tokens != [] && CommandFor(tokens[0], targets, lp).Ok? {
      EachToken(tokens[1..], targets, lp);
      if CommandsFor(tokens, targets, lp).Err? {
        var i :| && 0 <= i < |tokens[1..]|
                 && CommandFor(tokens[1..][i], targets, lp) == Err(CommandsFor(tokens, targets, lp).error)
                 && forall j :: 0 <= j < i ==> CommandFor(tokens[1..][j], targets, lp).Ok?;
        forall j | 0 <= j < i + 1 ensures CommandFor(tokens[j], targets, lp).Ok? {
          assert j > 0 ==> tokens[j] == tokens[1..][j - 1];
        }
        assert tokens[i + 1] == tokens[1..][i];
      }
    }
  }

  /** What scan_commands becomes for the targets: the one command all where all is among the tokens, the CIS and HBA
      commands where there are none, else the commands of the tokens in order or the first error. */
  lemma CommandsMeaning(pg: Option<Postgres>, raw: string, lp: Option<LogParserInput>)
    ensures var r, tokens, targets := Commands(pg, raw, lp), Tokens(raw), Targets(pg);
            && (targets == [] ==> r == Err(PostgresMissing))
            && (targets != [] && "all" in tokens ==>
                  if lp.None? || Text.TrimSpace(lp.value.logFile) == "" then r == Err(LogFileRequired)
                  else if Text.TrimSpace(lp.value.hbaConfFile) == "" then r == Err(HbaConfFileRequired)
                  else r == Ok([Command("all", targets, [], Some(WithPrefix(lp.value)))]))
            && (targets != [] && tokens == [] ==>
                  r == Ok([Command("postgres_cis", targets, [], None), Command("hba_scanner", targets, [], None)]))
            && (targets != [] && tokens != [] && "all" !in tokens ==> r == CommandsFor(tokens, targets, lp))
  {
    hide Tokens, Targets, Text.TrimSpace, ResolveLogParserInput, CommandFor;
    InputMeaning(lp, true);
    if Tokens(raw) == [] {
      DefaultCommands(Targets(pg), lp);
      assert ALL !in [POSTGRES_CIS, HBA_SCANNER];
    }
  }

  lemma DefaultCommands(targets: seq<Postgres>, lp: Option<LogParserInput>)
    ensures CommandsFor([POSTGRES_CIS, HBA_SCANNER], targets, lp)
         == Ok([Command("postgres_cis", targets, [], None), Command("hba_scanner", targets, [], None)])
  {
    hide ResolveLogParserInput;
    CommandMeaning("postgres_cis", targets, lp);
    CommandMeaning("hba_scanner", targets, lp);
    hide CommandFor;
    var tokens := [POSTGRES_CIS, HBA_SCANNER];
    assert tokens[1..] == [HBA_SCANNER] && [HBA_SCANNER][1..] == [];
    var first, second := Command("postgres_cis", targets, [], None), Command("hba_scanner", targets, [], None);
    assert CommandsFor([HBA_SCANNER], targets, lp) == Ok([second] + []);
    assert [second] + [] == [second] && [first] + [second] == [first, second];
  }

  // ----- Buckets -----

  datatype Bucket = Main | Pii | Log

  function BucketOf(name: string): Bucket {
    if name == PII_SCANNER then Pii else if name in LOG_TOKENS then Log else Main
  }

  function Only(cmds: seq<Command>, b: Bucket): seq<Command> {
    if cmds == [] then [] else OnlyIn(cmds[0], b) + Only(cmds[1..], b)
  }

  function OnlyIn(cmd: Command, b: Bucket): seq<Command> {
    if BucketOf(cmd.name) == b then [cmd] else []
  }

  lemma {:induction false} OnlyJoin(a: seq<Command>, c: seq<Command>, b: Bucket)
    ensures Only(a + c, b) == Only(a, b) + Only(c, b)
  {
    if a == [] {
      assert a + c == c;
    } else {
      hide OnlyIn;
      OnlyJoin(a[1..], c, b);
      Regroup(OnlyIn(a[0], b), Only(a[1..], b), Only(c, b));
      assert (a + c)[0] == a[0] && (a + c)[1..] == a[1..] + c;
    }
  }

  /** A bucket holds a command exactly as often as the list does, if it is the command's own. */
  lemma {:induction false} OnlyCount(cmds: seq<Command>, b: Bucket, x: Command)
    ensures Count(Only(cmds, b), x) == if BucketOf(x.name) == b then Count(cmds, x) else 0
  {
    if cmds != [] {
      hide BucketOf;
      OnlyCount(cmds[1..], b, x);
      CountJoin(OnlyIn(cmds[0], b), Only(cmds[1..], b), x);
    }
  }

  lemma NothingOnly()
    ensures forall b :: Only([], b) == []
  {
  }

  lemma OnlyOneMore(cmds: seq<Command>, k: nat, b: Bucket)
    requires k < |cmds|
    ensures Only(cmds[..k + 1], b) == Only(cmds[..k], b) + OnlyIn(cmds[k], b)
  {
    hide OnlyIn;
    assert cmds[..k + 1] == cmds[..k] + [cmds[k]];
    OnlyJoin(cmds[..k], [cmds[k]], b);
    assert [cmds[k]][1..] == [] && OnlyIn(cmds[k], b) + [] == OnlyIn(cmds[k], b);
  }

  method PartitionScheduledCommands(cmds: seq<Command>) returns (main: seq<Command>, pii: seq<Command>, log: seq<Command>)
    ensures main == Only(cmds, Main) && pii == Only(cmds, Pii) && log == Only(cmds, Log)
  {
    hide Only;
    main, pii, log := [], [], [];
    NothingOnly();
    for k := 0 to |cmds|
      invariant main == Only(cmds[..k], Main) && pii == Only(cmds[..k], Pii) && log == Only(cmds[..k], Log)
    {
      OnlyOneMore(cmds, k, Main);
      OnlyOneMore(cmds, k, Pii);
      OnlyOneMore(cmds, k, Log);
      if cmds[k].name == PII_SCANNER {
        pii := pii + [cmds[k]];
      } else if cmds[k].name in LOG_TOKENS {
        log := log + [cmds[k]];
      } else {
        main := main + [cmds[k]];
      }
    }
    assert cmds[..|cmds|] == cmds;
  }

  /** What expandAllScheduleCommands makes of all: a core command, a PII command and the four log parser commands. */
  function AllLogCommands(names: seq<string>, targets: seq<Postgres>, lp: Option<LogParserInput>): Result<seq<Command>, Error> {
    if names == [] then Ok([])
    else
      match LogParserCommand(targets, lp, names[0])
      case Err(e) => Err(e)
      case Ok(cmd) =>
        match AllLogCommands(names[1..], targets, lp)
        case Err(e) => Err(e)
        case Ok(rest) => Ok([cmd] + rest)
  }

  method ExpandAllScheduleCommands(c: Config)
    returns (r: Result<(seq<Command>, seq<Command>, seq<Command>), Error>)
    ensures var targets := Targets(c.postgres);
            var logs := AllLogCommands(LOG_TOKENS, targets, c.logParser);
            r == if targets == [] then Err(PostgresMissing)
                 else if logs.Err? then Err(logs.error)
                 else Ok(([Command(ALL_CORE, targets, [], None)], [Command(PII_SCANNER, targets, [], None)], logs.value))
  {
    hide LogParserCommand, Targets;
    var targets := ExpandTargets(c.postgres);
    if targets == [] {
      return Err(PostgresMissing);
    }
    var log: seq<Command> := [];
    ghost var whole := AllLogCommands(LOG_TOKENS, targets, c.logParser);
    var names := LOG_TOKENS;
    assert names[0..] == LOG_TOKENS;
    BeforeStep(log, Command("", [], [], None), whole);
    for k := 0 to |names|
      invariant whole == Before(log, AllLogCommands(names[k..], targets, c.logParser))
    {
      assert names[k..][0] == names[k] && names[k..][1..] == names[k + 1..];
      var cmd := LogParserCommand(targets, c.logParser, names[k]);
      if cmd.Err? {
        return Err(cmd.error);
      }
      BeforeStep(log, cmd.value, AllLogCommands(names[k + 1..], targets, c.logParser));
      log := log + [cmd.value];
    }
    assert names[|names|..] == [];
    BeforeStep(log, Command("", [], [], None), whole);
    return Ok(([Command(ALL_CORE, targets, [], None)], [Command(PII_SCANNER, targets, [], None)], log));
  }

  // ----- Assigning commands to schedules -----

  datatype Assignment = Assignment(schedule: string, commands: seq<Command>)

  /** The commands of one schedule, in order. */
  function Gather(list: seq<Assignment>, s: string): seq<Command> {
    if list == [] then [] else GatherOne(list[0], s) + Gather(list[1..], s)
  }

  function GatherOne(a: Assignment, s: string): seq<Command> {
    if a.schedule == s then a.commands else []
  }

  /** The map holds each schedule's commands, and no schedule without commands. */
  ghost predicate Maps(out: map<string, seq<Command>>, list: seq<Assignment>) {
    && (forall s :: s in out <==> Gather(list, s) != [])
    && (forall s :: s in out ==> out[s] == Gather(list, s))
  }

  lemma {:induction false} GatherJoin(a: seq<Assignment>, b: seq<Assignment>, s: string)
    ensures Gather(a + b, s) == Gather(a, s) + Gather(b, s)
  {
    if a == [] {
      assert a + b == b;
    } else {
      hide GatherOne;
      GatherJoin(a[1..], b, s);
      assert (a + b)[0] == a[0] && (a + b)[1..] == a[1..] + b;
      Regroup(GatherOne(a[0], s), Gather(a[1..], s), Gather(b, s));
    }
  }

  lemma GatherLast(list: seq<Assignment>, a: Assignment, s: string)
    ensures Gather(list + [a], s) == Gather(list, s) + if a.schedule == s then a.commands else []
  {
    GatherJoin(list, [a], s);
    assert Gather([a], s) == GatherOne(a, s) + Gather([], s) by {
      assert [a][1..] == [];
    }
    assert GatherOne(a, s) + [] == GatherOne(a, s);
  }

  /** Nothing is assigned to a blank schedule, and an empty list of commands leaves no entry behind. */
  method AssignScheduleCommands(out: map<string, seq<Command>>, sched: string, cmds: seq<Command>, ghost list: seq<Assignment>)
    returns (after: map<string, seq<Command>>)
    requires Maps(out, list)
    ensures Maps(after, list + [Assignment(sched, if Blank(sched) then [] else cmds)])
  {
    hide Blank, Maps;
    if Blank(sched) || |cmds| == 0 {
      EmptyAssignment(out, list, Assignment(sched, if Blank(sched) then [] else cmds));
      return out;
    }
    after := out[sched := (if sched in out then out[sched] else []) + cmds];
    OneMoreAssignment(out, list, sched, cmds);
  }

  lemma OneMoreAssignment(out: map<string, seq<Command>>, list: seq<Assignment>, sched: string, cmds: seq<Command>)
    requires Maps(out, list) && cmds != []
    ensures Maps(out[sched := (if sched in out then out[sched] else []) + cmds], list + [Assignment(sched, cmds)])
  {
    hide Gather;
    forall s ensures Gather(list + [Assignment(sched, cmds)], s) == Gather(list, s) + if s == sched then cmds else [] {
      GatherLast(list, Assignment(sched, cmds), s);
    }
    assert forall s :: Gather(list, s) + [] == Gather(list, s);
    assert [] + cmds == cmds;
  }

  lemma EmptyAssignment(out: map<string, seq<Command>>, list: seq<Assignment>, a: Assignment)
    requires Maps(out, list) && a.commands == []
    ensures Maps(out, list + [a])
  {
    forall s ensures Gather(list + [a], s) == Gather(list, s) {
      GatherLast(list, a, s);
    }
  }

  predicate CollectorScheduleReady(c: Config) {
    c.postgres.Some? && !Blank(c.schedule) && !Blank(c.scanCommands)
  }

  function LogParserSchedule(c: Config): string {
    if c.logParser.None? then "" else Text.TrimSpace(c.logParser.value.schedule)
  }

  predicate SeparatePii(c: Config) {
    Text.TrimSpace(c.piiSchedule) != "" && (PII_SCANNER in Tokens(c.scanCommands) || ALL in Tokens(c.scanCommands))
  }

  predicate SeparateLog(c: Config) {
    && LogParserSchedule(c) != ""
    && (ALL in Tokens(c.scanCommands) || exists t :: t in Tokens(c.scanCommands) && t in LOG_TOKENS)
  }

  /** The three schedules with their buckets, where a bucket without a schedule of its own joins the main one. */
  function Slots(c: Config, main: seq<Command>, pii: seq<Command>, log: seq<Command>): seq<Assignment> {
    [Assignment(Text.TrimSpace(c.schedule),
                main + (if SeparatePii(c) then [] else pii) + if SeparateLog(c) then [] else log),
     Assignment(Text.TrimSpace(c.piiSchedule), if SeparatePii(c) then pii else []),
     Assignment(LogParserSchedule(c), if SeparateLog(c) then log else [])]
  }

  /** What the [collector] section assigns. */
  function ScanAssignments(c: Config): Result<seq<Assignment>, Error> {
    if !CollectorScheduleReady(c) then Ok([])
    else
      match Commands(c.postgres, c.scanCommands, c.logParser)
      case Err(e) => Err(e)
      case Ok(cmds) =>
        if !SeparatePii(c) && !SeparateLog(c) then Ok([Assignment(Text.TrimSpace(c.schedule), cmds)])
        else if ALL in Tokens(c.scanCommands) then
          var targets := Targets(c.postgres);
          var logs := AllLogCommands(LOG_TOKENS, targets, c.logParser);
          if logs.Err? then Err(logs.error)
          else Ok(Slots(c, [Command(ALL_CORE, targets, [], None)], [Command(PII_SCANNER, targets, [], None)], logs.value))
        else Ok(Slots(c, Only(cmds, Main), Only(cmds, Pii), Only(cmds, Log)))
  }

  /** What the [[crons]] entries from the i-th on assign, each of which must not run more than daily. */
  function LegacyAssignments(crons: seq<Cron>, runsDaily: string -> Option<bool>, i: nat): Result<seq<Assignment>, Error>
    requires i <= |crons|
    decreases |crons| - i
  {
    if i == |crons| then Ok([])
    else
      var sched := Text.TrimSpace(crons[i].schedule);
      if sched == "" then Err(ScheduleRequired(i + 1))
      else if runsDaily(sched).None? then Err(BadSchedule(i + 1))
      else if !runsDaily(sched).value then Err(TooFrequent(i + 1))
      else
        match LegacyAssignments(crons, runsDaily, i + 1)
        case Err(e) => Err(e)
        case Ok(rest) => Ok([Assignment(sched, crons[i].commands)] + rest)
  }

  function Assignments(c: Config, runsDaily: string -> Option<bool>): Result<seq<Assignment>, Error> {
    match ScanAssignments(c)
    case Err(e) => Err(e)
    case Ok(scan) => Before(scan, LegacyAssignments(c.crons, runsDaily, 0))
  }

  method MergeLegacyCrons(c: Config, runsDaily: string -> Option<bool>, before: map<string, seq<Command>>,
                          ghost scan: seq<Assignment>)
    returns (r: Result<map<string, seq<Command>>, Error>)
    requires Maps(before, scan)
    ensures match Before(scan, LegacyAssignments(c.crons, runsDaily, 0))
            case Err(e) => r == Err(e)
            case Ok(list) => r.Ok? && Maps(r.value, list)
  {
    hide Maps;
    var out := before;
    ghost var done := scan;
    for i := 0 to |c.crons|
      invariant Maps(out, done)
      invariant Before(scan, LegacyAssignments(c.crons, runsDaily, 0)) == Before(done, LegacyAssignments(c.crons, runsDaily, i))
    {
      var sched := Text.TrimSpace(c.crons[i].schedule);
      if sched == "" {
        return Err(ScheduleRequired(i + 1));
      }
      var ok := runsDaily(sched);
      if ok.None? {
        return Err(BadSchedule(i + 1));
      }
      if !ok.value {
        return Err(TooFrequent(i + 1));
      }
      var a := Assignment(sched, c.crons[i].commands);
      BeforeStep(done, a, LegacyAssignments(c.crons, runsDaily, i + 1));
      if |a.commands| == 0 {
        EmptyAssignment(out, done, a);
      } else {
        Text.TrimSpaceIdempotent(c.crons[i].schedule);
        out := AssignScheduleCommands(out, sched, a.commands, done);
      }
      done := done + [a];
    }
    BeforeStep(done, Assignment("", []), LegacyAssignments(c.crons, runsDaily, |c.crons|));
    r := Ok(out);
  }

  method BuildCollectorScheduleMap(c: Config, runsDaily: string -> Option<bool>)
    returns (r: Result<map<string, seq<Command>>, Error>)
    ensures match Assignments(c, runsDaily)
            case Err(e) => r == Err(e)
            case Ok(list) => r.Ok? && Maps(r.value, list)
  {
    hide Maps, Commands, Targets, AllLogCommands, LegacyAssignments, Only;
    var out: map<string, seq<Command>> := map[];
    ghost var scan: seq<Assignment> := [];
    NothingAssigned();
    if CollectorScheduleReady(c) {
      var allCmds := CommandsFromPostgres(c.postgres, c.scanCommands, c.logParser);
      if allCmds.Err? {
        return Err(allCmds.error);
      }
      CommandsHaveTargets(c);
      var collectorSched := Text.TrimSpace(c.schedule);
      Text.TrimSpaceIdempotent(c.schedule);
      if !SeparatePii(c) && !SeparateLog(c) {
        out := AssignScheduleCommands(out, collectorSched, allCmds.value, []);
        scan := [Assignment(collectorSched, allCmds.value)];
        assert [] + scan == scan;
      } else {
        var main, pii, log;
        if ALL in Tokens(c.scanCommands) {
          var buckets := ExpandAllScheduleCommands(c);
          if buckets.Err? {
            return Err(buckets.error);
          }
          main, pii, log := buckets.value.0, buckets.value.1, buckets.value.2;
        } else {
          main, pii, log := PartitionScheduledCommands(allCmds.value);
        }
        out := AssignBuckets(c, main, pii, log);
        scan := Slots(c, main, pii, log);
      }
    }
    assert ScanAssignments(c) == Ok(scan);
    r := MergeLegacyCrons(c, runsDaily, out, scan);
  }

  lemma CommandsHaveTargets(c: Config)
    requires Commands(c.postgres, c.scanCommands, c.logParser).Ok?
    ensures Targets(c.postgres) != []
  {
  }

  lemma NothingAssigned()
    ensures Maps(map[], [])
  {
  }

  method AssignBuckets(c: Config, main: seq<Command>, pii: seq<Command>, log: seq<Command>)
    returns (out: map<string, seq<Command>>)
    requires !Blank(c.schedule)
    ensures Maps(out, Slots(c, main, pii, log))
  {
    hide Maps, Tokens;
    NothingAssigned();
    Text.TrimSpaceIdempotent(c.schedule);
    Text.TrimSpaceIdempotent(c.piiSchedule);
    if c.logParser.Some? {
      Text.TrimSpaceIdempotent(c.logParser.value.schedule);
    }
    var mainCmds, piiCmds, logCmds := main, pii, log;
    if !SeparatePii(c) {
      mainCmds, piiCmds := mainCmds + piiCmds, [];
    }
    if !SeparateLog(c) {
      mainCmds, logCmds := mainCmds + logCmds, [];
    }
    out := AssignScheduleCommands(map[], Text.TrimSpace(c.schedule), mainCmds, []);
    var first := Assignment(Text.TrimSpace(c.schedule), mainCmds);
    assert [] + [first] == [first];
    out := AssignScheduleCommands(out, Text.TrimSpace(c.piiSchedule), piiCmds, [first]);
    var second := Assignment(Text.TrimSpace(c.piiSchedule), piiCmds);
    assert [first] + [second] == [first, second];
    out := AssignScheduleCommands(out, LogParserSchedule(c), logCmds, [first, second]);
    assert main + [] == main && main + pii + [] == main + pii && main + [] + log == main + log;
    assert main + [] + [] == main;
    assert Slots(c, main, pii, log) == [first, second] + [Assignment(LogParserSchedule(c), logCmds)];
  }

  // ----- Conservation and routing -----

  /** Every assigned command. */
  function Everything(list: seq<Assignment>): seq<Command> {
    if list == [] then [] else list[0].commands + Everything(list[1..])
  }

  /** How often a command occurs over some of the schedules of a map. */
  ghost function SumOver(out: map<string, seq<Command>>, keys: set<string>, x: Command): nat
    requires keys <= out.Keys
  {
    if keys == {} then 0 else var s :| s in keys; Count(out[s], x) + SumOver(out, keys - {s}, x)
  }

  ghost function SumGather(list: seq<Assignment>, keys: set<string>, x: Command): nat {
    if keys == {} then 0 else var s :| s in keys; Count(Gather(list, s), x) + SumGather(list, keys - {s}, x)
  }

  lemma {:induction false} SumIsGather(out: map<string, seq<Command>>, list: seq<Assignment>, keys: set<string>, x: Command)
    requires Maps(out, list) && keys <= out.Keys
    ensures SumOver(out, keys, x) == SumGather(list, keys, x)
    decreases keys
  {
    if keys != {} {
      var s :| s in keys && SumOver(out, keys, x) == Count(out[s], x) + SumOver(out, keys - {s}, x);
      SumIsGather(out, list, keys - {s}, x);
      SumGatherPick(list, keys, x, s);
    }
  }

  /** The sum does not depend on which schedule is taken first. */
  lemma {:induction false} SumGatherPick(list: seq<Assignment>, keys: set<string>, x: Command, s: string)
    requires s in keys
    ensures SumGather(list, keys, x) == Count(Gather(list, s), x) + SumGather(list, keys - {s}, x)
    decreases keys
  {
    hide Gather, Count;
    var t :| t in keys && SumGather(list, keys, x) == Count(Gather(list, t), x) + SumGather(list, keys - {t}, x);
    if t != s {
      SumGatherPick(list, keys - {t}, x, s);
      SumGatherPick(list, keys - {s}, x, t);
      assert keys - {t} - {s} == keys - {s} - {t};
    }
  }

  lemma {:induction false} SumGatherCons(a: Assignment, rest: seq<Assignment>, keys: set<string>, x: Command)
    ensures SumGather([a] + rest, keys, x)
         == SumGather(rest, keys, x) + if a.schedule in keys then Count(a.commands, x) else 0
    decreases keys
  {
    hide Gather, Count;
    if keys != {} {
      var s :| s in keys;
      SumGatherPick([a] + rest, keys, x, s);
      SumGatherPick(rest, keys, x, s);
      SumGatherCons(a, rest, keys - {s}, x);
      GatherCons(a, rest, s, x);
    }
  }

  lemma GatherCons(a: Assignment, rest: seq<Assignment>, s: string, x: Command)
    ensures Count(Gather([a] + rest, s), x) == Count(Gather(rest, s), x) + if a.schedule == s then Count(a.commands, x) else 0
  {
    assert ([a] + rest)[1..] == rest;
    CountJoin(GatherOne(a, s), Gather(rest, s), x);
  }

  lemma {:induction false} SumGatherAll(list: seq<Assignment>, keys: set<string>, x: Command)
    requires forall i :: 0 <= i < |list| && list[i].commands != [] ==> list[i].schedule in keys
    ensures SumGather(list, keys, x) == Count(Everything(list), x)
  {
    if list == [] {
      SumGatherNothing(keys, x);
    } else {
      SumGatherAll(list[1..], keys, x);
      SumGatherCons(list[0], list[1..], keys, x);
      assert list == [list[0]] + list[1..];
      CountJoin(list[0].commands, Everything(list[1..]), x);
    }
  }

  lemma {:induction false} SumGatherNothing(keys: set<string>, x: Command)
    ensures SumGather([], keys, x) == 0
    decreases keys
  {
    if keys != {} {
      var s :| s in keys;
      SumGatherPick([], keys, x, s);
      SumGatherNothing(keys - {s}, x);
    }
  }

  lemma {:induction false} AssignedIsGathered(list: seq<Assignment>, i: nat)
    requires i < |list| && list[i].commands != []
    ensures Gather(list, list[i].schedule) != []
  {
    if i > 0 {
      AssignedIsGathered(list[1..], i - 1);
    }
  }

  /** No command is lost or duplicated over the schedules of the map, and none is empty. */
  lemma MapConserves(out: map<string, seq<Command>>, list: seq<Assignment>, x: Command)
    requires Maps(out, list)
    ensures SumOver(out, out.Keys, x) == Count(Everything(list), x)
    ensures forall s :: s in out ==> out[s] != []
  {
    SumIsGather(out, list, out.Keys, x);
    forall i | 0 <= i < |list| && list[i].commands != [] ensures list[i].schedule in out.Keys {
      AssignedIsGathered(list, i);
    }
    SumGatherAll(list, out.Keys, x);
  }

  /** Where a command of scan_commands belongs. */
  function Route(c: Config, name: string): string {
    if name == "pii_scanner" && Text.TrimSpace(c.piiSchedule) != "" then Text.TrimSpace(c.piiSchedule)
    else if IsLogName(name) && LogParserSchedule(c) != "" then LogParserSchedule(c)
    else Text.TrimSpace(c.schedule)
  }

  /** Every command stems from a token that names its bucket. */
  lemma {:induction false} CommandsStem(tokens: seq<string>, targets: seq<Postgres>, lp: Option<LogParserInput>, x: Command)
    requires CommandsFor(tokens, targets, lp).Ok? && ALL !in tokens
    ensures Count(CommandsFor(tokens, targets, lp).value, x) > 0 ==>
              && x.postgres == targets
              && (BucketOf(x.name).Pii? ==> PII_SCANNER in tokens)
              && (BucketOf(x.name).Log? ==> x.name in tokens && x.name in LOG_TOKENS)
  {
    if tokens != [] {
      hide ResolveLogParserInput;
      CommandsStem(tokens[1..], targets, lp, x);
      assert tokens == [tokens[0]] + tokens[1..];
    }
  }

  lemma SlotsCount(c: Config, main: seq<Command>, pii: seq<Command>, log: seq<Command>, s: string, x: Command)
    ensures Count(Gather(Slots(c, main, pii, log), s), x) ==
              (if s == Text.TrimSpace(c.schedule)
               then Count(main, x) + (if SeparatePii(c) then 0 else Count(pii, x)) + (if SeparateLog(c) then 0 else Count(log, x))
               else 0)
              + (if s == Text.TrimSpace(c.piiSchedule) && SeparatePii(c) then Count(pii, x) else 0)
              + (if s == LogParserSchedule(c) && SeparateLog(c) then Count(log, x) else 0)
  {
    hide SeparatePii, SeparateLog, LogParserSchedule;
    var slots := Slots(c, main, pii, log);
    var none: seq<Command> := [];
    var piiHere, logHere := if SeparatePii(c) then none else pii, if SeparateLog(c) then none else log;
    CountJoin(main + piiHere, logHere, x);
    CountJoin(main, piiHere, x);
    assert slots == [slots[0]] + ([slots[1]] + ([slots[2]] + []));
    GatherCons(slots[0], [slots[1]] + ([slots[2]] + []), s, x);
    GatherCons(slots[1], [slots[2]] + [], s, x);
    GatherCons(slots[2], [], s, x);
  }

  /** Without all, every command of scan_commands is at its own schedule and nowhere else. */
  lemma ScanRouting(c: Config, s: string, x: Command)
    requires c.postgres.Some? && Text.TrimSpace(c.schedule) != "" && Text.TrimSpace(c.scanCommands) != ""
    requires ALL !in Tokens(c.scanCommands)
    requires Commands(c.postgres, c.scanCommands, c.logParser).Ok?
    ensures ScanAssignments(c).Ok?
    ensures Count(Gather(ScanAssignments(c).value, s), x) ==
              if s == Route(c, x.name) then Count(Commands(c.postgres, c.scanCommands, c.logParser).value, x) else 0
  {
    hide Tokens, Targets, ResolveLogParserInput, CommandFor, Only, Gather, Count;
    var cmds := Commands(c.postgres, c.scanCommands, c.logParser).value;
    CommandsStem(EffectiveTokens(c.scanCommands), Targets(c.postgres), c.logParser, x);
    DefaultsAreMain();
    if !SeparatePii(c) && !SeparateLog(c) {
      GatherCons(Assignment(Text.TrimSpace(c.schedule), cmds), [], s, x);
      assert [Assignment(Text.TrimSpace(c.schedule), cmds)] + [] == [Assignment(Text.TrimSpace(c.schedule), cmds)];
      GatherNothing(s, x);
    } else {
      SlotsCount(c, Only(cmds, Main), Only(cmds, Pii), Only(cmds, Log), s, x);
      OnlyCount(cmds, Main, x);
      OnlyCount(cmds, Pii, x);
      OnlyCount(cmds, Log, x);
    }
  }

  lemma GatherNothing(s: string, x: Command)
    ensures Count(Gather([], s), x) == 0
  {
  }

  lemma DefaultsAreMain()
    ensures PII_SCANNER !in [POSTGRES_CIS, HBA_SCANNER]
    ensures forall t :: t in LOG_TOKENS ==> t !in [POSTGRES_CIS, HBA_SCANNER]
  {
  }

  /** The commands of the [[crons]] entries at one schedule. */
  function LegacyAt(crons: seq<Cron>, s: string): seq<Command> {
    if crons == [] then []
    else (if Text.TrimSpace(crons[0].schedule) == s then crons[0].commands else []) + LegacyAt(crons[1..], s)
  }

  function LegacyCommands(crons: seq<Cron>): seq<Command> {
    if crons == [] then [] else crons[0].commands + LegacyCommands(crons[1..])
  }

  lemma {:induction false} LegacyMeaning(crons: seq<Cron>, runsDaily: string -> Option<bool>, i: nat, s: string)
    requires i <= |crons| && LegacyAssignments(crons, runsDaily, i).Ok?
    ensures Gather(LegacyAssignments(crons, runsDaily, i).value, s) == LegacyAt(crons[i..], s)
    ensures Everything(LegacyAssignments(crons, runsDaily, i).value) == LegacyCommands(crons[i..])
    decreases |crons| - i
  {
    hide Text.TrimSpace;
    if i < |crons| {
      LegacyMeaning(crons, runsDaily, i + 1, s);
      assert crons[i..][1..] == crons[i + 1..];
      var rest := LegacyAssignments(crons, runsDaily, i + 1).value;
      var a := Assignment(Text.TrimSpace(crons[i].schedule), crons[i].commands);
      assert ([a] + rest)[1..] == rest;
    }
  }

  lemma {:induction false} EverythingJoin(a: seq<Assignment>, b: seq<Assignment>)
    ensures Everything(a + b) == Everything(a) + Everything(b)
  {
    if a == [] {
      assert a + b == b;
    } else {
      EverythingJoin(a[1..], b);
      assert (a + b)[0] == a[0] && (a + b)[1..] == a[1..] + b;
      Regroup(a[0].commands, Everything(a[1..]), Everything(b));
    }
  }

  /** The commands that scan_commands expands to. */
  function ScanCommands(c: Config): seq<Command>
    requires CollectorScheduleReady(c) ==> Commands(c.postgres, c.scanCommands, c.logParser).Ok?
  {
    if CollectorScheduleReady(c) then Commands(c.postgres, c.scanCommands, c.logParser).value else []
  }

  /** The whole map, without all: at every schedule the scan commands routed there and the legacy commands of that
      schedule; over all schedules, as often as they were configured; never an empty list. */
  lemma ScheduleMapExact(c: Config, runsDaily: string -> Option<bool>, out: map<string, seq<Command>>, s: string, x: Command)
    requires ALL !in Tokens(c.scanCommands)
    requires Assignments(c, runsDaily).Ok? && Maps(out, Assignments(c, runsDaily).value)
    ensures CollectorScheduleReady(c) ==> Commands(c.postgres, c.scanCommands, c.logParser).Ok?
    ensures (if s in out then Count(out[s], x) else 0)
         == (if s == Route(c, x.name) then Count(ScanCommands(c), x) else 0) + Count(LegacyAt(c.crons, s), x)
    ensures SumOver(out, out.Keys, x) == Count(ScanCommands(c), x) + Count(LegacyCommands(c.crons), x)
    ensures forall s :: s in out ==> out[s] != []
  {
    hide Tokens, Targets, Commands, Route, SumOver, Slots, Text.TrimSpace;
    var scan, legacy := ScanAssignments(c).value, LegacyAssignments(c.crons, runsDaily, 0).value;
    assert c.crons[0..] == c.crons;
    LegacyMeaning(c.crons, runsDaily, 0, s);
    GatherJoin(scan, legacy, s);
    CountJoin(Gather(scan, s), Gather(legacy, s), x);
    EverythingJoin(scan, legacy);
    CountJoin(Everything(scan), Everything(legacy), x);
    MapConserves(out, scan + legacy, x);
    if CollectorScheduleReady(c) {
      ScanRouting(c, s, x);
      ScanEverything(c, x);
    }
  }

  lemma ScanEverything(c: Config, x: Command)
    requires CollectorScheduleReady(c) && ALL !in Tokens(c.scanCommands)
    requires Commands(c.postgres, c.scanCommands, c.logParser).Ok?
    ensures Count(Everything(ScanAssignments(c).value), x) == Count(Commands(c.postgres, c.scanCommands, c.logParser).value, x)
  {
    hide Tokens, Targets, ResolveLogParserInput, CommandFor, Only, Count, LogParserSchedule, Text.TrimSpace;
    var cmds := Commands(c.postgres, c.scanCommands, c.logParser).value;
    var list := ScanAssignments(c).value;
    if !SeparatePii(c) && !SeparateLog(c) {
      assert list[1..] == [];
      assert cmds + [] == cmds;
    } else {
      OnlyCount(cmds, Main, x);
      OnlyCount(cmds, Pii, x);
      OnlyCount(cmds, Log, x);
      SlotsEverything(c, Only(cmds, Main), Only(cmds, Pii), Only(cmds, Log), x);
    }
  }

  lemma SlotsEverything(c: Config, main: seq<Command>, pii: seq<Command>, log: seq<Command>, x: Command)
    ensures Count(Everything(Slots(c, main, pii, log)), x) == Count(main, x) + Count(pii, x) + Count(log, x)
  {
    hide SeparatePii, SeparateLog, LogParserSchedule, Text.TrimSpace;
    var slots := Slots(c, main, pii, log);
    var a, b, d := slots[0].commands, slots[1].commands, slots[2].commands;
    assert slots[1..][1..] == [slots[2]] && [slots[2]][1..] == [];
    assert Everything([slots[2]]) == d + [];
    assert Everything(slots[1..]) == b + Everything(slots[1..][1..]);
    assert Everything(slots) == a + (b + (d + []));
    CountJoin(a, b + (d + []), x);
    CountJoin(b, d + [], x);
    CountJoin(d, [], x);
    var none: seq<Command> := [];
    var piiHere, logHere := if SeparatePii(c) then none else pii, if SeparateLog(c) then none else log;
    CountJoin(main + piiHere, logHere, x);
    CountJoin(main, piiHere, x);
  }

  // ----- The schedules of all -----

  /** Without a server, a schedule or scan commands the section assigns nothing. */
  lemma NotReady(c: Config)
    requires c.postgres.None? || Text.TrimSpace(c.schedule) == "" || Text.TrimSpace(c.scanCommands) == ""
    ensures ScanAssignments(c) == Ok([])
  {
    hide Text.TrimSpace;
  }

  function One(b: bool): nat {
    if b then 1 else 0
  }

  /** How often all brings a command to a schedule: the one command all to the main schedule where neither PII nor log
      parsing has a schedule of its own, else the core, the PII command and the four log parser commands, each to
      its own schedule or the main one. */
  function AllAt(c: Config, s: string, x: Command): nat
    requires c.logParser.Some?
  {
    var targets, lp := Targets(c.postgres), WithPrefix(c.logParser.value);
    var main, pii, log := Text.TrimSpace(c.schedule), Text.TrimSpace(c.piiSchedule), Text.TrimSpace(c.logParser.value.schedule);
    if pii == "" && log == "" then One(s == main && x == Command("all", targets, [], Some(lp)))
    else
      One(s == main && x == Command("all_core", targets, [], None))
        + One(s == (if pii == "" then main else pii) && x == Command("pii_scanner", targets, [], None))
        + One(s == (if log == "" then main else log) && IsLogName(x.name) && x == Command(x.name, targets, [], Some(lp)))
  }

  lemma {:induction false} AllLogCount(names: seq<string>, targets: seq<Postgres>, lp: LogParserInput, x: Command)
    requires AllLogCommands(names, targets, Some(lp)).Ok?
    ensures Count(AllLogCommands(names, targets, Some(lp)).value, x) ==
              if x == Command(x.name, targets, [], Some(WithPrefix(lp))) then Count(names, x.name) else 0
  {
    hide Text.TrimSpace, ResolveLogParserInput, WithPrefix;
    if names != [] {
      AllLogCount(names[1..], targets, lp, x);
      InputMeaning(Some(lp), names[0] == UNUSED_LINES);
      var cmd := LogParserCommand(targets, Some(lp), names[0]).value;
      assert AllLogCommands(names, targets, Some(lp)).value == [cmd] + AllLogCommands(names[1..], targets, Some(lp)).value;
      CountJoin([cmd], AllLogCommands(names[1..], targets, Some(lp)).value, x);
      CountJoin([names[0]], names[1..], x.name);
      assert names == [names[0]] + names[1..];
      OneCount(cmd, x);
      OneCount(names[0], x.name);
    }
  }

  lemma OneCount<T>(a: T, x: T)
    ensures Count([a], x) == One(a == x)
  {
    assert [a][1..] == [];
  }

  lemma LogNames(name: string)
    ensures Count(LOG_TOKENS, name) == One(IsLogName(name))
  {
    var tokens := LOG_TOKENS;
    assert tokens == ["inactive_users"] + (["unique_ip"] + (["unused_lines"] + ["password_leak_scanner"]));
    CountJoin(["inactive_users"], ["unique_ip"] + (["unused_lines"] + ["password_leak_scanner"]), name);
    CountJoin(["unique_ip"], ["unused_lines"] + ["password_leak_scanner"], name);
    CountJoin(["unused_lines"], ["password_leak_scanner"], name);
    OneCount("inactive_users", name);
    OneCount("unique_ip", name);
    OneCount("unused_lines", name);
    OneCount("password_leak_scanner", name);
  }

  lemma AllRouting(c: Config, s: string, x: Command)
    requires c.postgres.Some? && Text.TrimSpace(c.schedule) != "" && Text.TrimSpace(c.scanCommands) != ""
    requires "all" in Tokens(c.scanCommands) && ScanAssignments(c).Ok?
    ensures c.logParser.Some?
    ensures Count(Gather(ScanAssignments(c).value, s), x) == AllAt(c, s, x)
  {
    hide Tokens, Targets, ResolveLogParserInput, Text.TrimSpace, Gather, Count, AllLogCommands, WithPrefix;
    CommandsMeaning(c.postgres, c.scanCommands, c.logParser);
    CommandsHaveTargets(c);
    assert Tokens(c.scanCommands) != [];
    var targets, lp := Targets(c.postgres), c.logParser.value;
    if !SeparatePii(c) && !SeparateLog(c) {
      var cmd := Command("all", targets, [], Some(WithPrefix(lp)));
      var a := Assignment(Text.TrimSpace(c.schedule), [cmd]);
      assert ScanAssignments(c).value == [a] && [a] + [] == [a];
      GatherCons(a, [], s, x);
      GatherNothing(s, x);
      OneCount(cmd, x);
    } else {
      var main, pii := Command("all_core", targets, [], None), Command("pii_scanner", targets, [], None);
      var logs := AllLogCommands(LOG_TOKENS, targets, c.logParser).value;
      SlotsCount(c, [main], [pii], logs, s, x);
      OneCount(main, x);
      OneCount(pii, x);
      AllLogCount(LOG_TOKENS, targets, lp, x);
      LogNames(x.name);
    }
  }

  /** The whole map with all: at every schedule the commands that all brings there and the legacy commands. */
  lemma AllMapExact(c: Config, runsDaily: string -> Option<bool>, out: map<string, seq<Command>>, s: string, x: Command)
    requires c.postgres.Some? && Text.TrimSpace(c.schedule) != "" && Text.TrimSpace(c.scanCommands) != ""
    requires "all" in Tokens(c.scanCommands)
    requires Assignments(c, runsDaily).Ok? && Maps(out, Assignments(c, runsDaily).value)
    ensures c.logParser.Some?
    ensures (if s in out then Count(out[s], x) else 0) == AllAt(c, s, x) + Count(LegacyAt(c.crons, s), x)
    ensures forall s :: s in out ==> out[s] != []
  {
    hide Tokens, ScanAssignments, AllAt, CollectorScheduleReady;
    var scan, legacy := ScanAssignments(c).value, LegacyAssignments(c.crons, runsDaily, 0).value;
    assert c.crons[0..] == c.crons;
    LegacyMeaning(c.crons, runsDaily, 0, s);
    GatherJoin(scan, legacy, s);
    CountJoin(Gather(scan, s), Gather(legacy, s), x);
    AllRouting(c, s, x);
  }
}
