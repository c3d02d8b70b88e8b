/** Reconciling live cron entries with the wanted schedule map: reconcileSchedules and commandMapSignature of
    cmd/ciscollector/crons.go, over the entries of pkg/cron/cron.go. */
module CronReconcile {
  import opened Common
  import opened CollectorSchedules
  import Checks = ScheduledChecks

  // ----- Signatures -----

  function TargetSignature(pg: Postgres): string {
    pg.host + ":" + pg.port + "/" + pg.dbName + ";"
  }

  function TargetsSignature(targets: seq<Postgres>): string {
    if targets == [] then "" else TargetSignature(targets[0]) + TargetsSignature(targets[1..])
  }

  function LogParserSignature(logParser: Option<LogParserInput>): string {
    match logParser
    case None => ""
    case Some(lp) => lp.prefix + "|" + lp.logFile + "|" + lp.hbaConfFile
  }

  function CommandSignature(cmd: Command): string {
    cmd.name + "|" + TargetsSignature(cmd.postgres) + LogParserSignature(cmd.logParser) + "#"
  }

  function Signature(cmds: seq<Command>): string {
    if cmds == [] then "" else CommandSignature(cmds[0]) + Signature(cmds[1..])
  }

  lemma {:induction false} SignatureJoin(a: seq<Command>, b: seq<Command>)
    ensures Signature(a + b) == Signature(a) + Signature(b)
  {
    hide CommandSignature;
    if a == [] {
      assert a + b == b;
    } else {
      SignatureJoin(a[1..], b);
      assert (a + b)[0] == a[0] && (a + b)[1..] == a[1..] + b;
      Regroup(CommandSignature(a[0]), Signature(a[1..]), Signature(b));
    }
  }

  lemma {:induction false} TargetsSignatureJoin(a: seq<Postgres>, b: seq<Postgres>)
    ensures TargetsSignature(a + b) == TargetsSignature(a) + TargetsSignature(b)
  {
    hide TargetSignature;
    if a == [] {
      assert a + b == b;
    } else {
      TargetsSignatureJoin(a[1..], b);
      assert (a + b)[0] == a[0] && (a + b)[1..] == a[1..] + b;
      Regroup(TargetSignature(a[0]), TargetsSignature(a[1..]), TargetsSignature(b));
    }
  }

  method CommandMapSignature(commands: seq<Command>) returns (b: string)
    ensures b == Signature(commands)
  {
    b := "";
    for k := 0 to |commands|
      invariant b == Signature(commands[..k])
    {
      var cmd := commands[k];
      assert commands[..k + 1] == commands[..k] + [cmd];
      SignatureJoin(commands[..k], [cmd]);
      SignatureOne(cmd);
      var text := cmd.name + "|";
      for j := 0 to |cmd.postgres|
        invariant text == cmd.name + "|" + TargetsSignature(cmd.postgres[..j])
      {
        var pg := cmd.postgres[j];
        assert cmd.postgres[..j + 1] == cmd.postgres[..j] + [pg];
        TargetsSignatureJoin(cmd.postgres[..j], [pg]);
        TargetsSignatureOne(pg);
        Regroup(cmd.name + "|", TargetsSignature(cmd.postgres[..j]), TargetSignature(pg));
        text := text + (pg.host + ":" + pg.port + "/" + pg.dbName + ";");
      }
      assert cmd.postgres[..|cmd.postgres|] == cmd.postgres;
      if cmd.logParser.Some? {
        var lp := cmd.logParser.value;
        text := text + (lp.prefix + "|" + lp.logFile + "|" + lp.hbaConfFile);
      } else {
        assert text + "" == text;
      }
      assert text == cmd.name + "|" + TargetsSignature(cmd.postgres) + LogParserSignature(cmd.logParser);
      b := b + (text + "#");
    }
    assert commands[..|commands|] == commands;
  }

  lemma SignatureOne(cmd: Command)
    ensures Signature([cmd]) == CommandSignature(cmd)
  {
    hide CommandSignature;
    assert [cmd][1..] == [];
    assert CommandSignature(cmd) + "" == CommandSignature(cmd);
  }

  lemma TargetsSignatureOne(pg: Postgres)
    ensures TargetsSignature([pg]) == TargetSignature(pg)
  {
    hide TargetSignature;
    assert [pg][1..] == [];
    assert TargetSignature(pg) + "" == TargetSignature(pg);
  }

  /** Only the empty list has the empty signature, which is what an unknown schedule reads as. */
  lemma SignatureEmpty(cmds: seq<Command>)
    ensures Signature(cmds) == "" <==> cmds == []
  {
    if cmds != [] {
      assert |CommandSignature(cmds[0])| > 0;
    }
  }

  const NO_SETTINGS := ConnectionSettings("", "", "", "", false, 0, 0)

  /** What a signature sees of a target: its server and database, not how to connect to them. */
  function SeenTarget(pg: Postgres): Postgres {
    pg.(user := "", password := "", settings := NO_SETTINGS)
  }

  function SeenTargets(targets: seq<Postgres>): seq<Postgres> {
    seq(|targets|, i requires 0 <= i < |targets| => SeenTarget(targets[i]))
  }

  /** What it sees of a command: nothing of the MySQL servers and of the log parser's own schedule. */
  function Seen(cmd: Command): Command {
    cmd.(postgres := SeenTargets(cmd.postgres), mysql := [],
         logParser := if cmd.logParser.None? then None else Some(cmd.logParser.value.(schedule := "")))
  }

  function AllSeen(cmds: seq<Command>): seq<Command> {
    seq(|cmds|, i requires 0 <= i < |cmds| => Seen(cmds[i]))
  }

  /** No text holds a separator that ends it. */
  predicate Separable(cmd: Command) {
    && Without(cmd.name, {'|', '#'})
    && (forall pg :: pg in cmd.postgres ==> SeparableTarget(pg))
    && (cmd.logParser.Some? ==>
          && Without(cmd.logParser.value.prefix, {'|', ';', '#'})
          && Without(cmd.logParser.value.logFile, {'|', ';', '#'})
          && Without(cmd.logParser.value.hbaConfFile, {';', '#'}))
  }

  predicate SeparableTarget(pg: Postgres) {
    Without(pg.host, {';', '#'}) && Without(pg.port, {':', ';', '#'}) && Without(pg.dbName, {'/', ';', '#'})
  }

  predicate Without(s: string, separators: set<char>) {
    forall c :: c in separators ==> c !in s
  }

  predicate AllSeparable(cmds: seq<Command>) {
    forall cmd :: cmd in cmds ==> Separable(cmd)
  }

  /** Where the first and where the last separator of a text stand. */
  lemma SeparatorPlaces(x: string, sep: char, y: string)
    ensures var s := x + [sep] + y;
            && s[|x|] == sep && s[..|x|] == x && s[|x| + 1..] == y
            && (sep !in x ==> forall i :: 0 <= i < |x| ==> s[i] != sep)
            && (sep !in y ==> forall i :: |x| < i < |s| ==> s[i] != sep)
  {
    var s := x + [sep] + y;
    if sep !in y {
      forall i | |x| < i < |s| ensures s[i] != sep {
        assert s[i] == y[i - |x| - 1];
      }
    }
  }

  /** A text up to the first separator is determined by the whole, and so is the rest. */
  lemma FirstSeparator(a: string, b: string, sep: char, x: string, y: string)
    requires sep !in a && sep !in b && a + [sep] + x == b + [sep] + y
    ensures a == b && x == y
  {
    SeparatorPlaces(a, sep, x);
    SeparatorPlaces(b, sep, y);
  }

  /** So is a text from the last separator on. */
  lemma LastSeparator(x: string, y: string, sep: char, a: string, b: string)
    requires sep !in a && sep !in b && x + [sep] + a == y + [sep] + b
    ensures a == b && x == y
  {
    SeparatorPlaces(x, sep, a);
    SeparatorPlaces(y, sep, b);
  }

  lemma TargetExact(p: Postgres, q: Postgres, x: string, y: string)
    requires SeparableTarget(p) && SeparableTarget(q)
    requires TargetSignature(p) + x == TargetSignature(q) + y
    ensures SeenTarget(p) == SeenTarget(q) && x == y
  {
    var left, right := p.host + ":" + p.port + "/" + p.dbName, q.host + ":" + q.port + "/" + q.dbName;
    assert ';' !in left && ';' !in right;
    assert TargetSignature(p) + x == left + [';'] + x && TargetSignature(q) + y == right + [';'] + y;
    FirstSeparator(left, right, ';', x, y);
    assert left == (p.host + ":" + p.port) + ['/'] + p.dbName && right == (q.host + ":" + q.port) + ['/'] + q.dbName;
    LastSeparator(p.host + ":" + p.port, q.host + ":" + q.port, '/', p.dbName, q.dbName);
    assert p.host + ":" + p.port == p.host + [':'] + p.port && q.host + ":" + q.port == q.host + [':'] + q.port;
    LastSeparator(p.host, q.host, ':', p.port, q.port);
  }

  lemma LogParserExact(a: Option<LogParserInput>, b: Option<LogParserInput>)
    requires LogParserSignature(a) == LogParserSignature(b)
    requires a.Some? ==> Without(a.value.prefix, {'|', ';', '#'}) && Without(a.value.logFile, {'|', ';', '#'})
    requires b.Some? ==> Without(b.value.prefix, {'|', ';', '#'}) && Without(b.value.logFile, {'|', ';', '#'})
    ensures a.Some? == b.Some?
    ensures a.Some? ==> a.value.(schedule := "") == b.value.(schedule := "")
  {
    if a.Some? && b.Some? {
      var p, q := a.value, b.value;
      assert LogParserSignature(a) == p.prefix + ['|'] + (p.logFile + "|" + p.hbaConfFile);
      assert LogParserSignature(b) == q.prefix + ['|'] + (q.logFile + "|" + q.hbaConfFile);
      FirstSeparator(p.prefix, q.prefix, '|', p.logFile + "|" + p.hbaConfFile, q.logFile + "|" + q.hbaConfFile);
      assert p.logFile + "|" + p.hbaConfFile == p.logFile + ['|'] + p.hbaConfFile;
      assert q.logFile + "|" + q.hbaConfFile == q.logFile + ['|'] + q.hbaConfFile;
      FirstSeparator(p.logFile, q.logFile, '|', p.hbaConfFile, q.hbaConfFile);
    }
  }

  lemma {:induction false} TargetsExact(ps: seq<Postgres>, qs: seq<Postgres>, x: string, y: string)
    requires forall pg :: pg in ps + qs ==> SeparableTarget(pg)
    requires ';' !in x && ';' !in y
    requires TargetsSignature(ps) + x == TargetsSignature(qs) + y
    ensures SeenTargets(ps) == SeenTargets(qs) && x == y
  {
    hide TargetSignature, SeparableTarget, SeenTarget;
    assert "" + x == x && "" + y == y;
    if ps == [] && qs == [] {
    } else if ps == [] {
      EndsTarget(qs, y);
    } else if qs == [] {
      EndsTarget(ps, x);
    } else {
      Regroup(TargetSignature(ps[0]), TargetsSignature(ps[1..]), x);
      Regroup(TargetSignature(qs[0]), TargetsSignature(qs[1..]), y);
      assert ps[0] in ps + qs && qs[0] in ps + qs;
      TargetExact(ps[0], qs[0], TargetsSignature(ps[1..]) + x, TargetsSignature(qs[1..]) + y);
      assert forall pg :: pg in ps[1..] + qs[1..] ==> pg in ps + qs;
      TargetsExact(ps[1..], qs[1..], x, y);
      assert SeenTargets(ps) == [SeenTarget(ps[0])] + SeenTargets(ps[1..]);
      assert SeenTargets(qs) == [SeenTarget(qs[0])] + SeenTargets(qs[1..]);
    }
  }

  lemma {:induction false} SeenTargetsSignature(ps: seq<Postgres>)
    ensures TargetsSignature(SeenTargets(ps)) == TargetsSignature(ps)
  {
    if ps != [] {
      SeenTargetsSignature(ps[1..]);
      assert SeenTargets(ps)[1..] == SeenTargets(ps[1..]);
    }
  }

  lemma EndsTarget(ps: seq<Postgres>, x: string)
    requires ps != []
    ensures ';' in TargetsSignature(ps) + x
  {
    var first := TargetSignature(ps[0]);
    assert first[|first| - 1] == ';';
    assert (TargetsSignature(ps) + x)[|first| - 1] == ';';
  }

  lemma {:induction false} NoHash(ps: seq<Postgres>)
    requires forall pg :: pg in ps ==> SeparableTarget(pg)
    ensures '#' !in TargetsSignature(ps)
  {
    if ps != [] {
      NoHash(ps[1..]);
      var pg := ps[0];
      assert pg in ps && '#' !in pg.host + ":" + pg.port + "/" + pg.dbName + ";";
    }
  }

  lemma CommandExact(a: Command, b: Command, x: string, y: string)
    requires Separable(a) && Separable(b) && CommandSignature(a) + x == CommandSignature(b) + y
    ensures Seen(a) == Seen(b) && x == y
  {
    hide SeparableTarget, TargetsSignature;
    var ta, tb := TargetsSignature(a.postgres), TargetsSignature(b.postgres);
    var la, lb := LogParserSignature(a.logParser), LogParserSignature(b.logParser);
    NoHash(a.postgres);
    NoHash(b.postgres);
    var bodyA, bodyB := a.name + "|" + ta + la, b.name + "|" + tb + lb;
    assert CommandSignature(a) + x == bodyA + ['#'] + x && CommandSignature(b) + y == bodyB + ['#'] + y;
    FirstSeparator(bodyA, bodyB, '#', x, y);
    assert bodyA == a.name + ['|'] + (ta + la) && bodyB == b.name + ['|'] + (tb + lb);
    FirstSeparator(a.name, b.name, '|', ta + la, tb + lb);
    TargetsExact(a.postgres, b.postgres, la, lb);
    LogParserExact(a.logParser, b.logParser);
  }

  lemma SeenSignature(a: Command, b: Command)
    requires Seen(a) == Seen(b)
    ensures CommandSignature(a) == CommandSignature(b)
  {
    hide TargetsSignature;
    assert a.name == Seen(a).name && b.name == Seen(b).name;
    assert SeenTargets(a.postgres) == Seen(a).postgres && SeenTargets(b.postgres) == Seen(b).postgres;
    SeenTargetsSignature(a.postgres);
    SeenTargetsSignature(b.postgres);
    assert LogParserSignature(a.logParser) == LogParserSignature(Seen(a).logParser);
    assert LogParserSignature(b.logParser) == LogParserSignature(Seen(b).logParser);
  }

  /** A change that is not seen changes no signature, whatever the texts. */
  lemma {:induction false} UnseenSignature(a: seq<Command>, b: seq<Command>)
    requires AllSeen(a) == AllSeen(b)
    ensures Signature(a) == Signature(b)
    decreases |a|
  {
    hide CommandSignature, Seen;
    assert |AllSeen(a)| == |a| && |AllSeen(b)| == |b|;
    if a != [] {
      assert AllSeen(a)[0] == AllSeen(b)[0];
      assert AllSeen(a)[1..] == AllSeen(a[1..]) && AllSeen(b)[1..] == AllSeen(b[1..]);
      UnseenSignature(a[1..], b[1..]);
      SeenSignature(a[0], b[0]);
    }
  }

  /** Where no text holds a separator that ends it, two lists of commands have the same signature if and only if they
      differ at most in what it does not see: users, passwords and connection settings of the targets, MySQL servers,
      and the log parser's own schedule. */
  lemma {:induction false} SignatureExact(a: seq<Command>, b: seq<Command>)
    requires AllSeparable(a) && AllSeparable(b)
    ensures Signature(a) == Signature(b) <==> AllSeen(a) == AllSeen(b)
    decreases |a|
  {
    hide CommandSignature, Separable, Seen;
    if a == [] || b == [] {
      SignatureEmpty(a);
      SignatureEmpty(b);
      assert |AllSeen(a)| == |a| && |AllSeen(b)| == |b|;
    } else {
      var restA, restB := a[1..], b[1..];
      SignatureExact(restA, restB);
      assert AllSeen(a) == [Seen(a[0])] + AllSeen(restA) && AllSeen(b) == [Seen(b[0])] + AllSeen(restB);
      if Signature(a) == Signature(b) {
        CommandExact(a[0], b[0], Signature(restA), Signature(restB));
      }
      if AllSeen(a) == AllSeen(b) {
        UnseenSignature(a, b);
      }
    }
  }

  /** Which separators end which text. */
  lemma SeparableTexts(cmd: Command)
    ensures Separable(cmd) <==>
              && '|' !in cmd.name && '#' !in cmd.name
              && (forall pg :: pg in cmd.postgres ==>
                    && ';' !in pg.host && '#' !in pg.host && ':' !in pg.port && ';' !in pg.port && '#' !in pg.port
                    && '/' !in pg.dbName && ';' !in pg.dbName && '#' !in pg.dbName)
              && (cmd.logParser.Some? ==>
                    && '|' !in cmd.logParser.value.prefix && ';' !in cmd.logParser.value.prefix
                    && '#' !in cmd.logParser.value.prefix && '|' !in cmd.logParser.value.logFile
                    && ';' !in cmd.logParser.value.logFile && '#' !in cmd.logParser.value.logFile
                    && ';' !in cmd.logParser.value.hbaConfFile && '#' !in cmd.logParser.value.hbaConfFile)
  {
  }

  /** An entry is not replaced when only the MySQL servers of a command change, whatever its texts. */
  lemma SignatureIgnoresMysql(cmd: Command, servers: seq<string>)
    ensures Signature([cmd]) == Signature([cmd.(mysql := servers)])
  {
    UnseenSignature([cmd], [cmd.(mysql := servers)]);
  }

  /** Nor when only the password of a target changes. */
  lemma SignatureIgnoresPassword(cmd: Command, pg: Postgres, password: string)
    requires cmd.postgres == [pg]
    ensures Signature([cmd]) == Signature([cmd.(postgres := [pg.(password := password)])])
  {
    var rotated := cmd.(postgres := [pg.(password := password)]);
    assert SeenTargets([pg]) == SeenTargets([pg.(password := password)]);
    assert Seen(cmd) == Seen(rotated);
    assert AllSeen([cmd]) == AllSeen([rotated]);
    UnseenSignature([cmd], [rotated]);
  }

  /** Nor when a separator moves from one text to the next: prefix %m| with file f, and prefix %m with file |f. */
  lemma SignaturesCollide()
    ensures var a := Command(UNIQUE_IP, [], [], Some(LogParserInput("", "%m|", "f", "")));
            var b := Command(UNIQUE_IP, [], [], Some(LogParserInput("", "%m", "|f", "")));
            Signature([a]) == Signature([b]) && AllSeen([a]) != AllSeen([b]) && !Separable(a) && !Separable(b)
  {
    var p, q := LogParserInput("", "%m|", "f", ""), LogParserInput("", "%m", "|f", "");
    var a, b := Command(UNIQUE_IP, [], [], Some(p)), Command(UNIQUE_IP, [], [], Some(q));
    SignatureOne(a);
    SignatureOne(b);
    assert "%m|" + "|" + "f" + "|" + "" == "%m" + "|" + "|f" + "|" + "";
    assert AllSeen([a])[0] == a && AllSeen([b])[0] == b;
    assert "%m|"[2] == '|' && "|f"[0] == '|';
  }

  // ----- Live entries -----

  datatype Entry = Entry(spec: string, commands: seq<Command>)

  /** The wrapped scheduler: an entry is added when its spec parses, under an id never used before. */
  class Cron {
    const parses: string -> bool
    var entries: map<int, Entry>
    var nextID: int

    constructor (parses: string -> bool)
      ensures this.parses == parses && entries == map[] && nextID == 0
    {
      this.parses := parses;
      entries, nextID := map[], 0;
    }

    method AddFunc(spec: string, commands: seq<Command>) returns (id: Option<int>)
      modifies this
      ensures id.Some? <==> parses(spec)
      ensures id.None? ==> entries == old(entries) && nextID == old(nextID)
      ensures id.Some? ==>
        id.value == nextID == old(nextID) + 1 && entries == old(entries)[nextID := Entry(spec, commands)]
    {
      if !parses(spec) {
        return None;
      }
      nextID := nextID + 1;
      entries := entries[nextID := Entry(spec, commands)];
      return Some(nextID);
    }

    method Remove(id: int)
      modifies this
      ensures entries == old(entries) - {id} && nextID == old(nextID)
    {
      entries := entries - {id};
    }
  }

  /** The two maps of the helper agree with the live entries: every schedule has one entry of its own, registered with
      commands of its signature, and there are no others. */
  ghost predicate Consistent(parses: string -> bool, entries: map<int, Entry>, nextID: int, entryByID: map<string, int>,
                             hashByID: map<string, string>)
  {
    && entryByID.Keys == hashByID.Keys
    && (forall id :: id in entries ==>
          id <= nextID && entries[id].spec in entryByID && entryByID[entries[id].spec] == id)
    && (forall s :: s in entryByID ==>
          && parses(s) && hashByID[s] != ""
          && entryByID[s] in entries && entries[entryByID[s]].spec == s
          && Signature(entries[entryByID[s]].commands) == hashByID[s])
  }

  /** So the live entries are exactly the values of an injective map. */
  lemma ConsistentMeaning(parses: string -> bool, entries: map<int, Entry>, nextID: int, entryByID: map<string, int>,
                          hashByID: map<string, string>)
    requires Consistent(parses, entries, nextID, entryByID, hashByID)
    ensures entries.Keys == entryByID.Values && entryByID.Keys == hashByID.Keys
    ensures forall s, t :: s in entryByID && t in entryByID && entryByID[s] == entryByID[t] ==> s == t
    ensures forall s :: s in entryByID ==> Signature(entries[entryByID[s]].commands) == hashByID[s]
  {
    hide Signature;
    forall s, t | s in entryByID && t in entryByID && entryByID[s] == entryByID[t] ensures s == t {
      assert entries[entryByID[s]].spec == s && entries[entryByID[t]].spec == t;
    }
    forall id | id in entries ensures id in entryByID.Values {
      assert entryByID[entries[id].spec] == id;
    }
  }

  lemma RemovalKeepsConsistent(parses: string -> bool, entries: map<int, Entry>, nextID: int, entryByID: map<string, int>,
                               hashByID: map<string, string>, s: string)
    requires Consistent(parses, entries, nextID, entryByID, hashByID) && s in entryByID
    ensures Consistent(parses, entries - {entryByID[s]}, nextID, entryByID - {s}, hashByID - {s})
  {
    hide Signature;
    assert (entryByID - {s}).Keys == (hashByID - {s}).Keys;
  }

  lemma AdditionKeepsConsistent(parses: string -> bool, entries: map<int, Entry>, nextID: int, entryByID: map<string, int>,
                                hashByID: map<string, string>, s: string, cmds: seq<Command>)
    requires Consistent(parses, entries, nextID, entryByID, hashByID)
    requires s !in entryByID && parses(s) && cmds != []
    ensures Consistent(parses, entries[nextID + 1 := Entry(s, cmds)], nextID + 1, entryByID[s := nextID + 1],
                       hashByID[s := Signature(cmds)])
  {
    SignatureEmpty(cmds);
    hide Signature;
    assert entryByID[s := nextID + 1].Keys == hashByID[s := Signature(cmds)].Keys;
  }

  lemma RemoveMore<T>(m: map<string, T>, gone: set<string>, s: string)
    ensures m - gone - {s} == m - (gone + {s})
  {
  }

  class CronHelper {
    const c: Cron
    var entryByID: map<string, int>
    var hashByID: map<string, string>

    ghost function Now(): State
      reads this, c
    {
      State(c.entries, c.nextID, entryByID, hashByID)
    }

    ghost predicate Valid()
      reads this, c
    {
      Consistent(c.parses, c.entries, c.nextID, entryByID, hashByID)
    }

    constructor (parses: string -> bool)
      ensures Valid() && fresh(c) && entryByID == map[]
    {
      c := new Cron(parses);
      entryByID, hashByID := map[], map[];
    }

    method Drop(sched: string)
      requires Valid() && sched in entryByID
      modifies this, c
      ensures Valid() && c.nextID == old(c.nextID) && c.entries == old(c.entries) - {old(entryByID)[sched]}
      ensures entryByID == old(entryByID) - {sched} && hashByID == old(hashByID) - {sched}
    {
      hide Consistent;
      RemovalKeepsConsistent(c.parses, c.entries, c.nextID, entryByID, hashByID, sched);
      c.Remove(entryByID[sched]);
      entryByID := entryByID - {sched};
      hashByID := hashByID - {sched};
    }

    /** Entries of schedules no longer wanted are removed, the others stay as they are. */
    method RemoveDeleted(commandMap: map<string, seq<Command>>)
      requires Valid()
      modifies this, c
      ensures Valid() && c.nextID == old(c.nextID)
      ensures var gone := old(entryByID).Keys - commandMap.Keys;
              && entryByID == old(entryByID) - gone && hashByID == old(hashByID) - gone
              && (forall id :: id in c.entries ==> id in old(c.entries) && c.entries[id] == old(c.entries)[id])
              && (gone == {} ==> c.entries == old(c.entries))
    {
      hide Consistent;
      var todo := entryByID.Keys;
      ghost var gone: set<string> := {};
      ghost var byID, hashes, entries := entryByID, hashByID, c.entries;
      while todo != {}
        invariant todo <= byID.Keys && Valid() && c.nextID == old(c.nextID)
        invariant forall s :: s in gone <==> s in byID && s !in todo && s !in commandMap
        invariant entryByID == byID - gone && hashByID == hashes - gone
        invariant forall id :: id in c.entries ==> id in entries && c.entries[id] == entries[id]
        invariant gone == {} ==> c.entries == entries
        decreases |todo|
      {
        var sched := Pick(todo);
        todo := todo - {sched};
        if sched in commandMap {
          continue;
        }
        Drop(sched);
        RemoveMore(byID, gone, sched);
        RemoveMore(hashes, gone, sched);
        gone := gone + {sched};
      }
      assert gone == byID.Keys - commandMap.Keys;
    }

    /** One wanted schedule. An entry of the same signature is kept; otherwise a new entry replaces it. An existing
        entry's schedule parsed before, so a replacement cannot fail half-way. */
    method Update(sched: string, cmds: seq<Command>, newHash: string) returns (ok: bool)
      requires Valid() && cmds != [] && newHash == Signature(cmds)
      modifies this, c
      ensures Valid()
      ensures ok <==> c.parses(sched)
      ensures !ok ==> Now() == old(Now())
      ensures ok ==> Updated(sched, cmds, old(Now()), Now())
    {
      hide Consistent, Signature, Updated;
      KeysAgree(c.parses, c.entries, c.nextID, entryByID, hashByID);
      IdsBounded(c.parses, c.entries, c.nextID, entryByID, hashByID);
      ghost var was := Now();
      SignatureEmpty(cmds);
      var oldHash := if sched in hashByID then hashByID[sched] else "";
      if oldHash == newHash {
        KeptIsUpdated(sched, cmds, was);
        return true;
      }
      ghost var byID, hashes := entryByID, hashByID;
      if sched in entryByID {
        RemovalKeepsConsistent(c.parses, c.entries, c.nextID, entryByID, hashByID, sched);
        byID, hashes := entryByID - {sched}, hashByID - {sched};
        c.Remove(entryByID[sched]);
      }
      ghost var entries := c.entries;
      var entryID := c.AddFunc(sched, cmds);
      if entryID.None? {
        return false;
      }
      AdditionKeepsConsistent(c.parses, entries, c.nextID - 1, byID, hashes, sched, cmds);
      assert byID[sched := c.nextID] == entryByID[sched := c.nextID];
      assert hashes[sched := newHash] == hashByID[sched := newHash];
      entryByID := entryByID[sched := entryID.value];
      hashByID := hashByID[sched := newHash];
      ReplacedIsUpdated(sched, cmds, was, entries, Now());
      return true;
    }

    method BuildHashes(merged: map<string, seq<Command>>) returns (hashes: map<string, string>)
      ensures hashes == map s | s in merged :: Signature(merged[s])
    {
      hide Signature;
      hashes := map[];
      var todo := merged.Keys;
      while todo != {}
        invariant todo <= merged.Keys && hashes.Keys == merged.Keys - todo
        invariant forall s :: s in hashes ==> hashes[s] == Signature(merged[s])
        decreases |todo|
      {
        var sched := Pick(todo);
        var hash := CommandMapSignature(merged[sched]);
        hashes := hashes[sched := hash];
        todo := todo - {sched};
      }
    }

    /** The loop over the wanted schedules, whatever the order in which they are visited: it stops at the first schedule
        that does not parse. */
    method UpdateAll(commandMap: map<string, seq<Command>>, hashes: map<string, string>, ghost before: State) returns (ok: bool)
      requires Valid() && Progressed(commandMap, commandMap.Keys, before, Now())
      requires forall s :: s in commandMap ==> commandMap[s] != []
      requires hashes == map s | s in commandMap :: Signature(commandMap[s])
      modifies this, c
      ensures Valid()
      ensures ok <==> forall s :: s in commandMap ==> c.parses(s)
      ensures ok ==> Progressed(commandMap, {}, before, Now())
    {
      hide Consistent, Signature, Progressed, Updated;
      var todo := commandMap.Keys;
      while todo != {}
        invariant todo <= commandMap.Keys && Valid() && Progressed(commandMap, todo, before, Now())
        invariant forall s :: s in commandMap && s !in todo ==> c.parses(s)
        decreases |todo|
      {
        var sched := Pick(todo);
        ghost var was := Now();
        var updated := Update(sched, commandMap[sched], hashes[sched]);
        if !updated {
          return false;
        }
        ProgressStep(commandMap, todo, before, was, Now(), sched);
        todo := todo - {sched};
      }
      ok := true;
    }

    /** Brings the entries in line with a newly built map, given as built. Nothing happens when building failed. Otherwise
        it succeeds exactly when every wanted schedule parses, and the entries stay consistent even when it does not. */
    method ReconcileSchedules(built: Result<map<string, seq<Command>>, Error>) returns (ok: bool)
      requires Valid()
      requires built.Ok? ==> forall s :: s in built.value ==> built.value[s] != []
      modifies this, c
      ensures Valid()
      ensures built.Err? ==> !ok && Now() == old(Now())
      ensures built.Ok? ==> (ok <==> forall s :: s in built.value ==> c.parses(s))
      ensures ok ==> Reconciled(built.value, old(Now()), Now())
    {
      hide Consistent, Signature, Progressed, Reconciled;
      if built.Err? {
        return false;
      }
      var commandMap := built.value;
      var hashes := BuildHashes(commandMap);
      ghost var before := Now();
      ConsistentTidy(c.parses, before);
      RemoveDeleted(commandMap);
      ConsistentTidy(c.parses, Now());
      Started(commandMap, before, Now());
      ok := UpdateAll(commandMap, hashes, before);
      if ok {
        ProgressEnd(commandMap, before, Now());
      }
    }
  }

  /** The state of a helper and its scheduler, as a value. */
  datatype State = State(entries: map<int, Entry>, nextID: int, entryByID: map<string, int>, hashByID: map<string, string>)

  /** The schedule had an entry of this signature before. */
  ghost predicate Unchanged(s: string, cmds: seq<Command>, before: State) {
    s in before.entryByID && s in before.hashByID && before.hashByID[s] == Signature(cmds)
  }

  /** The schedule has the wanted signature; its entry is the one it had if that signature is unchanged, and otherwise a
      new one that runs exactly the wanted commands. */
  ghost predicate Placed(s: string, cmds: seq<Command>, before: State, now: State) {
    && s in now.entryByID && s in now.hashByID && now.hashByID[s] == Signature(cmds)
    && var id := now.entryByID[s];
       && id in now.entries
       && if Unchanged(s, cmds, before)
          then id == before.entryByID[s] && id in before.entries && now.entries[id] == before.entries[id]
          else id > before.nextID && now.entries[id] == Entry(s, cmds)
  }

  ghost predicate SameSlot(s: string, before: State, now: State) {
    && (s in now.entryByID <==> s in before.entryByID) && (s in now.hashByID <==> s in before.hashByID)
    && (s in now.entryByID ==> now.entryByID[s] == before.entryByID[s])
    && (s in now.hashByID ==> now.hashByID[s] == before.hashByID[s])
  }

  /** Exactly the wanted schedules have entries, each in its place, and when every signature was there before nothing
      was added. */
  ghost predicate Reconciled(wanted: map<string, seq<Command>>, before: State, now: State) {
    && now.entryByID.Keys == wanted.Keys && now.hashByID.Keys == wanted.Keys
    && (forall s :: s in wanted ==> Placed(s, wanted[s], before, now))
    && ((forall s :: s in wanted ==> Unchanged(s, wanted[s], before)) ==> now.nextID == before.nextID)
  }

  /** Keys agree and ids were given out. */
  ghost predicate Tidy(st: State) {
    && st.entryByID.Keys == st.hashByID.Keys
    && forall s :: s in st.entryByID ==> st.entryByID[s] in st.entries && st.entryByID[s] <= st.nextID
  }

  lemma ConsistentTidy(parses: string -> bool, st: State)
    requires Consistent(parses, st.entries, st.nextID, st.entryByID, st.hashByID)
    ensures Tidy(st) && forall id :: id in st.entries ==> id <= st.nextID
  {
    hide Signature;
  }

  /** Entries that were there keep their commands. */
  ghost predicate EntriesKept(before: State, now: State) {
    && before.nextID <= now.nextID
    && forall id :: id in now.entries && id <= before.nextID ==> id in before.entries && now.entries[id] == before.entries[id]
  }

  /** What one update changes: its own schedule's slot, and nothing if that has the signature already. */
  ghost predicate Updated(sched: string, cmds: seq<Command>, was: State, now: State) {
    && Tidy(was) && Tidy(now) && EntriesKept(was, now)
    && (forall s :: s != sched ==> SameSlot(s, was, now))
    && sched in now.entryByID && now.hashByID[sched] == Signature(cmds)
    && if sched in was.hashByID && was.hashByID[sched] == Signature(cmds)
       then now == was
       else now.entryByID[sched] > was.nextID && now.entries[now.entryByID[sched]] == Entry(sched, cmds)
  }

  lemma KeptIsUpdated(sched: string, cmds: seq<Command>, was: State)
    requires Tidy(was) && sched in was.hashByID && was.hashByID[sched] == Signature(cmds)
    ensures Updated(sched, cmds, was, was)
  {
    hide Signature;
  }

  lemma ReplacedIsUpdated(sched: string, cmds: seq<Command>, was: State, kept: map<int, Entry>, now: State)
    requires Tidy(was) && !(sched in was.hashByID && was.hashByID[sched] == Signature(cmds))
    requires kept == if sched in was.entryByID then was.entries - {was.entryByID[sched]} else was.entries
    requires forall s :: s in was.entryByID && s != sched ==> was.entryByID[s] in kept
    requires forall id :: id in was.entries ==> id <= was.nextID
    requires now == State(kept[was.nextID + 1 := Entry(sched, cmds)], was.nextID + 1, was.entryByID[sched := was.nextID + 1],
                          was.hashByID[sched := Signature(cmds)])
    ensures Updated(sched, cmds, was, now)
  {
    hide Signature;
    forall s | s != sched ensures SameSlot(s, was, now) {
    }
  }

  /** Between two updates: schedules still to do are as before, the others in their place. */
  ghost predicate Progressed(wanted: map<string, seq<Command>>, todo: set<string>, before: State, now: State) {
    && Tidy(before) && Tidy(now) && EntriesKept(before, now)
    && wanted.Keys - todo <= now.entryByID.Keys <= wanted.Keys
    && (forall s :: s in wanted && s in todo ==> SameSlot(s, before, now))
    && (forall s :: s in wanted && s !in todo ==> Placed(s, wanted[s], before, now))
    && ((forall s :: s in wanted && s !in todo ==> Unchanged(s, wanted[s], before)) ==> now.nextID == before.nextID)
  }

  lemma Started(wanted: map<string, seq<Command>>, before: State, now: State)
    requires Tidy(before) && Tidy(now) && EntriesKept(before, now) && now.nextID == before.nextID
    requires var gone := before.entryByID.Keys - wanted.Keys;
             now.entryByID == before.entryByID - gone && now.hashByID == before.hashByID - gone
    ensures Progressed(wanted, wanted.Keys, before, now)
  {
    hide Signature;
  }

  lemma ProgressEnd(wanted: map<string, seq<Command>>, before: State, now: State)
    requires Progressed(wanted, {}, before, now)
    ensures Reconciled(wanted, before, now)
  {
    hide Signature, Placed;
    forall s | s in wanted ensures Placed(s, wanted[s], before, now) {
    }
  }

  lemma ProgressStep(wanted: map<string, seq<Command>>, todo: set<string>, before: State, was: State, now: State, sched: string)
    requires Progressed(wanted, todo, before, was) && sched in wanted && sched in todo
    requires Updated(sched, wanted[sched], was, now)
    ensures Progressed(wanted, todo - {sched}, before, now)
  {
    hide Signature, Placed, Unchanged;
    UpdatePlaces(sched, wanted[sched], before, was, now);
    forall s | s in wanted && s !in todo ensures Placed(s, wanted[s], before, now) {
      OthersStayPlaced(s, sched, wanted[s], wanted[sched], before, was, now);
    }
    forall s | s in wanted && s in todo && s != sched ensures SameSlot(s, before, now) {
      assert SameSlot(s, before, was) && SameSlot(s, was, now);
    }
    forall s | s in now.entryByID ensures s in wanted {
      assert s == sched || SameSlot(s, was, now);
    }
    forall s | s in wanted && s !in todo ensures s in now.entryByID {
      assert SameSlot(s, was, now);
    }
    if Unchanged(sched, wanted[sched], before) {
      UnchangedUpdate(sched, wanted[sched], before, was, now);
    }
  }

  lemma UnchangedUpdate(sched: string, cmds: seq<Command>, before: State, was: State, now: State)
    requires Updated(sched, cmds, was, now) && SameSlot(sched, before, was) && Unchanged(sched, cmds, before)
    ensures now == was
  {
    hide Signature;
  }

  lemma UpdatePlaces(sched: string, cmds: seq<Command>, before: State, was: State, now: State)
    requires Updated(sched, cmds, was, now) && SameSlot(sched, before, was) && Tidy(before) && EntriesKept(before, was)
    ensures Placed(sched, cmds, before, now)
  {
    hide Signature;
  }

  lemma OthersStayPlaced(s: string, sched: string, cmds: seq<Command>, others: seq<Command>, before: State, was: State, now: State)
    requires Updated(sched, others, was, now) && Placed(s, cmds, before, was) && s != sched
    ensures Placed(s, cmds, before, now)
  {
    hide Signature;
    assert SameSlot(s, was, now);
  }

  /** After a successful reconcile there is exactly one entry for every wanted schedule and no other. It runs exactly the
      wanted commands, unless the schedule had an entry of the same signature before, which is then still there. */
  lemma ReconciledMeaning(parses: string -> bool, wanted: map<string, seq<Command>>, before: State, now: State)
    requires Consistent(parses, now.entries, now.nextID, now.entryByID, now.hashByID)
    requires Reconciled(wanted, before, now)
    ensures forall id :: id in now.entries ==> now.entries[id].spec in wanted
    ensures forall i, j :: i in now.entries && j in now.entries && now.entries[i].spec == now.entries[j].spec ==> i == j
    ensures forall s :: s in wanted ==> exists id :: id in now.entries && now.entries[id].spec == s
    ensures forall id :: id in now.entries ==>
              var s := now.entries[id].spec;
              if s in before.hashByID && s in before.entryByID && before.hashByID[s] == Signature(wanted[s])
              then id == before.entryByID[s] && id in before.entries && now.entries[id] == before.entries[id]
              else now.entries[id].commands == wanted[s]
  {
    hide Signature;
    forall s | s in wanted ensures exists id :: id in now.entries && now.entries[id].spec == s {
      assert Placed(s, wanted[s], before, now);
      assert now.entries[now.entryByID[s]].spec == s;
    }
    forall id | id in now.entries ensures Placed(now.entries[id].spec, wanted[now.entries[id].spec], before, now) {
      assert now.entries[id].spec in now.entryByID;
    }
  }

  /** Reconciling again with the same signatures adds and removes nothing. */
  lemma RepeatChangesNothing(parses: string -> bool, wanted: map<string, seq<Command>>, before: State, now: State)
    requires Consistent(parses, before.entries, before.nextID, before.entryByID, before.hashByID)
    requires Consistent(parses, now.entries, now.nextID, now.entryByID, now.hashByID)
    requires Reconciled(wanted, before, now)
    requires before.hashByID == map s | s in wanted :: Signature(wanted[s])
    ensures now == before
  {
    hide Signature;
    forall s | s in wanted ensures Unchanged(s, wanted[s], before) && Placed(s, wanted[s], before, now) {
    }
    assert now.entryByID == before.entryByID;
    assert now.hashByID == before.hashByID;
    forall id | id in now.entries ensures id in before.entries && now.entries[id] == before.entries[id] {
      assert Placed(now.entries[id].spec, wanted[now.entries[id].spec], before, now);
    }
    forall id | id in before.entries ensures id in now.entries {
      assert Placed(before.entries[id].spec, wanted[before.entries[id].spec], before, now);
    }
    assert now.entries == before.entries;
  }

  ghost predicate EntriesSeparable(entries: map<int, Entry>) {
    forall id :: id in entries ==> AllSeparable(entries[id].commands)
  }

  /** A live entry goes on with the old password when only that has changed. */
  lemma OldPasswordStays(parses: string -> bool, s: string, cmd: Command, pg: Postgres, password: string, before: State,
                         now: State)
    requires cmd.postgres == [pg] && password != pg.password
    requires Consistent(parses, before.entries, before.nextID, before.entryByID, before.hashByID)
    requires s in before.entryByID && before.entries[before.entryByID[s]].commands == [cmd]
    requires Reconciled(map[s := [cmd.(postgres := [pg.(password := password)])]], before, now)
    ensures s in now.entryByID && now.entryByID[s] in now.entries && now.entryByID[s] == before.entryByID[s]
    ensures now.entries[now.entryByID[s]].commands == [cmd]
    ensures [cmd] != [cmd.(postgres := [pg.(password := password)])]
  {
    hide Signature;
    var rotated := cmd.(postgres := [pg.(password := password)]);
    SignatureIgnoresPassword(cmd, pg, password);
    assert Placed(s, [rotated], before, now);
    assert cmd.postgres[0] != rotated.postgres[0];
    assert [cmd][0] != [rotated][0];
  }

  /** Where no text holds a separator that ends it, every live entry, kept ones included, runs the wanted commands up to
      what a signature does not see; and that stays so from one reconcile to the next. */
  lemma ReconciledRunsWanted(parses: string -> bool, wanted: map<string, seq<Command>>, before: State, now: State)
    requires Consistent(parses, now.entries, now.nextID, now.entryByID, now.hashByID)
    requires Reconciled(wanted, before, now)
    requires EntriesSeparable(before.entries) && forall s :: s in wanted ==> AllSeparable(wanted[s])
    ensures EntriesSeparable(now.entries)
    ensures forall s :: s in wanted ==>
              && s in now.entryByID && now.entryByID[s] in now.entries && now.entries[now.entryByID[s]].spec == s
              && AllSeen(now.entries[now.entryByID[s]].commands) == AllSeen(wanted[s])
  {
    hide Signature, AllSeparable, AllSeen;
    forall s | s in wanted
      ensures s in now.entryByID && now.entryByID[s] in now.entries && now.entries[now.entryByID[s]].spec == s
      ensures AllSeparable(now.entries[now.entryByID[s]].commands)
      ensures AllSeen(now.entries[now.entryByID[s]].commands) == AllSeen(wanted[s])
    {
      assert Placed(s, wanted[s], before, now);
      SignatureExact(now.entries[now.entryByID[s]].commands, wanted[s]);
    }
    forall id | id in now.entries ensures AllSeparable(now.entries[id].commands) {
      assert now.entries[id].spec in wanted;
    }
  }

  // ----- What the unseen parts change -----

  function SeenRunner(r: Checks.Runner): Checks.Runner {
    r.(target := if r.target.None? then None else Some(SeenTarget(r.target.value)))
  }

  function SeenRunners(rs: seq<Checks.Runner>): seq<Checks.Runner> {
    seq(|rs|, i requires 0 <= i < |rs| => SeenRunner(rs[i]))
  }

  function SeenResult(r: Result<seq<Checks.Runner>, Checks.Error>): Result<seq<Checks.Runner>, Checks.Error> {
    match r
    case Err(e) => Err(e)
    case Ok(rs) => Ok(SeenRunners(rs))
  }

  /** Lists of commands that are seen alike start the same runners in the same order, with the same checks for the same
      servers and databases, unless a MySQL command is among them. */
  lemma SeenRunAlike(s: string, a: seq<Command>, b: seq<Command>, env: Checks.Env)
    requires AllSeen(a) == AllSeen(b) && forall cmd :: cmd in a ==> cmd.name != Checks.MYSQL
    ensures SeenRunners(Checks.TickRunners(s, a, env)) == SeenRunners(Checks.TickRunners(s, b, env))
  {
    hide Seen;
    forall cmd | cmd in b ensures cmd.name != Checks.MYSQL {
      var i :| 0 <= i < |b| && b[i] == cmd;
      assert |AllSeen(a)| == |a| && |AllSeen(b)| == |b|;
      assert AllSeen(a)[i] == AllSeen(b)[i] && a[i] in a;
      SeenName(a[i]);
      SeenName(b[i]);
    }
    SeenTick(s, a, env);
    SeenTick(s, b, env);
  }

  lemma SeenName(cmd: Command)
    ensures Seen(cmd).name == cmd.name && Seen(cmd).postgres == SeenTargets(cmd.postgres)
  {
  }

  /** Erasing what is not seen before a tick is erasing it after. */
  lemma {:induction false} SeenTick(s: string, cmds: seq<Command>, env: Checks.Env)
    requires forall cmd :: cmd in cmds ==> cmd.name != Checks.MYSQL
    ensures SeenRunners(Checks.TickRunners(s, cmds, env)) == Checks.TickRunners(s, AllSeen(cmds), env)
  {
    hide Seen, Checks.Panics, SeenRunner;
    if cmds == [] {
      assert AllSeen(cmds) == [];
    } else {
      var rest := cmds[1..];
      assert AllSeen(cmds)[0] == Seen(cmds[0]) && AllSeen(cmds)[1..] == AllSeen(rest) && cmds[0] in cmds;
      SeenPanics(s, cmds[0], env);
      SeenName(cmds[0]);
      SeenTick(s, rest, env);
      SeenCommand(s, cmds[0], cmds[0].postgres, env);
      SeenRunnersJoin(Checks.CommandRunners(s, cmds[0], cmds[0].postgres, env), Checks.TickRunners(s, rest, env));
    }
  }

  lemma SeenRunnersJoin(a: seq<Checks.Runner>, b: seq<Checks.Runner>)
    ensures SeenRunners(a + b) == SeenRunners(a) + SeenRunners(b)
  {
    hide SeenRunner;
  }

  lemma {:induction false} SeenCommand(s: string, cmd: Command, targets: seq<Postgres>, env: Checks.Env)
    requires cmd.name != Checks.MYSQL
    ensures SeenRunners(Checks.CommandRunners(s, cmd, targets, env)) == Checks.CommandRunners(s, Seen(cmd), SeenTargets(targets), env)
  {
    hide Seen, Checks.Processors, SeenTarget, SeenRunner;
    if targets == [] {
      assert SeenTargets(targets) == [];
    } else {
      assert SeenTargets(targets)[0] == SeenTarget(targets[0]) && SeenTargets(targets)[1..] == SeenTargets(targets[1..]);
      SeenCommand(s, cmd, targets[1..], env);
      SeenProcessors(s, cmd, targets[0], env);
      SeenRunnersJoin(Checks.TargetRunners(s, cmd, targets[0], env), Checks.CommandRunners(s, cmd, targets[1..], env));
    }
  }

  lemma SeenPanics(s: string, cmd: Command, env: Checks.Env)
    requires cmd.name != Checks.MYSQL
    ensures Checks.Panics(s, Seen(cmd), env) == Checks.Panics(s, cmd, env)
  {
    hide Seen, Checks.Processors, SeenTarget;
    SeenName(cmd);
    if cmd.postgres != [] {
      SeenProcessors(s, cmd, cmd.postgres[0], env);
      assert Seen(cmd).postgres[0] == SeenTarget(cmd.postgres[0]);
    }
  }

  lemma SeenProcessors(s: string, cmd: Command, p: Postgres, env: Checks.Env)
    requires cmd.name != Checks.MYSQL
    ensures SeenResult(Checks.Processors(s, cmd.(postgres := [p]), env))
         == Checks.Processors(s, Seen(cmd).(postgres := [SeenTarget(p)]), env)
  {
    hide Checks.LogRunnersFor, Checks.PiiRunners, Checks.PerTarget, SeenTarget, SeenRunners;
    var q := SeenTarget(p);
    SeenPerTarget(p, Checks.SimpleChecks(cmd.name));
    SeenPerTarget(p, Checks.CORE);
    SeenPii(p, env);
    SeenLog(cmd, p, env);
    NoTarget(Checks.Rds);
    NoTarget(Checks.Aurora);
    var logs, pii := Checks.LogRunnersFor(cmd.(postgres := [p]), [p], env), Checks.PiiRunners([p], env);
    if logs.Ok? {
      SeenRunnersJoin(Checks.PerTarget([p], Checks.CORE), logs.value);
      if pii.Ok? {
        SeenRunnersJoin(Checks.PerTarget([p], Checks.CORE) + logs.value, pii.value);
      }
    }
  }

  lemma NoTarget(k: Checks.Check)
    ensures SeenRunners([Checks.Runner([k], None)]) == [Checks.Runner([k], None)]
  {
  }

  lemma SeenPerTarget(p: Postgres, checks: seq<Checks.Check>)
    ensures SeenRunners(Checks.PerTarget([p], checks)) == Checks.PerTarget([SeenTarget(p)], checks)
  {
    hide SeenTarget;
    var q := SeenTarget(p);
    assert [p][1..] == [] && [q][1..] == [];
    assert Checks.ForTarget(p, checks) + [] == Checks.ForTarget(p, checks);
    assert Checks.ForTarget(q, checks) + [] == Checks.ForTarget(q, checks);
  }

  lemma SeenPii(p: Postgres, env: Checks.Env)
    ensures SeenResult(Checks.PiiRunners([p], env)) == Checks.PiiRunners([SeenTarget(p)], env)
  {
    hide SeenTarget;
    Checks.OnePii(p, env);
    Checks.OnePii(SeenTarget(p), env);
    var r := Checks.Runner([Checks.PiiScan], Some(p));
    assert SeenRunners([r]) == [SeenRunner(r)];
  }

  lemma SeenLog(cmd: Command, p: Postgres, env: Checks.Env)
    ensures SeenResult(Checks.LogRunnersFor(cmd.(postgres := [p]), [p], env))
         == Checks.LogRunnersFor(Seen(cmd).(postgres := [SeenTarget(p)]), [SeenTarget(p)], env)
  {
    hide SeenTarget, Checks.NewLogParser;
    var a, b, q := cmd.(postgres := [p]), Seen(cmd).(postgres := [SeenTarget(p)]), SeenTarget(p);
    assert [p][1..] == [] && [q][1..] == [];
    assert Checks.LogRunnersFor(a, [], env) == Ok([]) && Checks.LogRunnersFor(b, [], env) == Ok([]);
    if cmd.logParser.Some? {
      NewLogParserAlike(cmd.name, cmd.logParser.value, b.logParser.value, env);
      var commands := Checks.NewLogParser(cmd.name, cmd.logParser.value, env);
      if commands.Ok? {
        var r := Checks.Runner(Checks.LogChecks(commands.value), Some(p));
        assert [r] + [] == [r] && [SeenRunner(r)] + [] == [SeenRunner(r)];
        assert SeenRunners([r]) == [SeenRunner(r)];
      }
    }
  }

  lemma NewLogParserAlike(name: string, a: LogParserInput, b: LogParserInput, env: Checks.Env)
    requires a.(schedule := "") == b.(schedule := "")
    ensures Checks.NewLogParser(name, a, env) == Checks.NewLogParser(name, b, env)
  {
    assert a.prefix == b.prefix && a.logFile == b.logFile;
  }

  lemma IdsBounded(parses: string -> bool, entries: map<int, Entry>, nextID: int, entryByID: map<string, int>,
                   hashByID: map<string, string>)
    requires Consistent(parses, entries, nextID, entryByID, hashByID)
    ensures forall id :: id in entries ==> id <= nextID
    ensures forall s :: s in entryByID ==> entryByID[s] in entries
    ensures forall s, t :: s in entryByID && t in entryByID && entryByID[s] == entryByID[t] ==> s == t
  {
    ConsistentMeaning(parses, entries, nextID, entryByID, hashByID);
  }

  lemma KeysAgree(parses: string -> bool, entries: map<int, Entry>, nextID: int, entryByID: map<string, int>,
                  hashByID: map<string, string>)
    requires Consistent(parses, entries, nextID, entryByID, hashByID)
    ensures entryByID.Keys == hashByID.Keys
    ensures forall s :: s in entryByID ==> parses(s)
  {
  }
}
