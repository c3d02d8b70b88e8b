/** The pg_hba.conf rule index of pkg/hbarules and the log parser that feeds it (pkg/parselog/parse.go).

    The index maps database and user to shared line objects. What it must agree with is a linear reading of
    the rule list: the first rule that accepts a connection is the one used. */
module HbaRules {
  import opened Common
  import opened Sorting
  import opened Text

  /** model.HBAFIleRules */
  datatype Rule = Rule(lineNumber: int, database: string, userName: string, address: string, netMask: string,
                       raw: string)

  datatype IPNet = IPNet(ip: string, mask: string)

  /** The net package, of which nothing is assumed. */
  datatype NetLibrary = NetLibrary(parseCIDR: string -> Result<IPNet, string>,
                                   parseIPMask: (string, string) -> Result<IPNet, string>,
                                   netContains: (IPNet, string) -> bool)

  datatype AddressValidator = HostValidator(host: string) | NetValidator(ipnet: IPNet)

  predicate IsValid(lib: NetLibrary, v: AddressValidator, address: string) {
    match v
    case HostValidator(host) => Contains(address, host)
    case NetValidator(ipnet) => lib.netContains(ipnet, address)
  }

  // The regular expression for subnets: an address, a slash, and digits.

  predicate IsDigits(s: string) {
    s != "" && forall i :: 0 <= i < |s| ==> '0' <= s[i] <= '9'
  }

  predicate IsHexOrColons(s: string) {
    s != "" && forall i :: 0 <= i < |s| ==> '0' <= s[i] <= '9' || 'a' <= s[i] <= 'f' || 'A' <= s[i] <= 'F' || s[i] == ':'
  }

  predicate IsOctet(s: string) {
    IsDigits(s) && |s| <= 3
  }

  /** Dots at i, j and k, and numbers of up to three digits around them. */
  predicate IsQuad(s: string, i: int, j: int, k: int) {
    && 0 <= i < j < k < |s| && s[i] == s[j] == s[k] == '.'
    && IsOctet(s[..i]) && IsOctet(s[i + 1..j]) && IsOctet(s[j + 1..k]) && IsOctet(s[k + 1..])
  }

  predicate SlashAt(s: string, n: int) {
    && 0 <= n < |s| && s[n] == '/' && IsDigits(s[n + 1..])
    && (IsHexOrColons(s[..n]) || exists i, j, k :: 0 <= i < j < k < n && IsQuad(s[..n], i, j, k))
  }

  predicate IsSubnet(s: string) {
    exists n :: 0 <= n < |s| && SlashAt(s, n)
  }

  const ADDRESS_MAPPING: map<string, string> := map["all" := "0.0.0.0/0", "localhost" := "127.0.0.1/32"]

  function ValidatorOf(lib: NetLibrary, r: Rule): Result<AddressValidator, string> {
    var mapped := r.address in ADDRESS_MAPPING;
    var address := if mapped then ADDRESS_MAPPING[r.address] else r.address;
    var netMask := if mapped then "" else r.netMask;
    if netMask != "" then
      match lib.parseIPMask(address, netMask)
      case Err(e) => Err(e)
      case Ok(ipnet) => Ok(NetValidator(ipnet))
    else if IsSubnet(address) then
      match lib.parseCIDR(address)
      case Err(e) => Err(e)
      case Ok(ipnet) => Ok(NetValidator(ipnet))
    else Ok(HostValidator(address))
  }

  // ----- Linear first match -----

  datatype Entry = Entry(database: string, user: string, address: string)

  /** The rule names this database and user word for word. */
  predicate Names(r: Rule, db: string, user: string) {
    db != "" && user != "" && db in Split(r.database, ',') && user in Split(r.userName, ',')
  }

  /** It does so when both stand in the rule's lists, between commas. */
  lemma NamesListed(r: Rule, db: string, user: string)
    ensures Names(r, db, user) <==>
              db != "" && user != "" && Listed(r.database, ',', db) && Listed(r.userName, ',', user)
  {
    hide Split, Listed;
    SplitListed(r.database, ',', db);
    SplitListed(r.userName, ',', user);
  }

  predicate MatchesDatabase(r: Rule, e: Entry) {
    exists d :: d in Split(r.database, ',') && d != "" &&
      (d == e.database || d == "all" || (e.database == e.user && (d == "sameuser" || d == "samerole")))
  }

  predicate MatchesUser(r: Rule, e: Entry) {
    exists u :: u in Split(r.userName, ',') && u != "" && (u == e.user || u == "all")
  }

  predicate Accepts(lib: NetLibrary, r: Rule, e: Entry) {
    && r.address != "" && ValidatorOf(lib, r).Ok? && IsValid(lib, ValidatorOf(lib, r).value, e.address)
    && MatchesDatabase(r, e) && MatchesUser(r, e)
  }

  // ----- What a rule accepts, from how it is written -----

  ghost predicate NetContains(lib: NetLibrary, ipnet: Result<IPNet, string>, address: string) {
    ipnet.Ok? && lib.netContains(ipnet.value, address)
  }

  /** The net that a rule's address and mask stand for; None when the address is a host name. */
  function NetWritten(lib: NetLibrary, address: string, netMask: string): Option<Result<IPNet, string>> {
    if address == "all" then Some(lib.parseCIDR("0.0.0.0/0"))
    else if address == "localhost" then Some(lib.parseCIDR("127.0.0.1/32"))
    else if netMask != "" then Some(lib.parseIPMask(address, netMask))
    else if IsSubnet(address) then Some(lib.parseCIDR(address))
    else None
  }

  /** `all` and `localhost` accept what their nets contain, whatever the mask; an address with a mask, and a subnet, what
      their net contains; any other text the addresses that contain it. */
  ghost predicate AddressMatches(lib: NetLibrary, r: Rule, address: string) {
    match NetWritten(lib, r.address, r.netMask)
    case Some(ipnet) => NetContains(lib, ipnet, address)
    case None => exists before, after :: address == before + r.address + after
  }

  /** A rule accepts an entry when it has an address that matches, and in its lists stand a database and a user that
      match: the entry's own or `all`, and for the database also `sameuser` and `samerole` when the entry's database
      is named like its user. */
  lemma AcceptsMeaning(lib: NetLibrary, r: Rule, e: Entry)
    ensures Accepts(lib, r, e) <==>
              && r.address != "" && AddressMatches(lib, r, e.address)
              && (exists d :: && d != "" && Listed(r.database, ',', d)
                              && (d in {e.database, "all"} || (e.database == e.user && d in {"sameuser", "samerole"})))
              && exists u :: u != "" && Listed(r.userName, ',', u) && u in {e.user, "all"}
  {
    AddressMeaning(lib, r, e.address);
    hide ValidatorOf, IsValid, AddressMatches, Listed, Split;
    forall d ensures d in Split(r.database, ',') <==> Listed(r.database, ',', d) {
      SplitListed(r.database, ',', d);
    }
    forall u ensures u in Split(r.userName, ',') <==> Listed(r.userName, ',', u) {
      SplitListed(r.userName, ',', u);
    }
  }

  lemma AddressMeaning(lib: NetLibrary, r: Rule, address: string)
    ensures ValidatorOf(lib, r).Ok? && IsValid(lib, ValidatorOf(lib, r).value, address) <==> AddressMatches(lib, r, address)
    ensures ValidatorOf(lib, r).Err? <==>
              NetWritten(lib, r.address, r.netMask).Some? && NetWritten(lib, r.address, r.netMask).value.Err?
  {
    MappedSubnets();
    hide IsSubnet;
    if r.address !in {"all", "localhost"} && NetWritten(lib, r.address, r.netMask).None? {
      HostMeaning(address, r.address);
    }
  }

  lemma HostMeaning(address: string, host: string)
    ensures Contains(address, host) <==> exists before, after :: address == before + host + after
  {
    if Contains(address, host) {
      var i :| 0 <= i <= |address| - |host| && IsAt(address, host, i);
      assert address == address[..i] + host + address[i + |host|..];
    }
    if before, after :| address == before + host + after {
      assert IsAt(address, host, |before|);
    }
  }

  lemma MappedSubnets()
    ensures IsSubnet("0.0.0.0/0") && IsSubnet("127.0.0.1/32")
  {
    AllSubnet("0.0.0.0/0");
    LocalhostSubnet("127.0.0.1/32");
  }

  lemma AllSubnet(s: string)
    requires s == "0.0.0.0/0"
    ensures IsSubnet(s)
  {
    assert s[..7] == "0.0.0.0" && s[8..] == "0" && IsQuad(s[..7], 1, 3, 5);
    assert SlashAt(s, 7);
  }

  lemma LocalhostSubnet(s: string)
    requires s == "127.0.0.1/32"
    ensures IsSubnet(s)
  {
    assert s[..9] == "127.0.0.1" && s[10..] == "32" && IsQuad(s[..9], 3, 5, 7);
    assert SlashAt(s, 9);
  }

  /** A rule for all databases, users and addresses accepts every entry whose address the net of all addresses contains,
      whatever its mask. */
  lemma AllRuleAccepts(lib: NetLibrary, r: Rule, e: Entry)
    requires r.database == r.userName == r.address == "all"
    ensures Accepts(lib, r, e) <==> NetContains(lib, lib.parseCIDR("0.0.0.0/0"), e.address)
  {
    hide ValidatorOf, IsValid, Listed, NetContains;
    AcceptsMeaning(lib, r, e);
    AllListed("all");
  }

  lemma AllListed(s: string)
    requires s == "all"
    ensures Listed(s, ',', "all")
  {
    assert s[0..3] == "all" && ',' !in "all";
    assert ListedAt(s, ',', "all", 0, 3);
  }

  /** Number of the first rule of the list that accepts the entry. */
  function FirstMatch(lib: NetLibrary, rules: seq<Rule>, e: Entry): Option<int> {
    if rules == [] then None
    else if Accepts(lib, rules[0], e) then Some(rules[0].lineNumber)
    else FirstMatch(lib, rules[1..], e)
  }

  /** n is the lowest number of a rule that accepts the entry. */
  ghost predicate IsLowestMatch(lib: NetLibrary, rules: seq<Rule>, e: Entry, n: int) {
    && (exists r :: r in rules && r.lineNumber == n && Accepts(lib, r, e))
    && (forall r :: r in rules && Accepts(lib, r, e) ==> n <= r.lineNumber)
  }

  ghost predicate DistinctNumbers(rules: seq<Rule>) {
    forall i, j :: 0 <= i < j < |rules| ==> rules[i].lineNumber != rules[j].lineNumber
  }

  ghost predicate NumbersAscend(rules: seq<Rule>) {
    forall i, j :: 0 <= i < j < |rules| ==> rules[i].lineNumber < rules[j].lineNumber
  }

  /** On a file's rules, which come in line order, first in the list and lowest-numbered are the same. */
  lemma {:induction false} FirstIsLowest(lib: NetLibrary, rules: seq<Rule>, e: Entry, n: int)
    requires NumbersAscend(rules)
    ensures IsLowestMatch(lib, rules, e, n) <==> FirstMatch(lib, rules, e) == Some(n)
  {
    hide Accepts;
    if rules != [] {
      FirstIsLowest(lib, rules[1..], e, n);
      assert rules[0] in rules;
      assert forall r :: r in rules[1..] ==> r in rules && rules[0].lineNumber < r.lineNumber;
      assert forall r :: r in rules ==> r == rules[0] || r in rules[1..];
    }
  }

  // ----- The index -----

  class HbaLine {
    const lineNumber: int
    const addressParser: AddressValidator
    var matchingEntrycount: nat

    constructor (lineNumber: int, addressParser: AddressValidator)
      ensures this.lineNumber == lineNumber && this.addressParser == addressParser && matchingEntrycount == 0
    {
      this.lineNumber := lineNumber;
      this.addressParser := addressParser;
      matchingEntrycount := 0;
    }

    method FoundMatchingEntry()
      modifies this
      ensures matchingEntrycount == old(matchingEntrycount) + 1
    {
      matchingEntrycount := matchingEntrycount + 1;
    }
  }

  type Cells = map<string, map<string, seq<HbaLine>>>

  function CellIn(m: Cells, db: string, user: string): seq<HbaLine> {
    if db in m && user in m[db] then m[db][user] else []
  }

  /** The cells that the i-th rule names. */
  ghost function NamedCells(rules: seq<Rule>): iset<(string, string, int)> {
    iset c: (string, string, int) | 0 <= c.2 < |rules| && Names(rules[c.2], c.0, c.1)
  }

  /** `added` says which of the lines are in which cells. */
  ghost predicate CellsHold(m: Cells, lines: seq<HbaLine>, added: iset<(string, string, int)>) {
    && (forall a :: a in added ==> 0 <= a.2 < |lines| && lines[a.2] in CellIn(m, a.0, a.1))
    && (forall db, user, k :: 0 <= k < |CellIn(m, db, user)| ==> FromAdded(CellIn(m, db, user)[k], db, user, lines, added))
  }

  ghost predicate FromAdded(line: HbaLine, db: string, user: string, lines: seq<HbaLine>, added: iset<(string, string, int)>) {
    exists i :: 0 <= i < |lines| && lines[i] == line && (db, user, i) in added
  }

  /** The line was appended to its cell, and no other cell changed. */
  ghost predicate CellsGrew(before: Cells, after: Cells, database: string, username: string, line: HbaLine) {
    forall db, user :: CellIn(after, db, user) ==
      CellIn(before, db, user) + if db == database && user == username then [line] else []
  }

  lemma WritingCellGrows(before: Cells, after: Cells, database: string, username: string, line: HbaLine)
    requires database in after && username in after[database]
    requires after.Keys == before.Keys + {database}
    requires forall db :: db in before && db != database ==> after[db] == before[db]
    requires forall user :: user != username ==>
               (user in after[database] <==> database in before && user in before[database])
    requires database in before ==>
               forall user :: user in before[database] && user != username ==> after[database][user] == before[database][user]
    requires after[database][username] == CellIn(before, database, username) + [line]
    ensures CellsGrew(before, after, database, username, line)
  {
    forall db, user ensures CellIn(after, db, user) ==
      CellIn(before, db, user) + if db == database && user == username then [line] else []
    {
    }
  }

  lemma GrowingKeepsCells(before: Cells, after: Cells, database: string, username: string, lines: seq<HbaLine>,
                          i: nat, added: iset<(string, string, int)>)
    requires CellsHold(before, lines, added) && i < |lines|
    requires CellsGrew(before, after, database, username, lines[i])
    ensures CellsHold(after, lines, added + iset{(database, username, i)})
  {
    var added' := added + iset{(database, username, i)};
    forall a | a in added' ensures 0 <= a.2 < |lines| && lines[a.2] in CellIn(after, a.0, a.1) {
      assert CellIn(after, a.0, a.1) ==
        CellIn(before, a.0, a.1) + if a.0 == database && a.1 == username then [lines[i]] else [];
    }
    forall db, user, k | 0 <= k < |CellIn(after, db, user)|
      ensures FromAdded(CellIn(after, db, user)[k], db, user, lines, added')
    {
      if k < |CellIn(before, db, user)| {
        assert FromAdded(CellIn(before, db, user)[k], db, user, lines, added);
        var j :| 0 <= j < |lines| && lines[j] == CellIn(before, db, user)[k] && (db, user, j) in added;
        assert (db, user, j) in added';
      } else {
        assert (db, user, i) in added';
      }
    }
  }

  lemma CellMembers(m: Cells, lines: seq<HbaLine>, added: iset<(string, string, int)>, db: string, user: string, line: HbaLine)
    requires CellsHold(m, lines, added)
    ensures line in CellIn(m, db, user) <==> FromAdded(line, db, user, lines, added)
  {
    if line in CellIn(m, db, user) {
      var k :| 0 <= k < |CellIn(m, db, user)| && CellIn(m, db, user)[k] == line;
    }
    if FromAdded(line, db, user, lines, added) {
      var i :| 0 <= i < |lines| && lines[i] == line && (db, user, i) in added;
      assert lines[(db, user, i).2] in CellIn(m, (db, user, i).0, (db, user, i).1);
    }
  }

  lemma MoreLinesKeepCells(m: Cells, lines: seq<HbaLine>, line: HbaLine, added: iset<(string, string, int)>)
    requires CellsHold(m, lines, added)
    ensures CellsHold(m, lines + [line], added)
  {
    hide CellIn;
    forall db, user, k | 0 <= k < |CellIn(m, db, user)|
      ensures FromAdded(CellIn(m, db, user)[k], db, user, lines + [line], added)
    {
      assert FromAdded(CellIn(m, db, user)[k], db, user, lines, added);
      var i :| 0 <= i < |lines| && lines[i] == CellIn(m, db, user)[k] && (db, user, i) in added;
      assert (lines + [line])[i] == lines[i];
    }
  }

  /** The cells of rule i that the nested loops have passed at database a, user b. */
  ghost function Visited(dbs: seq<string>, users: seq<string>, a: nat, b: nat, i: int): iset<(string, string, int)>
    requires a <= |dbs| && b <= |users|
  {
    iset c: (string, string, int) | c.2 == i && c.0 != "" && c.1 != "" &&
      ((c.0 in dbs[..a] && c.1 in users) || (a < |dbs| && c.0 == dbs[a] && c.1 in users[..b]))
  }

  lemma VisitOne(dbs: seq<string>, users: seq<string>, a: nat, b: nat, i: int)
    requires a < |dbs| && b < |users|
    ensures Visited(dbs, users, a, b + 1, i) == Visited(dbs, users, a, b, i)
              + if dbs[a] == "" || users[b] == "" then iset{} else iset{(dbs[a], users[b], i)}
  {
    assert users[..b + 1] == users[..b] + [users[b]];
  }

  /** The lines ValidateEntry looks at, before sorting. */
  function Collected(m: Cells, e: Entry): seq<HbaLine> {
    var own := if e.database in m then [] + CellIn(m, e.database, e.user) + CellIn(m, e.database, "all") else [];
    var user := if "sameuser" in m && e.database == e.user
                then own + CellIn(m, "sameuser", e.user) + CellIn(m, "sameuser", "all") else own;
    var role := if "samerole" in m && e.database == e.user
                then user + CellIn(m, "samerole", e.user) + CellIn(m, "samerole", "all") else user;
    if "all" in m then role + CellIn(m, "all", e.user) + CellIn(m, "all", "all") else role
  }

  predicate Reaches(db: string, user: string, e: Entry) {
    && (db == e.database || db == "all" || (e.database == e.user && (db == "sameuser" || db == "samerole")))
    && (user == e.user || user == "all")
  }

  lemma CollectedMembers(m: Cells, e: Entry, line: HbaLine)
    ensures line in Collected(m, e) <==> exists db, user :: Reaches(db, user, e) && line in CellIn(m, db, user)
  {
    assert forall db, user :: line in CellIn(m, db, user) ==> db in m;
    if line in Collected(m, e) {
      var db := if line in CellIn(m, e.database, e.user) + CellIn(m, e.database, "all") then e.database
                else if line in CellIn(m, "all", e.user) + CellIn(m, "all", "all") then "all"
                else if line in CellIn(m, "sameuser", e.user) + CellIn(m, "sameuser", "all") then "sameuser"
                else "samerole";
      var user := if line in CellIn(m, db, e.user) then e.user else "all";
      assert Reaches(db, user, e) && line in CellIn(m, db, user);
    }
  }

  /** The lines found are those of the rules whose database and user fields match. */
  ghost predicate Finds(found: seq<HbaLine>, rules: seq<Rule>, lines: seq<HbaLine>, e: Entry)
    requires |lines| == |rules|
  {
    && (forall line :: line in found ==> LineOfMatch(line, rules, lines, e))
    && (forall i :: 0 <= i < |lines| && MatchesDatabase(rules[i], e) && MatchesUser(rules[i], e) ==> lines[i] in found)
  }

  ghost predicate LineOfMatch(line: HbaLine, rules: seq<Rule>, lines: seq<HbaLine>, e: Entry)
    requires |lines| == |rules|
  {
    exists i :: 0 <= i < |lines| && lines[i] == line && MatchesDatabase(rules[i], e) && MatchesUser(rules[i], e)
  }

  lemma CollectedMatch(m: Cells, rules: seq<Rule>, lines: seq<HbaLine>, e: Entry)
    requires |lines| == |rules| && CellsHold(m, lines, NamedCells(rules))
    ensures Finds(Collected(m, e), rules, lines, e)
  {
    hide Collected, CellIn, CellsHold;
    var added := NamedCells(rules);
    forall line | line in Collected(m, e) ensures LineOfMatch(line, rules, lines, e) {
      CollectedMembers(m, e, line);
      var db, user :| Reaches(db, user, e) && line in CellIn(m, db, user);
      CellMembers(m, lines, added, db, user, line);
      var i :| 0 <= i < |lines| && lines[i] == line && (db, user, i) in added;
      assert Names(rules[i], db, user);
    }
    forall i | 0 <= i < |lines| && MatchesDatabase(rules[i], e) && MatchesUser(rules[i], e)
      ensures lines[i] in Collected(m, e)
    {
      var db :| db in Split(rules[i].database, ',') && db != "" &&
        (db == e.database || db == "all" || (e.database == e.user && (db == "sameuser" || db == "samerole")));
      var user :| user in Split(rules[i].userName, ',') && user != "" && (user == e.user || user == "all");
      assert Reaches(db, user, e) && (db, user, i) in added;
      CellMembers(m, lines, added, db, user, lines[i]);
      CollectedMembers(m, e, lines[i]);
    }
  }

  /** Each rule has a line object of its own, with the rule's number and validator. */
  ghost predicate LinesFit(lib: NetLibrary, rules: seq<Rule>, lines: seq<HbaLine>) {
    && |lines| == |rules| && NoDuplicates(lines)
    && forall i :: 0 <= i < |rules| ==>
         && rules[i].address != "" && ValidatorOf(lib, rules[i]) == Ok(lines[i].addressParser)
         && lines[i].lineNumber == rules[i].lineNumber
  }

  lemma AddedLineFits(lib: NetLibrary, rules: seq<Rule>, lines: seq<HbaLine>, r: Rule, line: HbaLine)
    requires LinesFit(lib, rules, lines) && r.address != "" && ValidatorOf(lib, r) == Ok(line.addressParser)
    requires line.lineNumber == r.lineNumber && line !in lines
    ensures LinesFit(lib, rules + [r], lines + [line]) && |lines| == |rules|
  {
    hide ValidatorOf;
  }

  /** A rule that accepts the entry has its line among those found, with a validator that accepts the address. */
  lemma AcceptingFound(lib: NetLibrary, rules: seq<Rule>, lines: seq<HbaLine>, sorted: seq<HbaLine>, e: Entry, r: Rule)
    returns (j: nat)
    requires LinesFit(lib, rules, lines) && Finds(sorted, rules, lines, e) && r in rules && Accepts(lib, r, e)
    ensures j < |sorted| && sorted[j].lineNumber == r.lineNumber && IsValid(lib, sorted[j].addressParser, e.address)
  {
    hide ValidatorOf, MatchesDatabase, MatchesUser, IsValid, NoDuplicates, LineOfMatch;
    var i :| 0 <= i < |rules| && rules[i] == r;
    assert lines[i] in sorted;
    j :| 0 <= j < |sorted| && sorted[j] == lines[i];
  }

  /** In line-number order, the first line found whose validator accepts the address is that of a lowest match. */
  lemma FirstValidIsLowest(lib: NetLibrary, rules: seq<Rule>, lines: seq<HbaLine>, sorted: seq<HbaLine>, e: Entry, k: nat)
    returns (i: nat)
    requires LinesFit(lib, rules, lines) && Finds(sorted, rules, lines, e)
    requires forall i, j :: 0 <= i < j < |sorted| ==> sorted[i].lineNumber <= sorted[j].lineNumber
    requires k < |sorted| && IsValid(lib, sorted[k].addressParser, e.address)
    requires forall j :: 0 <= j < k ==> !IsValid(lib, sorted[j].addressParser, e.address)
    ensures i < |rules| && lines[i] == sorted[k]
    ensures Accepts(lib, rules[i], e) && IsLowestMatch(lib, rules, e, rules[i].lineNumber)
  {
    hide ValidatorOf, MatchesDatabase, MatchesUser, IsValid, NoDuplicates;
    assert LineOfMatch(sorted[k], rules, lines, e);
    i :| 0 <= i < |lines| && lines[i] == sorted[k] && MatchesDatabase(rules[i], e) && MatchesUser(rules[i], e);
    assert Accepts(lib, rules[i], e) && rules[i] in rules;
    forall r | r in rules && Accepts(lib, r, e) ensures rules[i].lineNumber <= r.lineNumber {
      var _ := AcceptingFound(lib, rules, lines, sorted, e, r);
    }
  }

  lemma NoValidNoMatch(lib: NetLibrary, rules: seq<Rule>, lines: seq<HbaLine>, sorted: seq<HbaLine>, e: Entry)
    requires LinesFit(lib, rules, lines) && Finds(sorted, rules, lines, e)
    requires forall line :: line in sorted ==> !IsValid(lib, line.addressParser, e.address)
    ensures forall r :: r in rules ==> !Accepts(lib, r, e)
  {
    hide ValidatorOf, MatchesDatabase, MatchesUser, IsValid, NoDuplicates;
    forall r | r in rules ensures !Accepts(lib, r, e) {
      var i :| 0 <= i < |rules| && rules[i] == r;
      assert MatchesDatabase(rules[i], e) && MatchesUser(rules[i], e) ==> lines[i] in sorted;
    }
  }

  lemma SortedFinds(found: seq<HbaLine>, sorted: seq<HbaLine>, rules: seq<Rule>, lines: seq<HbaLine>, e: Entry)
    requires |lines| == |rules| && Finds(found, rules, lines, e)
    requires forall line :: line in sorted <==> line in found
    ensures Finds(sorted, rules, lines, e)
  {
    hide LineOfMatch, MatchesDatabase, MatchesUser;
  }

  /** sort.Slice: in line-number order; how lines of equal number come to stand is left open. */
  method SortLines(found: seq<HbaLine>) returns (sorted: seq<HbaLine>)
    ensures forall line :: line in sorted <==> line in found
    ensures forall i, j :: 0 <= i < j < |sorted| ==> sorted[i].lineNumber <= sorted[j].lineNumber
  {
    var key := (line: HbaLine) => line.lineNumber;
    SortMeaning(found, key);
    sorted := SortByKey(found, key);
  }

  /** The loop over the sorted lines: the index of the first one whose validator accepts the address. */
  method FirstAccepting(lib: NetLibrary, sorted: seq<HbaLine>, address: string) returns (k: nat)
    ensures k <= |sorted|
    ensures forall j :: 0 <= j < k ==> !IsValid(lib, sorted[j].addressParser, address)
    ensures k < |sorted| ==> IsValid(lib, sorted[k].addressParser, address)
  {
    hide IsValid;
    k := 0;
    while k < |sorted| && !IsValid(lib, sorted[k].addressParser, address)
      invariant k <= |sorted|
      invariant forall j :: 0 <= j < k ==> !IsValid(lib, sorted[j].addressParser, address)
    {
      k := k + 1;
    }
  }

  datatype HBARawLine = HBARawLine(lineNo: int, line: string)

  function LineNumbers(out: seq<HBARawLine>): seq<int> {
    seq(|out|, i requires 0 <= i < |out| => out[i].lineNo)
  }

  /** The rule names at least one database and one user, so its line is in the index. */
  ghost predicate InSomeCell(r: Rule) {
    exists db, user :: Names(r, db, user)
  }

  /** Number n is that of rule i, which is in the index. */
  ghost predicate NumberedBy(rules: seq<Rule>, n: int, i: int) {
    0 <= i < |rules| && rules[i].lineNumber == n && InSomeCell(rules[i])
  }

  /** An indexed rule with this number has matched an entry. */
  ghost predicate NumberUsed(rules: seq<Rule>, counts: seq<nat>, n: int)
    requires |counts| == |rules|
  {
    exists i :: NumberedBy(rules, n, i) && counts[i] != 0
  }

  /** Each number with the text of the last rule that has it. */
  function Texts(rules: seq<Rule>): map<int, string> {
    if rules == [] then map[]
    else Texts(rules[..|rules| - 1])[rules[|rules| - 1].lineNumber := rules[|rules| - 1].raw]
  }

  lemma {:induction false} TextsMeaning(rules: seq<Rule>, n: int)
    ensures n in Texts(rules) <==> exists i :: 0 <= i < |rules| && rules[i].lineNumber == n
    ensures n in Texts(rules) ==>
              exists i :: (0 <= i < |rules| && rules[i].lineNumber == n && rules[i].raw == Texts(rules)[n]
                           && forall j :: i < j < |rules| ==> rules[j].lineNumber != n)
  {
    if rules != [] {
      var last := |rules| - 1;
      TextsMeaning(rules[..last], n);
      if rules[last].lineNumber != n && n in Texts(rules[..last]) {
        var i :| 0 <= i < last && rules[..last][i].lineNumber == n && rules[..last][i].raw == Texts(rules[..last])[n]
                 && forall j :: i < j < last ==> rules[..last][j].lineNumber != n;
        assert rules[i].lineNumber == n && rules[i].raw == Texts(rules)[n];
        forall j | i < j < |rules| ensures rules[j].lineNumber != n {
          assert j < last ==> rules[..last][j] == rules[j];
        }
      }
      if i :| 0 <= i < last && rules[i].lineNumber == n {
        assert rules[..last][i].lineNumber == n;
      }
    }
  }

  /** What one entry changes: one lowest match is counted, if there is one. */
  ghost predicate Tallied(lib: NetLibrary, rules: seq<Rule>, e: Entry, before: seq<nat>, after: seq<nat>) {
    && |before| == |rules|
    && if exists r :: r in rules && Accepts(lib, r, e)
       then exists i :: 0 <= i < |rules| && Accepts(lib, rules[i], e) && IsLowestMatch(lib, rules, e, rules[i].lineNumber)
                        && after == before[i := before[i] + 1]
       else after == before
  }

  class HbaFileRule {
    const lib: NetLibrary
    var m: Cells
    var lineMap: map<int, string>
    ghost var rules: seq<Rule>     // the rules with an address, in order
    ghost var lines: seq<HbaLine>  // their lines

    /** Each rule has one line, which is in the cells the rule names and in no other. */
    ghost predicate Valid()
      reads this
    {
      && LinesFit(lib, rules, lines)
      && lineMap == Texts(rules)
      && CellsHold(m, lines, NamedCells(rules))
    }

    /** matchingEntrycount of each rule's line. */
    ghost function Counts(): (counts: seq<nat>)
      reads this, lines
      ensures |counts| == |lines|
    {
      seq(|lines|, i requires 0 <= i < |lines| reads this, lines => lines[i].matchingEntrycount)
    }

    constructor (lib: NetLibrary)
      ensures Valid() && rules == [] && lines == [] && this.lib == lib
    {
      this.lib := lib;
      m, lineMap := map[], map[];
      rules, lines := [], [];
    }

    method Add(database: string, username: string, line: HbaLine)
      modifies this`m
      ensures CellsGrew(old(m), m, database, username, line)
    {
      hide CellsGrew;
      if database !in m {
        m := m[database := map[]];
      }
      if username !in m[database] {
        m := m[database := m[database][username := []]];
      }
      m := m[database := m[database][username := m[database][username] + [line]]];
      WritingCellGrows(old(m), m, database, username, line);
    }

    /** One rule of the loop of ParseHBAFileRules: its one line goes into every cell the rule names. */
    method AddRule(r: Rule, addressValidator: AddressValidator)
      requires Valid() && r.address != "" && ValidatorOf(lib, r) == Ok(addressValidator)
      modifies this
      ensures Valid() && rules == old(rules) + [r]
      ensures |lines| == |old(lines)| + 1 && lines[..|old(lines)|] == old(lines)
      ensures fresh(lines[|old(lines)|]) && lines[|old(lines)|].matchingEntrycount == 0
    {
      hide ValidatorOf, CellsHold, CellsGrew, CellIn, LinesFit;
      assert (rules + [r])[..|rules|] == rules;
      var line := new HbaLine(r.lineNumber, addressValidator);
      lineMap := lineMap[r.lineNumber := r.raw];
      ghost var i, named := |rules|, NamedCells(rules);
      AddedLineFits(lib, rules, lines, r, line);
      MoreLinesKeepCells(m, lines, line, named);
      rules, lines := rules + [r], lines + [line];
      var dbs, users := Split(r.database, ','), Split(r.userName, ',');
      assert named + Visited(dbs, users, 0, 0, i) == named;
      for a := 0 to |dbs|
        invariant rules == old(rules) + [r] && lines == old(lines) + [line] && line.matchingEntrycount == 0
        invariant lineMap == old(lineMap)[r.lineNumber := r.raw]
        invariant CellsHold(m, lines, named + Visited(dbs, users, a, 0, i))
      {
        for b := 0 to |users|
          invariant rules == old(rules) + [r] && lines == old(lines) + [line] && line.matchingEntrycount == 0
          invariant lineMap == old(lineMap)[r.lineNumber := r.raw]
          invariant CellsHold(m, lines, named + Visited(dbs, users, a, b, i))
        {
          VisitOne(dbs, users, a, b, i);
          if dbs[a] == "" || users[b] == "" {
            assert named + Visited(dbs, users, a, b + 1, i) == named + Visited(dbs, users, a, b, i);
            continue;
          }
          ghost var before := m;
          Add(dbs[a], users[b], line);
          GrowingKeepsCells(before, m, dbs[a], users[b], lines, i, named + Visited(dbs, users, a, b, i));
          assert named + Visited(dbs, users, a, b, i) + iset{(dbs[a], users[b], i)} == named + Visited(dbs, users, a, b + 1, i);
        }
        assert Visited(dbs, users, a, |users|, i) == Visited(dbs, users, a + 1, 0, i);
      }
      assert named + Visited(dbs, users, |dbs|, 0, i) == NamedCells(rules);
    }

    /** The lines of the cells that an entry can reach. */
    method Collect(database: string, username: string) returns (found: seq<HbaLine>)
      ensures forall address :: found == Collected(m, Entry(database, username, address))
    {
      hide CellIn;
      found := [];
      if database in m {
        found := found + CellIn(m, database, username);
        found := found + CellIn(m, database, "all");
      }
      if "sameuser" in m && database == username {
        found := found + CellIn(m, "sameuser", username);
        found := found + CellIn(m, "sameuser", "all");
      }
      if "samerole" in m && database == username {
        found := found + CellIn(m, "samerole", username);
        found := found + CellIn(m, "samerole", "all");
      }
      if "all" in m {
        found := found + CellIn(m, "all", username);
        found := found + CellIn(m, "all", "all");
      }
    }

    /** Adds one to a lowest-numbered rule that accepts the entry, and changes nothing if none does. */
    method ValidateEntry(database: string, username: string, address: string)
      requires Valid()
      modifies lines
      ensures Valid() && Tallied(lib, rules, Entry(database, username, address), old(Counts()), Counts())
    {
      hide ValidatorOf, CellsHold, Collected, IsLowestMatch, IsValid, Finds, LinesFit, Accepts, Texts;
      ghost var e := Entry(database, username, address);
      ghost var before := Counts();
      var found := Collect(database, username);
      var sorted := SortLines(found);
      LinesDistinct(lib, rules, lines);
      CollectedMatch(m, rules, lines, e);
      SortedFinds(found, sorted, rules, lines, e);
      var k := FirstAccepting(lib, sorted, address);
      if k < |sorted| {
        ghost var i := FirstValidIsLowest(lib, rules, lines, sorted, e, k);
        sorted[k].FoundMatchingEntry();
        assert Counts() == before[i := before[i] + 1];
        assert rules[i] in rules;
      } else {
        NoValidNoMatch(lib, rules, lines, sorted, e);
        assert Counts() == before;
      }
    }

    /** unusedLineMap: for every number of a line in some cell, whether one of these lines was matched. */
    method UsedByNumber() returns (used: map<int, bool>)
      requires Valid()
      ensures forall n :: n in used <==> exists i :: NumberedBy(rules, n, i)
      ensures forall n :: n in used ==> (used[n] <==> NumberUsed(rules, Counts(), n))
    {
      hide ValidatorOf, NumberedBy, NumberUsed, CellsHold, Texts, LinesFit, InSomeCell;
      LinesDistinct(lib, rules, lines);
      used := map[];
      ghost var counts := Counts();
      var dbs := m.Keys;
      while dbs != {}
        invariant dbs <= m.Keys && Counts() == counts
        invariant UsedSound(used, counts)
        invariant forall db, user, line :: db in m && db !in dbs && line in CellIn(m, db, user) ==> Noted(used, line)
        decreases dbs
      {
        var db := Pick(dbs);
        var users := m[db].Keys;
        while users != {}
          invariant users <= m[db].Keys && Counts() == counts
          invariant UsedSound(used, counts)
          invariant forall d, user, line :: d in m && d !in dbs && line in CellIn(m, d, user) ==> Noted(used, line)
          invariant forall user, line :: user !in users && line in CellIn(m, db, user) ==> Noted(used, line)
          decreases users
        {
          var user := Pick(users);
          used := NoteCell(db, user, used);
          users := users - {user};
        }
        dbs := dbs - {db};
      }
      AllNoted(used);
    }

    /** The line's number is in the map, as used if the line was matched. */
    ghost predicate Noted(used: map<int, bool>, line: HbaLine)
      reads line
    {
      line.lineNumber in used && (line.matchingEntrycount != 0 ==> used[line.lineNumber])
    }

    ghost predicate UsedSound(used: map<int, bool>, counts: seq<nat>)
      reads this
    {
      && |counts| == |rules|
      && forall n :: n in used ==> (exists i :: NumberedBy(rules, n, i)) && (used[n] ==> NumberUsed(rules, counts, n))
    }

    /** Every indexed rule's line is in a cell and so was noted. */
    lemma AllNoted(used: map<int, bool>)
      requires Valid() && UsedSound(used, Counts())
      requires forall db, user, line :: db in m && line in CellIn(m, db, user) ==> Noted(used, line)
      ensures forall n :: n in used <==> exists i :: NumberedBy(rules, n, i)
      ensures forall n :: n in used ==> (used[n] <==> NumberUsed(rules, Counts(), n))
    {
      hide ValidatorOf, CellsHold, Texts, Names;
      forall i | 0 <= i < |rules| && InSomeCell(rules[i]) ensures Noted(used, lines[i]) {
        var db, user :| Names(rules[i], db, user);
        assert (db, user, i) in NamedCells(rules);
        CellMembers(m, lines, NamedCells(rules), db, user, lines[i]);
        assert lines[i] in CellIn(m, db, user);
      }
    }

    /** The innermost loop, over the lines of one cell. */
    method NoteCell(db: string, user: string, before: map<int, bool>) returns (used: map<int, bool>)
      requires Valid() && UsedSound(before, Counts())
      ensures UsedSound(used, Counts())
      ensures forall line :: Noted(before, line) ==> Noted(used, line)
      ensures forall line :: line in CellIn(m, db, user) ==> Noted(used, line)
    {
      hide ValidatorOf, NumberedBy, NumberUsed, CellsHold, Texts;
      used := before;
      var cell := CellIn(m, db, user);
      for k := 0 to |cell|
        invariant UsedSound(used, Counts())
        invariant forall line :: Noted(before, line) ==> Noted(used, line)
        invariant forall j :: 0 <= j < k ==> Noted(used, cell[j])
      {
        var line := cell[k];
        CellLine(db, user, line);
        var seen := line.lineNumber in used && used[line.lineNumber];
        used := used[line.lineNumber := seen || line.matchingEntrycount != 0];
      }
    }

    /** A line in a cell is that of an indexed rule. */
    lemma CellLine(db: string, user: string, line: HbaLine)
      requires Valid() && line in CellIn(m, db, user)
      ensures exists i :: NumberedBy(rules, line.lineNumber, i)
      ensures line.matchingEntrycount != 0 ==> NumberUsed(rules, Counts(), line.lineNumber)
    {
      hide ValidatorOf, CellsHold, Texts, CellIn;
      CellMembers(m, lines, NamedCells(rules), db, user, line);
      var i :| 0 <= i < |lines| && lines[i] == line && (db, user, i) in NamedCells(rules);
      assert Names(rules[i], db, user);
      assert NumberedBy(rules, line.lineNumber, i) && Counts()[i] == line.matchingEntrycount;
    }

    /** The numbers of indexed rules none of which matched an entry, in order, each with the text of the last rule that has
        the number. */
    method GetUnusedLines() returns (out: seq<HBARawLine>)
      requires Valid()
      ensures Ascending(LineNumbers(out))
      ensures forall n :: n in LineNumbers(out) <==>
                (exists i :: NumberedBy(rules, n, i)) && !NumberUsed(rules, Counts(), n)
      ensures forall x :: x in out ==> x.lineNo in Texts(rules) && x.line == Texts(rules)[x.lineNo]
    {
      hide ValidatorOf, NumberedBy, NumberUsed, CellsHold, Texts;
      var used := UsedByNumber();
      var numbers := UnusedNumbers(used);
      forall n | n in numbers ensures n in lineMap {
        var i :| NumberedBy(rules, n, i);
        NumberHasText(rules, n, i);
      }
      out := [];
      for k := 0 to |numbers|
        invariant LineNumbers(out) == numbers[..k]
        invariant forall x :: x in out ==> x.lineNo in Texts(rules) && x.line == Texts(rules)[x.lineNo]
      {
        assert numbers[k] in numbers;
        out := out + [HBARawLine(numbers[k], lineMap[numbers[k]])];
        assert numbers[..k + 1] == numbers[..k] + [numbers[k]];
      }
      assert numbers[..|numbers|] == numbers;
    }
  }

  lemma NumberHasText(rules: seq<Rule>, n: int, i: int)
    requires NumberedBy(rules, n, i)
    ensures n in Texts(rules)
  {
    TextsMeaning(rules, n);
  }

  lemma LinesDistinct(lib: NetLibrary, rules: seq<Rule>, lines: seq<HbaLine>)
    requires LinesFit(lib, rules, lines)
    ensures |lines| == |rules| && forall i, j :: 0 <= i < j < |lines| ==> lines[i] != lines[j]
  {
    hide ValidatorOf;
  }

  /** unusedLines: the numbers mapped to false, sorted. */
  method UnusedNumbers(used: map<int, bool>) returns (numbers: seq<int>)
    ensures Ascending(numbers)
    ensures forall n :: n in numbers <==> n in used && !used[n]
  {
    numbers := [];
    var todo := used.Keys;
    while todo != {}
      invariant NoDuplicates(numbers)
      invariant forall n :: n in todo ==> n in used
      invariant forall n :: n in numbers <==> n in used.Keys - todo && !used[n]
      decreases todo
    {
      var n := Pick(todo);
      if !used[n] {
        numbers := numbers + [n];
      }
      todo := todo - {n};
    }
    numbers := SortNumbers(numbers);
  }

  /** sort.IntSlice.Sort, on numbers without repetition. */
  method SortNumbers(numbers: seq<int>) returns (sorted: seq<int>)
    requires NoDuplicates(numbers)
    ensures Ascending(sorted)
    ensures forall n :: n in sorted <==> n in numbers
  {
    var key := (n: int) => n;
    SortMeaning(numbers, key);
    sorted := SortByKey(numbers, key);
    SortedDistinct(numbers, sorted);
  }

  lemma SortedDistinct(numbers: seq<int>, sorted: seq<int>)
    requires NoDuplicates(numbers) && multiset(sorted) == multiset(numbers)
    requires forall i, j :: 0 <= i < j < |sorted| ==> sorted[i] <= sorted[j]
    ensures Ascending(sorted)
  {
    forall i, j | 0 <= i < j < |sorted| ensures sorted[i] < sorted[j] {
      if sorted[i] == sorted[j] {
        var x := sorted[i];
        TwiceInMultiset(sorted, i, j);
        OnceInMultiset(numbers, x);
      }
    }
  }

  lemma TwiceInMultiset(s: seq<int>, i: nat, j: nat)
    requires i < j < |s| && s[i] == s[j]
    ensures multiset(s)[s[i]] >= 2
  {
    assert s == s[..i] + [s[i]] + s[i + 1..j] + [s[j]] + s[j + 1..];
  }

  lemma {:induction false} OnceInMultiset(s: seq<int>, x: int)
    requires NoDuplicates(s)
    ensures multiset(s)[x] <= 1
  {
    if s != [] {
      OnceInMultiset(s[1..], x);
      assert s == [s[0]] + s[1..];
    }
  }

  // ----- Scanning the file -----

  /** What a line that is a rule gives; its lists are resolved to names. */
  datatype Fields = Fields(database: string, userName: string, address: string, netMask: string)

  predicate NoRule(line: string) {
    "#" <= line || line == "" || "local" <= line
  }

  /** The rule on the line with this number, if there is one that can be parsed. */
  function RuleAt(parse: string -> Option<Fields>, line: string, lineNumber: int): Option<Rule> {
    var text := TrimSpace(line);
    if NoRule(text) then None
    else
      match parse(text)
      case None => None
      case Some(x) => Some(Rule(lineNumber, x.database, x.userName, x.address, x.netMask, text))
  }

  lemma RuleAtMeaning(parse: string -> Option<Fields>, line: string, lineNumber: int)
    ensures var text, r := TrimSpace(line), RuleAt(parse, line, lineNumber);
            if NoRule(text) || parse(text).None? then r == None
            else r.Some? && r.value.raw == text && r.value.lineNumber == lineNumber
                 && parse(text) == Some(Fields(r.value.database, r.value.userName, r.value.address, r.value.netMask))
  {
    hide NoRule, TrimSpace;
  }

  /** A line is a rule unless it is blank, a comment or about local connections, spaces aside. */
  lemma NoRuleMeaning(line: string)
    ensures NoRule(TrimSpace(line)) <==>
              var text := TrimSpace(line);
              text == "" || text[0] == '#' || (|text| >= 5 && text[..5] == "local")
  {
    hide TrimSpace;
  }

  /** Exactly the rules of the file, in line order, each with its own number. */
  method ScanHBAFile(lines: seq<string>, parse: string -> Option<Fields>) returns (rules: seq<Rule>)
    ensures NumbersAscend(rules) && DistinctNumbers(rules)
    ensures forall r :: r in rules <==>
              1 <= r.lineNumber <= |lines| && RuleAt(parse, lines[r.lineNumber - 1], r.lineNumber) == Some(r)
  {
    hide NoRule, TrimSpace, RuleAt;
    rules := [];
    var lineNumber := 0;
    for k := 0 to |lines|
      invariant lineNumber == k && NumbersAscend(rules)
      invariant forall r :: r in rules <==>
                  1 <= r.lineNumber <= k && RuleAt(parse, lines[r.lineNumber - 1], r.lineNumber) == Some(r)
    {
      lineNumber := lineNumber + 1;
      var text := TrimSpace(lines[k]);
      RuleAtMeaning(parse, lines[k], lineNumber);
      if NoRule(text) {
        continue;
      }
      var x := parse(text);
      if x.None? {
        continue;
      }
      rules := rules + [Rule(lineNumber, x.value.database, x.value.userName, x.value.address, x.value.netMask, text)];
    }
  }

  // ----- Building the index -----

  /** Rules without an address are skipped. */
  function WithAddress(rules: seq<Rule>): seq<Rule> {
    if rules == [] then []
    else WithAddress(rules[..|rules| - 1]) + if rules[|rules| - 1].address == "" then [] else [rules[|rules| - 1]]
  }

  lemma {:induction false} WithAddressMembers(rules: seq<Rule>)
    ensures forall r :: r in WithAddress(rules) <==> r in rules && r.address != ""
  {
    if rules != [] {
      WithAddressMembers(rules[..|rules| - 1]);
      assert rules == rules[..|rules| - 1] + [rules[|rules| - 1]];
    }
  }

  /** The address of some rule cannot be parsed. */
  predicate SomeBadAddress(lib: NetLibrary, rules: seq<Rule>) {
    exists r :: r in rules && r.address != "" && ValidatorOf(lib, r).Err?
  }

  lemma NoRules(lib: NetLibrary)
    ensures WithAddress([]) == [] && !SomeBadAddress(lib, [])
  {
  }

  /** One more rule read. */
  lemma OneMoreRule(lib: NetLibrary, rules: seq<Rule>, k: nat)
    requires k < |rules|
    ensures WithAddress(rules[..k + 1]) == WithAddress(rules[..k]) + if rules[k].address == "" then [] else [rules[k]]
    ensures SomeBadAddress(lib, rules[..k + 1]) <==>
              SomeBadAddress(lib, rules[..k]) || (rules[k].address != "" && ValidatorOf(lib, rules[k]).Err?)
    ensures SomeBadAddress(lib, rules[..k + 1]) ==> SomeBadAddress(lib, rules)
  {
    hide ValidatorOf;
    assert rules[..k + 1][..k] == rules[..k] && rules[..k + 1] == rules[..k] + [rules[k]];
  }

  method ParseHBAFileRules(lib: NetLibrary, rules: seq<Rule>) returns (h: HbaFileRule?, err: Option<string>)
    ensures err.Some? <==> SomeBadAddress(lib, rules)
    ensures h == null <==> err.Some?
    ensures h != null ==> fresh(h) && h.Valid() && h.lib == lib && h.rules == WithAddress(rules)
    ensures h != null ==> fresh(h.lines) && forall i :: 0 <= i < |h.lines| ==> h.lines[i].matchingEntrycount == 0
  {
    hide ValidatorOf, CellsHold, LinesFit, NamedCells, WithAddress, SomeBadAddress, Texts;
    var index := new HbaFileRule(lib);
    NoRules(lib);
    for k := 0 to |rules|
      invariant fresh(index) && index.Valid() && index.lib == lib && index.rules == WithAddress(rules[..k])
      invariant !SomeBadAddress(lib, rules[..k])
      invariant fresh(index.lines) && forall i :: 0 <= i < |index.lines| ==> index.lines[i].matchingEntrycount == 0
    {
      var r := rules[k];
      OneMoreRule(lib, rules, k);
      if r.address == "" {
        continue;
      }
      match ValidatorOf(lib, r) {
        case Err(e) =>
          return null, Some(e);
        case Ok(addressValidator) =>
          index.AddRule(r, addressValidator);
      }
    }
    assert rules[..|rules|] == rules;
    return index, None;
  }

  /** Skipping the rules without an address changes no match: on a file's rules, what the index counts for an
      entry is what a linear reading of the whole list selects. */
  lemma IndexReadsLinearly(lib: NetLibrary, rules: seq<Rule>, e: Entry, n: int)
    requires NumbersAscend(rules)
    ensures IsLowestMatch(lib, WithAddress(rules), e, n) <==> FirstMatch(lib, rules, e) == Some(n)
  {
    hide ValidatorOf, IsValid, MatchesDatabase, MatchesUser;
    WithAddressMembers(rules);
    FirstIsLowest(lib, rules, e, n);
  }

  // ----- Whole runs of log entries -----

  /** What the parser reads off a log line: the prefix's fields, where present and known, and the fields of a
      connection message (user and database of `connection authorized`, host of `connection received`). */
  datatype ParsedData = ParsedData(user: Option<string>, host: Option<string>, database: Option<string>,
                                   authorized: Option<(string, string)>, received: Option<string>)

  /** A field comes from the prefix, or else, with log_connections on, from a non-empty field of the message. */
  function FieldOf(prefix: Option<string>, logConnections: bool, message: Option<string>): Option<string> {
    if prefix.Some? then prefix
    else if logConnections && message.Some? && message.value != "" then message
    else None
  }

  function EntryOf(logConnections: bool, d: ParsedData): Option<Entry> {
    var user := FieldOf(d.user, logConnections, if d.authorized.Some? then Some(d.authorized.value.0) else None);
    var host := FieldOf(d.host, logConnections, d.received);
    var database := FieldOf(d.database, logConnections, if d.authorized.Some? then Some(d.authorized.value.1) else None);
    if user.Some? && host.Some? && database.Some? then Some(Entry(database.value, user.value, host.value)) else None
  }

  /** How many of the entries have rule n as their lowest match. */
  ghost function Hits(lib: NetLibrary, rules: seq<Rule>, fed: seq<Entry>, n: int): nat {
    if fed == [] then 0
    else Hits(lib, rules, fed[..|fed| - 1], n) + if IsLowestMatch(lib, rules, fed[|fed| - 1], n) then 1 else 0
  }

  /** How often the rules with this number were counted. */
  ghost function NumberCount(rules: seq<Rule>, counts: seq<nat>, n: int): nat
    requires |counts| == |rules|
  {
    if rules == [] then 0
    else NumberCount(rules[..|rules| - 1], counts[..|rules| - 1], n)
         + if rules[|rules| - 1].lineNumber == n then counts[|rules| - 1] else 0
  }

  lemma {:induction false} OneMoreCount(rules: seq<Rule>, counts: seq<nat>, i: nat, n: int)
    requires |counts| == |rules| && i < |rules|
    ensures NumberCount(rules, counts[i := counts[i] + 1], n)
         == NumberCount(rules, counts, n) + if rules[i].lineNumber == n then 1 else 0
  {
    var last := |rules| - 1;
    if i < last {
      OneMoreCount(rules[..last], counts[..last], i, n);
      assert counts[i := counts[i] + 1][..last] == counts[..last][i := counts[i] + 1];
    } else {
      assert counts[i := counts[i] + 1][..last] == counts[..last];
    }
  }

  lemma {:induction false} NotCounted(rules: seq<Rule>, counts: seq<nat>, n: int)
    requires |counts| == |rules|
    ensures NumberCount(rules, counts, n) == 0 <==> forall i :: 0 <= i < |rules| && rules[i].lineNumber == n ==> counts[i] == 0
  {
    if rules != [] {
      var last := |rules| - 1;
      NotCounted(rules[..last], counts[..last], n);
      assert forall i :: 0 <= i < last ==> rules[..last][i] == rules[i] && counts[..last][i] == counts[i];
    }
  }

  /** With numbers of their own, a rule's count is that of its number. */
  lemma {:induction false} OwnCount(rules: seq<Rule>, counts: seq<nat>, i: nat)
    requires |counts| == |rules| && i < |rules| && DistinctNumbers(rules)
    ensures NumberCount(rules, counts, rules[i].lineNumber) == counts[i]
  {
    var last := |rules| - 1;
    assert DistinctNumbers(rules[..last]);
    if i < last {
      OwnCount(rules[..last], counts[..last], i);
    } else {
      forall j | 0 <= j < last ensures rules[..last][j].lineNumber != rules[i].lineNumber {
      }
      NotCounted(rules[..last], counts[..last], rules[i].lineNumber);
    }
  }

  /** A rule with number n is in the index and none is the lowest match of an entry. */
  ghost predicate Unused(lib: NetLibrary, rules: seq<Rule>, fed: seq<Entry>, n: int) {
    && (exists r :: r in rules && r.lineNumber == n && InSomeCell(r))
    && (forall e :: e in fed ==> !IsLowestMatch(lib, rules, e, n))
  }

  lemma {:induction false} NoHits(lib: NetLibrary, rules: seq<Rule>, fed: seq<Entry>, n: int)
    ensures Hits(lib, rules, fed, n) == 0 <==> forall e :: e in fed ==> !IsLowestMatch(lib, rules, e, n)
  {
    hide IsLowestMatch;
    if fed != [] {
      NoHits(lib, rules, fed[..|fed| - 1], n);
      assert fed == fed[..|fed| - 1] + [fed[|fed| - 1]];
    }
  }

  class HbaUnusedLineParser {
    const logConnections: bool
    const validator: HbaFileRule
    ghost var fed: seq<Entry>

    /** The counts of each number are the entries whose lowest match it is; only indexed rules are counted. */
    ghost predicate Valid()
      reads this, validator, validator.lines
    {
      validator.Valid() && Tally(validator.lib, validator.rules, validator.Counts(), fed)
    }

    constructor (logConnections: bool, validator: HbaFileRule)
      requires validator.Valid()
      requires forall i :: 0 <= i < |validator.lines| ==> validator.lines[i].matchingEntrycount == 0
      ensures Valid() && fed == [] && this.logConnections == logConnections && this.validator == validator
    {
      this.logConnections, this.validator := logConnections, validator;
      fed := [];
      new;
      NothingTallied(validator.lib, validator.rules, validator.Counts());
    }

    /** One log line, under the mutex. */
    method Feed(d: ParsedData)
      requires Valid()
      modifies this, validator.lines
      ensures Valid() && validator.rules == old(validator.rules)
      ensures fed == old(fed) + match EntryOf(logConnections, d) case None => [] case Some(e) => [e]
    {
      hide Tally, Tallied, LinesFit, CellsHold, Texts;
      var user := d.user;
      if user.None? {
        if !logConnections || d.authorized.None? || d.authorized.value.0 == "" {
          return;
        }
        user := Some(d.authorized.value.0);
      }
      var host := d.host;
      if host.None? {
        if !logConnections || d.received.None? || d.received.value == "" {
          return;
        }
        host := d.received;
      }
      var database := d.database;
      if database.None? {
        if !logConnections || d.authorized.None? || d.authorized.value.1 == "" {
          return;
        }
        database := Some(d.authorized.value.1);
      }
      ghost var counts, rules := validator.Counts(), validator.rules;
      validator.ValidateEntry(database.value, user.value, host.value);
      ghost var e := Entry(database.value, user.value, host.value);
      fed := fed + [e];
      assert validator.rules == rules;
      TallyMore(validator.lib, rules, counts, validator.Counts(), old(fed), e);
    }

    /** The report: ascending, exactly the indexed numbers that were the lowest match of no entry, each with the text of
        the last rule that has it. */
    method GetUnusedLines() returns (out: seq<HBARawLine>)
      requires Valid()
      ensures Ascending(LineNumbers(out))
      ensures forall n :: n in LineNumbers(out) <==> Unused(validator.lib, validator.rules, fed, n)
      ensures forall x :: x in out ==> x.lineNo in Texts(validator.rules) && x.line == Texts(validator.rules)[x.lineNo]
    {
      hide Tally, LinesFit, CellsHold, Texts, NumberedBy, NumberUsed, Unused;
      out := validator.GetUnusedLines();
      forall n ensures n in LineNumbers(out) <==> Unused(validator.lib, validator.rules, fed, n) {
        UnusedExact(validator.lib, validator.rules, validator.Counts(), fed, n);
      }
    }
  }

  ghost predicate Tally(lib: NetLibrary, rules: seq<Rule>, counts: seq<nat>, fed: seq<Entry>) {
    && |counts| == |rules|
    && (forall n :: NumberCount(rules, counts, n) == Hits(lib, rules, fed, n))
    && (forall i :: 0 <= i < |rules| && counts[i] > 0 ==> InSomeCell(rules[i]))
  }

  /** With numbers of their own, each rule's count is the entries whose lowest match it is. */
  lemma DistinctTally(lib: NetLibrary, rules: seq<Rule>, counts: seq<nat>, fed: seq<Entry>, i: nat)
    requires Tally(lib, rules, counts, fed) && DistinctNumbers(rules) && i < |rules|
    ensures counts[i] == Hits(lib, rules, fed, rules[i].lineNumber)
  {
    OwnCount(rules, counts, i);
  }

  lemma NothingTallied(lib: NetLibrary, rules: seq<Rule>, counts: seq<nat>)
    requires |counts| == |rules| && forall i :: 0 <= i < |rules| ==> counts[i] == 0
    ensures Tally(lib, rules, counts, [])
  {
    forall n ensures NumberCount(rules, counts, n) == 0 {
      NotCounted(rules, counts, n);
    }
  }

  lemma TallyMore(lib: NetLibrary, rules: seq<Rule>, before: seq<nat>, after: seq<nat>, fed: seq<Entry>, e: Entry)
    requires Tally(lib, rules, before, fed) && Tallied(lib, rules, e, before, after)
    ensures Tally(lib, rules, after, fed + [e])
  {
    hide Accepts, InSomeCell;
    assert (fed + [e])[..|fed|] == fed;
    if r :| r in rules && Accepts(lib, r, e) {
      var i :| 0 <= i < |rules| && Accepts(lib, rules[i], e) && IsLowestMatch(lib, rules, e, rules[i].lineNumber)
               && after == before[i := before[i] + 1];
      AcceptingInCell(lib, rules[i], e);
      forall n ensures NumberCount(rules, after, n) == Hits(lib, rules, fed + [e], n) {
        OneMoreCount(rules, before, i, n);
        assert IsLowestMatch(lib, rules, e, n) <==> n == rules[i].lineNumber;
      }
    }
  }

  lemma AcceptingInCell(lib: NetLibrary, r: Rule, e: Entry)
    requires Accepts(lib, r, e)
    ensures InSomeCell(r)
  {
    hide ValidatorOf, IsValid;
    var db :| db in Split(r.database, ',') && db != "" &&
      (db == e.database || db == "all" || (e.database == e.user && (db == "sameuser" || db == "samerole")));
    var user :| user in Split(r.userName, ',') && user != "" && (user == e.user || user == "all");
    assert Names(r, db, user);
  }

  lemma UnusedExact(lib: NetLibrary, rules: seq<Rule>, counts: seq<nat>, fed: seq<Entry>, n: int)
    requires Tally(lib, rules, counts, fed)
    ensures Unused(lib, rules, fed, n) <==> (exists i :: NumberedBy(rules, n, i)) && !NumberUsed(rules, counts, n)
  {
    hide IsLowestMatch, InSomeCell;
    NoHits(lib, rules, fed, n);
    NotCounted(rules, counts, n);
    if i :| NumberedBy(rules, n, i) {
      assert rules[i] in rules;
    }
    if r :| r in rules && r.lineNumber == n && InSomeCell(r) {
      var i :| 0 <= i < |rules| && rules[i] == r;
      assert NumberedBy(rules, n, i);
    }
    if i :| 0 <= i < |rules| && rules[i].lineNumber == n && counts[i] != 0 {
      assert NumberedBy(rules, n, i);
    }
  }

  /** The report depends only on which entries occurred, not on their order or number, so every interleaving
      of the feeds gives the same list. */
  lemma OrderIrrelevant(lib: NetLibrary, rules: seq<Rule>, fed: seq<Entry>, fed': seq<Entry>, ns: seq<int>, ns': seq<int>)
    requires forall e :: e in fed <==> e in fed'
    requires Ascending(ns) && forall n :: n in ns <==> Unused(lib, rules, fed, n)
    requires Ascending(ns') && forall n :: n in ns' <==> Unused(lib, rules, fed', n)
    ensures ns == ns'
  {
    hide IsLowestMatch, InSomeCell;
    AscendingUnique(ns, ns');
  }

  /** A rule that lower-numbered rules cover completely is reported whatever is fed, as is every number all rules of
      which are covered. */
  lemma CoveredRuleReported(lib: NetLibrary, rules: seq<Rule>, r: Rule, fed: seq<Entry>)
    requires r in rules && InSomeCell(r)
    requires forall t, e :: t in rules && t.lineNumber == r.lineNumber && Accepts(lib, t, e) ==>
               exists q :: q in rules && q.lineNumber < r.lineNumber && Accepts(lib, q, e)
    ensures Unused(lib, rules, fed, r.lineNumber)
  {
    hide Accepts, InSomeCell;
    forall e | e in fed ensures !IsLowestMatch(lib, rules, e, r.lineNumber) {
      assert forall t :: t in rules && t.lineNumber == r.lineNumber && Accepts(lib, t, e) ==>
               exists q :: q in rules && q.lineNumber < r.lineNumber && Accepts(lib, q, e);
    }
  }

  /** So a file that begins with such a rule reports it as unused only when no entry at all was fed. */
  lemma AllRuleUsed(lib: NetLibrary, rules: seq<Rule>, r: Rule, fed: seq<Entry>)
    requires r in rules && r.database == r.userName == r.address == "all"
    requires forall q :: q in rules ==> r.lineNumber <= q.lineNumber
    requires forall e :: e in fed ==> NetContains(lib, lib.parseCIDR("0.0.0.0/0"), e.address)
    ensures Unused(lib, rules, fed, r.lineNumber) <==> fed == []
  {
    hide Accepts, NetContains;
    forall e | e in fed ensures IsLowestMatch(lib, rules, e, r.lineNumber) {
      AllRuleAccepts(lib, r, e);
    }
    if fed == [] {
      AllRuleInCell(r);
    } else {
      assert fed[0] in fed;
    }
  }

  lemma AllRuleInCell(r: Rule)
    requires r.database == r.userName == "all"
    ensures InSomeCell(r)
  {
    AllListed("all");
    NamesListed(r, "all", "all");
  }

  /** Rules that share a number hide each other: one that matched nothing is not reported when another has matched. */
  lemma SharedNumberHides(lib: NetLibrary, rules: seq<Rule>, r: Rule, other: Rule, fed: seq<Entry>, e: Entry)
    requires r in rules && other in rules && r.lineNumber == other.lineNumber && e in fed
    requires Accepts(lib, other, e) && forall q :: q in rules && Accepts(lib, q, e) ==> other.lineNumber <= q.lineNumber
    ensures !Unused(lib, rules, fed, r.lineNumber)
  {
    hide Accepts, InSomeCell;
    assert IsLowestMatch(lib, rules, e, r.lineNumber);
  }
}
