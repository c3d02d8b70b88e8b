/** The RDS event subscription check of rds/4.3.0.go. The AWS calls are parameters; the printed table is left out,
    and the text of a reason is kept as the datatype Reason. */
module RdsSubscriptions {
  import opened Common

  /** A JSON value decoded into an `any` field. */
  datatype AnyList = Null | Array(items: seq<Item>) | Strings(strs: seq<string>) | NotArray

  datatype Item = Str(s: string) | Other

  datatype EventSubscription = EventSubscription(sourceType: string, sourceIds: AnyList, categories: AnyList)

  datatype Status = Pass | Fail | Manual

  datatype Reason =
    | NotFound(name: string)
    | Found(name: string)
    | ManualCheck(name: string)
    | OnlySubset(of: Reason, missing: set<string>)

  datatype CaseResult = CaseResult(name: string, reason: Reason, status: Status)

  datatype Outcome = Panic | Done(status: Status, cases: map<string, CaseResult>)

  const DB_INSTANCE := "db-instance"

  const CATEGORIES: set<string> := {"deletion", "failure", "failover", "low storage", "maintenance", "notification"}

  // ----- The lists of a subscription -----

  /** The strings up to the first item that is none. */
  function LeadingStrings(items: seq<Item>): seq<string> {
    if items == [] || items[0].Other? then [] else [items[0].s] + LeadingStrings(items[1..])
  }

  function StringsOf(list: AnyList): seq<string> {
    match list
    case Array(items) => LeadingStrings(items)
    case Strings(strs) => strs
    case _ => []
  }

  lemma {:induction false} LeadingStringsMeaning(items: seq<Item>)
    ensures var strs := LeadingStrings(items);
            && |strs| <= |items|
            && (forall i :: 0 <= i < |strs| ==> items[i] == Str(strs[i]))
            && (|strs| < |items| ==> items[|strs|].Other?)
  {
    if items != [] && items[0].Str? {
      LeadingStringsMeaning(items[1..]);
    }
  }

  lemma {:induction false} LeadingStringsMore(items: seq<Item>, k: nat)
    requires k < |items| && forall i :: 0 <= i < k ==> items[i].Str?
    ensures items[k].Str? ==> LeadingStrings(items[..k + 1]) == LeadingStrings(items[..k]) + [items[k].s]
    ensures items[k].Other? ==> LeadingStrings(items) == LeadingStrings(items[..k])
  {
    if k > 0 {
      LeadingStringsMore(items[1..], k - 1);
      assert items[..k + 1][1..] == items[1..][..k] && items[..k][1..] == items[1..][..k - 1];
    } else {
      assert items[..1][1..] == [];
    }
  }

  /** GetSourceIDList and GetEventCategoryList: a list that is not all strings is cut at the first other item, and what
      is no list at all reads as empty, but neither reads as null. */
  method GetList(list: AnyList) returns (strs: seq<string>, isNull: bool)
    ensures strs == StringsOf(list) && (isNull <==> list.Null?)
  {
    strs, isNull := [], false;
    if list.Null? {
      return [], true;
    }
    var plain: seq<string> := [];
    var items: seq<Item> := [];
    if list.Array? {
      items := list.items;
    } else if list.Strings? {
      plain := list.strs;
    } else {
      return;
    }
    for k := 0 to |items|
      invariant strs == LeadingStrings(items[..k]) && forall i :: 0 <= i < k ==> items[i].Str?
    {
      LeadingStringsMore(items, k);
      if items[k].Other? {
        return;
      }
      strs := strs + [items[k].s];
    }
    assert items[..|items|] == items;
    assert items == [] ==> strs + plain == plain;
    strs := strs + plain;
  }

  /** A subscription for all instances and all events: of instance type or of no type, with both lists null. */
  predicate EnabledForAll(sub: EventSubscription)
    ensures EnabledForAll(sub) <==>
              (sub.sourceType == "" || sub.sourceType == "db-instance") && sub.sourceIds.Null? && sub.categories.Null?
  {
    if |StringsOf(sub.sourceIds)| > 0 then false
    else if |StringsOf(sub.categories)| > 0 then false
    else if sub.sourceType == "" then sub.sourceIds.Null? && sub.categories.Null?
    else if sub.sourceType == DB_INSTANCE then sub.sourceIds.Null? && sub.categories.Null?
    else false
  }

  // ----- The verdict -----

  function NewCaseResult(name: string): CaseResult {
    CaseResult(name, NotFound(name), Fail)
  }

  function PassedCase(name: string): CaseResult {
    CaseResult(name, Found(name), Pass)
  }

  /** What a status means for the case of a database. */
  function SettledCase(status: Status, id: string, cases: map<string, CaseResult>): CaseResult {
    match status
    case Pass => PassedCase(id)
    case Manual => CaseResult(id, ManualCheck(id), Manual)
    case Fail => if id in cases then cases[id] else NewCaseResult(id)
  }

  function Settled(status: Status, dbs: set<string>, cases: map<string, CaseResult>): map<string, CaseResult> {
    map id | id in dbs + cases.Keys :: if id in dbs then SettledCase(status, id, cases) else cases[id]
  }

  lemma SettleOne(status: Status, done: set<string>, id: string, cases: map<string, CaseResult>)
    ensures Settled(status, done + {id}, cases) == Settled(status, done, cases)[id := SettledCase(status, id, cases)]
    ensures Settled(status, {}, cases) == cases
    ensures id !in done ==> var r := Settled(status, done, cases); (id in r <==> id in cases) && (id in r ==> r[id] == cases[id])
  {
  }

  /** The required categories that a category list lacks; a null list and an empty one lack none. */
  function MissingCategories(list: AnyList): set<string> {
    if StringsOf(list) == [] then {} else CATEGORIES - set c | c in StringsOf(list)
  }

  function Blamed(reason: Reason, missing: set<string>, times: nat): Reason {
    if times == 0 then reason else OnlySubset(Blamed(reason, missing, times - 1), missing)
  }

  function Members(ids: seq<string>): set<string> {
    set id | id in ids
  }

  /** The cases of the listed ids and of the databases, for a lone subscription of instance type. */
  function ListedCases(dbs: set<string>, ids: seq<string>, missing: set<string>): map<string, CaseResult> {
    map id | id in dbs + Members(ids) ::
      if id !in ids then NewCaseResult(id)
      else if missing == {} then PassedCase(id)
      else CaseResult(id, Blamed(Found(id), missing, Count(ids, id)), Fail)
  }

  /** What Execute430 returns for a lone subscription of instance type that lists these ids. */
  function LoneVerdict(dbs: set<string>, ids: seq<string>, missing: set<string>): Outcome {
    var status := if |ids| == |dbs| && missing == {} then Pass else Fail;
    Done(status, Settled(status, dbs, ListedCases(dbs, ids, missing)))
  }

  /** The deferred function: one pass over the databases. */
  method SettleCases(status: Status, dbs: set<string>, cases: map<string, CaseResult>) returns (r: map<string, CaseResult>)
    ensures r == Settled(status, dbs, cases)
  {
    hide Settled;
    r := cases;
    var todo := dbs;
    assert dbs - todo == {};
    SettleOne(status, {}, "", cases);
    while todo != {}
      invariant todo <= dbs && r == Settled(status, dbs - todo, cases)
      decreases |todo|
    {
      var dbName := Pick(todo);
      SettleOne(status, dbs - todo, dbName, cases);
      if dbName !in r {
        r := r[dbName := NewCaseResult(dbName)];
      }
      if status.Pass? {
        r := r[dbName := PassedCase(dbName)];
      }
      if status.Manual? {
        r := r[dbName := CaseResult(dbName, ManualCheck(dbName), Manual)];
      }
      assert dbs - (todo - {dbName}) == (dbs - todo) + {dbName};
      todo := todo - {dbName};
    }
    assert dbs - {} == dbs;
  }

  /** The entries made before any check. */
  method FreshCases(dbs: set<string>) returns (cases: map<string, CaseResult>)
    ensures cases == Settled(Fail, dbs, map[])
  {
    hide Settled;
    cases := map[];
    var todo := dbs;
    assert dbs - todo == {};
    SettleOne(Fail, {}, "", map[]);
    while todo != {}
      invariant todo <= dbs && cases == Settled(Fail, dbs - todo, map[])
      decreases |todo|
    {
      var dbName := Pick(todo);
      SettleOne(Fail, dbs - todo, dbName, map[]);
      cases := cases[dbName := NewCaseResult(dbName)];
      assert dbs - (todo - {dbName}) == (dbs - todo) + {dbName};
      todo := todo - {dbName};
    }
    assert dbs - {} == dbs;
  }

  /** The keys of the database map, in any order. */
  method ListIds(dbs: set<string>) returns (ids: seq<string>)
    ensures NoDuplicates(ids) && Members(ids) == dbs
  {
    ids := [];
    var todo := dbs;
    while todo != {}
      invariant todo <= dbs && NoDuplicates(ids) && Members(ids) == dbs - todo
      decreases |todo|
    {
      var srcID := Pick(todo);
      assert srcID !in Members(ids);
      assert Members(ids + [srcID]) == Members(ids) + {srcID};
      ids := ids + [srcID];
      todo := todo - {srcID};
    }
  }

  /** The listed ids after k of them were marked as passed. */
  function Marked(dbs: set<string>, ids: seq<string>): map<string, CaseResult> {
    ListedCases(dbs, ids, {})
  }

  lemma MarkOne(dbs: set<string>, ids: seq<string>, id: string)
    ensures Marked(dbs, ids + [id]) == Marked(dbs, ids)[id := PassedCase(id)]
  {
  }

  lemma NothingMarked(dbs: set<string>)
    ensures Marked(dbs, []) == Settled(Fail, dbs, map[])
  {
  }

  method MarkListed(dbs: set<string>, ids: seq<string>, fresh_: map<string, CaseResult>) returns (cases: map<string, CaseResult>)
    requires fresh_ == Settled(Fail, dbs, map[])
    ensures cases == Marked(dbs, ids)
  {
    hide Marked, Settled;
    cases := fresh_;
    NothingMarked(dbs);
    for k := 0 to |ids|
      invariant cases == Marked(dbs, ids[..k])
    {
      cases := cases[ids[k] := PassedCase(ids[k])];
      MarkOne(dbs, ids[..k], ids[k]);
      assert ids[..k + 1] == ids[..k] + [ids[k]];
    }
    assert ids[..|ids|] == ids;
  }

  /** The required categories not in the list: every entry of the map that stays false. */
  method FindMissing(list: seq<string>) returns (missing: set<string>)
    ensures missing == CATEGORIES - Members(list)
  {
    var seen: map<string, bool> := map c | c in CATEGORIES :: false;
    for k := 0 to |list|
      invariant seen.Keys == CATEGORIES
      invariant forall c :: c in CATEGORIES ==> (seen[c] <==> c in list[..k])
    {
      if list[k] in seen {
        seen := seen[list[k] := true];
      }
      assert list[..k + 1] == list[..k] + [list[k]];
    }
    assert list[..|list|] == list;
    missing := Unmarked(seen);
  }

  method Unmarked(seen: map<string, bool>) returns (missing: set<string>)
    ensures missing == set c | c in seen && !seen[c]
  {
    missing := {};
    var todo := seen.Keys;
    while todo != {}
      invariant todo <= seen.Keys
      invariant missing == set c | c in seen.Keys - todo && !seen[c]
      decreases |todo|
    {
      var c := Pick(todo);
      if !seen[c] {
        missing := missing + {c};
      }
      todo := todo - {c};
    }
  }

  /** The cases once the first ids of the list were blamed for the missing categories. */
  ghost predicate BlamedSoFar(cases: map<string, CaseResult>, dbs: set<string>, ids: seq<string>, done: seq<string>,
                              missing: set<string>)
  {
    && cases.Keys == dbs + Members(ids)
    && forall id :: id in cases ==> cases[id] == BlamedCase(id, id in ids, Count(done, id), missing)
  }

  function BlamedCase(id: string, listed: bool, times: nat, missing: set<string>): CaseResult {
    if !listed then NewCaseResult(id)
    else CaseResult(id, Blamed(Found(id), missing, times), if times == 0 then Pass else Fail)
  }

  method BlameListed(dbs: set<string>, ids: seq<string>, missing: set<string>, marked: map<string, CaseResult>)
    returns (cases: map<string, CaseResult>)
    requires marked == Marked(dbs, ids) && missing != {}
    ensures cases == ListedCases(dbs, ids, missing)
  {
    cases := marked;
    for k := 0 to |ids|
      invariant BlamedSoFar(cases, dbs, ids, ids[..k], missing)
    {
      var srcID := ids[k];
      var was := cases[srcID];
      BlameOne(cases, dbs, ids, k, missing);
      cases := cases[srcID := CaseResult(was.name, OnlySubset(was.reason, missing), Fail)];
    }
    assert ids[..|ids|] == ids;
    AllBlamed(cases, dbs, ids, missing);
  }

  lemma BlameOne(cases: map<string, CaseResult>, dbs: set<string>, ids: seq<string>, k: nat, missing: set<string>)
    requires k < |ids| && BlamedSoFar(cases, dbs, ids, ids[..k], missing)
    ensures ids[k] in cases
    ensures var was := cases[ids[k]];
            BlamedSoFar(cases[ids[k] := CaseResult(was.name, OnlySubset(was.reason, missing), Fail)], dbs, ids, ids[..k + 1], missing)
  {
    assert ids[..k + 1] == ids[..k] + [ids[k]];
    forall id ensures Count(ids[..k + 1], id) == Count(ids[..k], id) + if id == ids[k] then 1 else 0 {
      CountJoin(ids[..k], [ids[k]], id);
    }
  }

  lemma AllBlamed(cases: map<string, CaseResult>, dbs: set<string>, ids: seq<string>, missing: set<string>)
    requires BlamedSoFar(cases, dbs, ids, ids, missing) && missing != {}
    ensures cases == ListedCases(dbs, ids, missing)
  {
    forall id ensures Count(ids, id) > 0 <==> id in ids {
      CountMeaning(ids, id);
    }
  }

  // The cases when every database fares the same.

  function AllNotFound(dbs: set<string>): map<string, CaseResult> {
    map id | id in dbs :: CaseResult(id, NotFound(id), Fail)
  }

  function AllFound(dbs: set<string>): map<string, CaseResult> {
    map id | id in dbs :: CaseResult(id, Found(id), Pass)
  }

  function AllManual(dbs: set<string>): map<string, CaseResult> {
    map id | id in dbs :: CaseResult(id, ManualCheck(id), Manual)
  }

  lemma AllSettled(dbs: set<string>)
    ensures Settled(Fail, dbs, map[]) == AllNotFound(dbs)
    ensures Settled(Pass, dbs, map[]) == AllFound(dbs)
    ensures Settled(Manual, dbs, map[]) == AllManual(dbs)
  {
  }

  ghost predicate AnyEnabled(subs: seq<EventSubscription>) {
    exists k :: 0 <= k < |subs| && EnabledForAll(subs[k])
  }

  /** dbs is None when the databases could not be listed, subs when the subscriptions could not. An empty list of
      subscriptions panics. For a lone subscription of instance type, ids is the list that was
      checked: the listed sources, or all databases in some order when the sources are null. */
  method Execute430(dbs: Option<set<string>>, subs: Option<seq<EventSubscription>>)
    returns (result: Outcome, ids: seq<string>)
    ensures dbs.None? ==> result == Done(Fail, map[])
    ensures dbs.Some? && subs.None? ==> result == Done(Fail, AllNotFound(dbs.value))
    ensures dbs.Some? && subs == Some([]) ==> result == Panic
    ensures dbs.Some? && subs.Some? && AnyEnabled(subs.value) ==> result == Done(Pass, AllFound(dbs.value))
    ensures dbs.Some? && subs.Some? && !AnyEnabled(subs.value) && |subs.value| > 1 ==>
              result == Done(Manual, AllManual(dbs.value))
    ensures dbs.Some? && subs.Some? && !AnyEnabled(subs.value) && |subs.value| == 1 ==>
              var sub := subs.value[0];
              if sub.sourceType != "db-instance" then result == Done(Fail, AllNotFound(dbs.value))
              else
                && result == LoneVerdict(dbs.value, ids, MissingCategories(sub.categories))
                && (if sub.sourceIds.Null? then NoDuplicates(ids) && Members(ids) == dbs.value
                    else ids == StringsOf(sub.sourceIds))
  {
    hide Settled, ListedCases, EnabledForAll, Marked, NoDuplicates, Members, StringsOf, AllNotFound, AllFound, AllManual;
    ids := [];
    if dbs.None? {
      return Done(Fail, map[]), ids;
    }
    var dbSubMap := dbs.value;
    var cases := FreshCases(dbSubMap);
    SettledTwice(dbSubMap);
    AllSettled(dbSubMap);
    if subs.None? {
      cases := SettleCases(Fail, dbSubMap, cases);
      return Done(Fail, cases), ids;
    }
    for k := 0 to |subs.value|
      invariant forall j :: 0 <= j < k ==> !EnabledForAll(subs.value[j])
    {
      if EnabledForAll(subs.value[k]) {
        cases := SettleCases(Pass, dbSubMap, cases);
        return Done(Pass, cases), ids;
      }
    }
    if |subs.value| > 1 {
      cases := SettleCases(Manual, dbSubMap, cases);
      return Done(Manual, cases), ids;
    }
    if |subs.value| == 0 {
      return Panic, ids;
    }
    var subToCheck := subs.value[0];
    if subToCheck.sourceType != DB_INSTANCE {
      cases := SettleCases(Fail, dbSubMap, cases);
      return Done(Fail, cases), ids;
    }
    var listed, sourcesNull := GetList(subToCheck.sourceIds);
    ids := listed;
    if sourcesNull {
      ids := ListIds(dbSubMap);
    }
    cases := MarkListed(dbSubMap, ids, cases);
    var status := if |ids| == |dbSubMap| then Pass else Fail;
    var eventCategoryList, categoriesNull := GetList(subToCheck.categories);
    MissingMeaning(subToCheck.categories);
    MarkedListed(dbSubMap, ids);
    if categoriesNull {
      cases := SettleCases(status, dbSubMap, cases);
      return Done(status, cases), ids;
    }
    if |eventCategoryList| > 0 {
      var missing := FindMissing(eventCategoryList);
      if missing != {} {
        status := Fail;
        cases := BlameListed(dbSubMap, ids, missing, cases);
        cases := SettleCases(status, dbSubMap, cases);
        return Done(status, cases), ids;
      }
    }
    cases := SettleCases(status, dbSubMap, cases);
    return Done(status, cases), ids;
  }

  lemma SettledTwice(dbs: set<string>)
    ensures forall status :: Settled(status, dbs, Settled(Fail, dbs, map[])) == Settled(status, dbs, map[])
  {
    forall status ensures Settled(status, dbs, Settled(Fail, dbs, map[])) == Settled(status, dbs, map[]) {
    }
  }

  lemma MarkedListed(dbs: set<string>, ids: seq<string>)
    ensures Marked(dbs, ids) == ListedCases(dbs, ids, {})
  {
  }

  lemma MissingMeaning(list: AnyList)
    ensures MissingCategories(list) == if StringsOf(list) == [] then {} else CATEGORIES - Members(StringsOf(list))
    ensures list.Null? ==> StringsOf(list) == []
  {
  }

  // ----- What the verdict means -----

  /** Entries of the list beyond one for each database it names: repeats and ids that are no database. */
  function Extras(dbs: set<string>, ids: seq<string>): int {
    |ids| - |Members(ids) * dbs|
  }

  /** Databases that the list does not name. */
  function Uncovered(dbs: set<string>, ids: seq<string>): nat {
    |dbs - Members(ids)|
  }

  lemma {:induction false} MembersSize(ids: seq<string>)
    ensures |Members(ids)| <= |ids|
    ensures |Members(ids)| == |ids| <==> NoDuplicates(ids)
  {
    if ids != [] {
      var last := |ids| - 1;
      MembersSize(ids[..last]);
      assert ids == ids[..last] + [ids[last]];
      assert Members(ids) == Members(ids[..last]) + {ids[last]};
      if ids[last] in ids[..last] {
        var i :| 0 <= i < last && ids[i] == ids[last];
        assert Members(ids) == Members(ids[..last]);
      } else {
        assert NoDuplicates(ids) <==> NoDuplicates(ids[..last]);
      }
    }
  }

  /** A set is its part inside and its part outside another. */
  lemma SplitSize(a: set<string>, b: set<string>)
    ensures |a| == |a * b| + |a - b|
  {
    assert a == (a * b) + (a - b);
  }

  lemma NothingOutside(a: set<string>, b: set<string>)
    ensures |a - b| == 0 <==> a <= b
  {
    forall x | x in a && x !in b ensures |a - b| > 0 {
      assert x in a - b;
    }
  }

  /** Comparing lengths, for every list: they agree when there are as many extras as uncovered databases. So they agree
      exactly when all databases are covered, unless the list has extras and either covers everything or
      leaves out exactly that many databases. There are no extras exactly when the list is duplicate-free
      and names databases only. */
  lemma LengthsExact(dbs: set<string>, ids: seq<string>)
    ensures Extras(dbs, ids) >= 0
    ensures Extras(dbs, ids) == 0 <==> NoDuplicates(ids) && Members(ids) <= dbs
    ensures |ids| == |dbs| <==> Extras(dbs, ids) == Uncovered(dbs, ids)
    ensures Uncovered(dbs, ids) == 0 <==> dbs <= Members(ids)
    ensures (|ids| == |dbs| <==> dbs <= Members(ids)) <==>
              Extras(dbs, ids) == 0 || Uncovered(dbs, ids) !in {0, Extras(dbs, ids)}
  {
    var m := Members(ids);
    MembersSize(ids);
    SplitSize(m, dbs);
    SplitSize(dbs, m);
    assert m * dbs == dbs * m;
    NothingOutside(m, dbs);
    NothingOutside(dbs, m);
  }

  /** No list, an empty one, or one with all six. */
  ghost predicate AllCategories(list: AnyList) {
    StringsOf(list) == [] ||
    {"deletion", "failure", "failover", "low storage", "maintenance", "notification"} <= Members(StringsOf(list))
  }

  /** A lone subscription of instance type whose list repeats nothing and names databases only: the check passes exactly
      when it names every database and lacks no category. */
  lemma VerdictExact(dbs: set<string>, ids: seq<string>, categories: AnyList)
    requires NoDuplicates(ids) && Members(ids) <= dbs
    ensures LoneVerdict(dbs, ids, MissingCategories(categories)).status.Pass? <==>
              Members(ids) == dbs && AllCategories(categories)
  {
    LengthsExact(dbs, ids);
    var strs := StringsOf(categories);
    assert MissingCategories(categories) == if strs == [] then {} else CATEGORIES - Members(strs);
    NothingOutside(CATEGORIES, Members(strs));
  }

  /** The cases. After a pass every database passes; when only coverage fails, a database passes exactly when it is
      listed; when a category is missing nothing passes, and each listed id is told what is missing once for
      every time it is listed. Every database and every listed id has a case of its own name. */
  lemma CasesExact(dbs: set<string>, ids: seq<string>, missing: set<string>)
    ensures var r := LoneVerdict(dbs, ids, missing);
            && r.cases.Keys == dbs + Members(ids)
            && (forall id :: id in r.cases ==> r.cases[id].name == id)
            && (r.status.Pass? ==> forall id :: id in r.cases ==> r.cases[id] == CaseResult(id, Found(id), Pass))
            && (missing == {} && !r.status.Pass? ==> forall id :: id in dbs ==> (r.cases[id].status.Pass? <==> id in ids))
            && (missing != {} ==> r.status.Fail? && forall id :: id in r.cases ==>
                  && r.cases[id].status.Fail?
                  && r.cases[id].reason == if id in ids then Blamed(Found(id), missing, Count(ids, id)) else NotFound(id))
  {
    if |ids| == |dbs| && missing == {} {
      var r := LoneVerdict(dbs, ids, missing);
      forall id | id in r.cases ensures r.cases[id] == PassedCase(id) {
      }
    }
  }

  /** A repeated id hides a database without a subscription: the check passes, and so does that database's case. */
  lemma RepeatHidesGap(a: string, b: string)
    requires a != b
    ensures var r := LoneVerdict({a, b}, [a, a], {});
            r.status.Pass? && b !in [a, a] && r.cases[b].status.Pass?
  {
    assert |{a, b}| == 2;
  }

  /** An id that is no database fails the check though every database is covered. */
  lemma ForeignIdFails(a: string, x: string)
    requires a != x
    ensures var r := LoneVerdict({a}, [a, x], {});
            r.status.Fail? && {a} <= Members([a, x]) && r.cases[a].status.Pass?
  {
    assert a in [a, x];
  }
}
