/** What the expressions of pkg/parselog/dynamic_parser.go accept: the text that each placeholder stands for.

    A shape is a list of character classes with how often they occur; Written is its text in the syntax of
    Go's regexp package, Accepts what it matches as a whole. */
module LogPrefixShapes {
  import opened Common
  import opened LogPrefixRegex

  // ----- Shapes -----

  datatype Class = Digit | Word | NotSpace | WordOrSpace | Sign | Any | Plainly(c: char) | Quoted(c: char)

  type Single = n: nat | n < 10

  datatype Times = Once | Exactly(n: Single) | OneOrMore | AnyNumber | AsFewAsPossible | AtMostOnce

  datatype Item = Item(cls: Class, times: Times)

  predicate IsDigit(c: char) {
    '0' <= c <= '9'
  }

  predicate IsWord(c: char) {
    IsDigit(c) || 'a' <= c <= 'z' || 'A' <= c <= 'Z' || c == '_'
  }

  predicate IsSpace(c: char) {
    c in {' ', '\t', '\n', '\r'} || c as int == 12
  }

  predicate Holds(cls: Class, c: char) {
    match cls
    case Digit => IsDigit(c)
    case Word => IsWord(c)
    case NotSpace => !IsSpace(c)
    case WordOrSpace => IsWord(c) || c == ' '
    case Sign => c in {'-', '+'}
    case Any => c != '\n'
    case Plainly(d) => c == d
    case Quoted(d) => c == d
  }

  function WrittenClass(cls: Class): string {
    match cls
    case Digit => "\\d"
    case Word => "\\w"
    case NotSpace => "\\S"
    case WordOrSpace => "[\\w ]"
    case Sign => "[\\-+]"
    case Any => "."
    case Plainly(c) => [c]
    case Quoted(c) => "\\" + [c]
  }

  function WrittenTimes(times: Times): string
  {
    match times
    case Once => ""
    case Exactly(n) => "{" + ["0123456789"[n]] + "}"
    case OneOrMore => "+"
    case AnyNumber => "*"
    case AsFewAsPossible => "*?"
    case AtMostOnce => "?"
  }

  function Written(items: seq<Item>): string
  {
    if items == [] then "" else WrittenItem(items[0]) + Written(items[1..])
  }

  predicate Often(times: Times, n: nat) {
    match times
    case Once => n == 1
    case Exactly(k) => n == k
    case OneOrMore => n >= 1
    case AnyNumber => true
    case AsFewAsPossible => true
    case AtMostOnce => n <= 1
  }

  predicate Repeats(item: Item, s: string) {
    Often(item.times, |s|) && forall i :: 0 <= i < |s| ==> Holds(item.cls, s[i])
  }

  /** The whole text, in pieces that the items take one after the other. */
  predicate Accepts(items: seq<Item>, s: string)
    decreases |items|
  {
    if items == [] then s == ""
    else exists i :: 0 <= i <= |s| && Repeats(items[0], s[..i]) && Accepts(items[1..], s[i..])
  }

  lemma AcceptsFirst(items: seq<Item>, head: string, tail: string)
    requires items != [] && Repeats(items[0], head) && Accepts(items[1..], tail)
    ensures Accepts(items, head + tail)
  {
    var s := head + tail;
    assert s[..|head|] == head && s[|head|..] == tail;
  }

  lemma AcceptsHead(items: seq<Item>, s: string) returns (head: string, tail: string)
    requires items != [] && Accepts(items, s)
    ensures s == head + tail && Repeats(items[0], head) && Accepts(items[1..], tail)
  {
    var i :| 0 <= i <= |s| && Repeats(items[0], s[..i]) && Accepts(items[1..], s[i..]);
    head, tail := s[..i], s[i..];
  }

  lemma NothingTakes(s: string)
    ensures Accepts([], s) <==> s == ""
  {
  }

  /** One shape after another takes the text in two pieces. */
  lemma {:induction false} JoinTakes(a: seq<Item>, b: seq<Item>, x: string, y: string)
    requires Accepts(a, x) && Accepts(b, y)
    ensures Accepts(a + b, x + y)
    decreases |a|
  {
    hide Repeats, Accepts;
    if a == [] {
      NothingTakes(x);
      assert a + b == b && x + y == y;
    } else {
      var head, tail := AcceptsHead(a, x);
      JoinTakes(a[1..], b, tail, y);
      assert (a + b)[0] == a[0] && (a + b)[1..] == a[1..] + b;
      Regroup(head, tail, y);
      AcceptsFirst(a + b, head, tail + y);
    }
  }

  lemma {:induction false} JoinSplits(a: seq<Item>, b: seq<Item>, s: string) returns (x: string, y: string)
    requires Accepts(a + b, s)
    ensures s == x + y && Accepts(a, x) && Accepts(b, y)
    decreases |a|
  {
    hide Repeats, Accepts;
    if a == [] {
      NothingTakes("");
      assert a + b == b;
      x, y := "", s;
    } else {
      assert (a + b)[0] == a[0] && (a + b)[1..] == a[1..] + b;
      var head, tail := AcceptsHead(a + b, s);
      x, y := JoinSplits(a[1..], b, tail);
      AcceptsFirst(a, head, x);
      Regroup(head, x, y);
      x := head + x;
    }
  }

  lemma OneItem(item: Item, s: string)
    ensures Accepts([item], s) <==> Repeats(item, s)
  {
    if Accepts([item], s) {
      var head, tail := AcceptsHead([item], s);
      assert [item][1..] == [] && head + "" == head;
    }
    if Repeats(item, s) {
      assert [item][1..] == [] && s + "" == s;
      AcceptsFirst([item], s, "");
    }
  }

  // ----- The placeholders -----

  const DATE := [Item(Digit, Exactly(4)), Item(Plainly('-'), Once), Item(Digit, Exactly(2)), Item(Plainly('-'), Once),
                 Item(Digit, Exactly(2))]
  const TIME := [Item(Digit, Exactly(2)), Item(Plainly(':'), Once), Item(Digit, Exactly(2)), Item(Plainly(':'), Once),
                 Item(Digit, Exactly(2))]
  const MILLISECONDS := [Item(Quoted('.'), Once), Item(Digit, OneOrMore)]
  const ZONE := [Item(Sign, AtMostOnce), Item(Word, OneOrMore)]
  const SPACE := [Item(Plainly(' '), Once)]

  function Shape(name: char): seq<Item> {
    match name
    case 'm' => DATE + SPACE + TIME + MILLISECONDS + SPACE + ZONE
    case 't' => DATE + SPACE + TIME + SPACE + ZONE
    case 's' => DATE + SPACE + TIME + SPACE + ZONE
    case 'p' => [Item(Digit, OneOrMore)]
    case 'l' => [Item(Digit, OneOrMore)]
    case 'x' => [Item(Digit, OneOrMore)]
    case 'u' => [Item(NotSpace, AnyNumber)]
    case 'd' => [Item(NotSpace, AnyNumber)]
    case 'a' => [Item(NotSpace, AnyNumber)]
    case 'h' => [Item(NotSpace, OneOrMore)]
    case 'r' => [Item(NotSpace, OneOrMore), Item(Quoted('('), Once), Item(Any, AsFewAsPossible), Item(Quoted(')'), Once)]
    case 'v' => [Item(Digit, OneOrMore), Item(Quoted('/'), Once), Item(Digit, OneOrMore)]
    case 'e' => [Item(Word, Exactly(5))]
    case 'c' => [Item(Word, OneOrMore), Item(Quoted('.'), Once), Item(Word, OneOrMore)]
    case 'b' => [Item(WordOrSpace, OneOrMore)]
    case _ => []
  }

  /** The group as a whole can be left out. */
  predicate MayBeMissing(name: char) {
    name in {'h', 'r', 'v', 'c'}
  }

  function WrittenItem(item: Item): string {
    WrittenClass(item.cls) + WrittenTimes(item.times)
  }

  lemma {:induction false} WrittenJoin(a: seq<Item>, b: seq<Item>)
    ensures Written(a + b) == Written(a) + Written(b)
  {
    hide WrittenItem;
    if a == [] {
      assert a + b == b;
    } else {
      assert (a + b)[0] == a[0] && (a + b)[1..] == a[1..] + b;
      WrittenJoin(a[1..], b);
    }
  }

  lemma WrittenOne(item: Item)
    ensures Written([item]) == WrittenItem(item)
  {
    assert [item][1..] == [];
    assert WrittenItem(item) + "" == WrittenItem(item);
  }

  lemma WrittenTwo(a: Item, b: Item)
    ensures Written([a, b]) == WrittenItem(a) + WrittenItem(b)
  {
    hide WrittenItem;
    WrittenJoin([a], [b]);
    WrittenOne(a);
    WrittenOne(b);
    assert [a] + [b] == [a, b];
  }

  lemma WrittenThree(a: Item, b: Item, c: Item)
    ensures Written([a, b, c]) == WrittenItem(a) + WrittenItem(b) + WrittenItem(c)
  {
    hide WrittenItem;
    WrittenTwo(a, b);
    WrittenJoin([a, b], [c]);
    WrittenOne(c);
    assert [a, b] + [c] == [a, b, c];
  }

  lemma WrittenFive(a: Item, b: Item, c: Item, d: Item, e: Item)
    ensures Written([a, b, c, d, e]) == WrittenItem(a) + WrittenItem(b) + WrittenItem(c) + (WrittenItem(d) + WrittenItem(e))
  {
    hide WrittenItem;
    WrittenThree(a, b, c);
    WrittenTwo(d, e);
    WrittenJoin([a, b, c], [d, e]);
    assert [a, b, c] + [d, e] == [a, b, c, d, e];
  }

  lemma DateText()
    ensures Written(DATE) == REGEXP_DATE && Written(TIME) == REGEXP_TIME
  {
    var four, two := Item(Digit, Exactly(4)), Item(Digit, Exactly(2));
    var dash, colon := Item(Plainly('-'), Once), Item(Plainly(':'), Once);
    DigitTexts(four, two);
    hide Written, WrittenItem;
    WrittenFive(four, dash, two, dash, two);
    WrittenFive(two, colon, two, colon, two);
    MarkTexts(dash, colon);
    ThreeParts("\\d{4}", "-", "\\d{2}", "-\\d{2}");
    ThreeParts("\\d{2}", ":", "\\d{2}", ":\\d{2}");
  }

  lemma DigitTexts(four: Item, two: Item)
    requires four == Item(Digit, Exactly(4)) && two == Item(Digit, Exactly(2))
    ensures WrittenItem(four) == "\\d{4}" && WrittenItem(two) == "\\d{2}"
  {
  }

  lemma MarkTexts(dash: Item, colon: Item)
    requires dash == Item(Plainly('-'), Once) && colon == Item(Plainly(':'), Once)
    ensures WrittenItem(dash) == "-" && WrittenItem(colon) == ":"
  {
  }

  lemma ThreeParts(x: string, mark: string, y: string, marked: string)
    requires marked == mark + y
    ensures x + mark + y + (mark + y) == x + marked + marked
  {
  }

  lemma SmallTexts()
    ensures Written(MILLISECONDS) == REGEXP_MILISECONDS && Written(ZONE) == REGEXP_TIMEZONE && Written(SPACE) == " "
  {
    WrittenTwo(MILLISECONDS[0], MILLISECONDS[1]);
    WrittenTwo(ZONE[0], ZONE[1]);
    WrittenOne(SPACE[0]);
    assert "\\" + ['.'] + "" + ("\\d" + "+") == "\\.\\d+";
    assert "[\\-+]" + "?" + ("\\w" + "+") == "[\\-+]?" + "\\w+";
  }

  /** The text that the compiler emits for a placeholder is one group around its shape. */
  lemma FragmentText(name: char)
    requires name in KNOWN
    ensures Fragment(name) == "(" + Written(Shape(name)) + ")" + if MayBeMissing(name) then "?" else ""
  {
    if name in {'m', 't', 's'} {
      TimestampTexts(name);
    } else if name in {'r', 'v', 'c'} {
      PairTexts(name);
    } else {
      WrittenOne(Shape(name)[0]);
      OneTexts(name);
    }
  }

  lemma OneTexts(name: char)
    requires name in KNOWN - {'m', 't', 's', 'r', 'v', 'c'}
    ensures Fragment(name) == "(" + WrittenItem(Shape(name)[0]) + ")" + if MayBeMissing(name) then "?" else ""
  {
    assert "{" + ["0123456789"[5]] + "}" == "{5}";
  }

  lemma TimestampTexts(name: char)
    requires name in {'m', 't', 's'}
    ensures Fragment(name) == "(" + Written(Shape(name)) + ")" + ""
  {
    hide Written;
    DateText();
    SmallTexts();
    WrittenJoin(DATE, SPACE);
    WrittenJoin(DATE + SPACE, TIME);
    WrittenJoin(DATE + SPACE + TIME, MILLISECONDS);
    WrittenJoin(DATE + SPACE + TIME + MILLISECONDS, SPACE);
    WrittenJoin(DATE + SPACE + TIME + MILLISECONDS + SPACE, ZONE);
    WrittenJoin(DATE + SPACE + TIME, SPACE);
    WrittenJoin(DATE + SPACE + TIME + SPACE, ZONE);
    TimestampText(REGEXP_DATE, REGEXP_TIME, REGEXP_MILISECONDS, REGEXP_TIMEZONE);
    TimestampText(REGEXP_DATE, REGEXP_TIME, "", REGEXP_TIMEZONE);
  }

  lemma PairTexts(name: char)
    requires name in {'r', 'v', 'c'}
    ensures Fragment(name) == "(" + Written(Shape(name)) + ")" + "?"
  {
    hide Written;
    if name == 'r' {
      HostText();
    } else if name == 'v' {
      NumbersText();
    } else {
      NamesText();
    }
  }

  lemma HostText()
    ensures "(" + Written(Shape('r')) + ")" + "?" == REGEXP_HOST_WITH_PORT
  {
    var host, opening := Item(NotSpace, OneOrMore), Item(Quoted('('), Once);
    var port, closing := Item(Any, AsFewAsPossible), Item(Quoted(')'), Once);
    assert Shape('r') == [host, opening] + [port, closing];
    HostItems(host, opening, port, closing);
    hide Written, WrittenItem, Shape;
    WrittenJoin([host, opening], [port, closing]);
    WrittenTwo(host, opening);
    WrittenTwo(port, closing);
  }

  lemma HostItems(host: Item, opening: Item, port: Item, closing: Item)
    requires host == Item(NotSpace, OneOrMore) && opening == Item(Quoted('('), Once)
    requires port == Item(Any, AsFewAsPossible) && closing == Item(Quoted(')'), Once)
    ensures WrittenItem(host) + WrittenItem(opening) == "\\S+\\("
    ensures WrittenItem(port) + WrittenItem(closing) == ".*?\\)"
  {
  }

  lemma NumbersText()
    ensures "(" + Written(Shape('v')) + ")" + "?" == REGEXP_INT_WITH_SLACE
  {
    var items := Shape('v');
    WrittenThree(items[0], items[1], items[2]);
    hide Written;
    assert WrittenItem(items[0]) + WrittenItem(items[1]) + WrittenItem(items[2]) == "\\d+\\/\\d+";
  }

  lemma NamesText()
    ensures "(" + Written(Shape('c')) + ")" + "?" == REGEXP_STRING_WITH_DOT
  {
    var items := Shape('c');
    WrittenThree(items[0], items[1], items[2]);
    hide Written;
    assert WrittenItem(items[0]) + WrittenItem(items[1]) + WrittenItem(items[2]) == "\\w+\\.\\w+";
  }

  // ----- What the placeholders accept -----

  predicate IsNumber(s: string) {
    s != "" && forall i :: 0 <= i < |s| ==> '0' <= s[i] <= '9'
  }

  predicate TwoDigits(s: string) {
    |s| == 2 && IsNumber(s)
  }

  predicate FourDigits(s: string) {
    |s| == 4 && IsNumber(s)
  }

  predicate IsName(s: string) {
    s != "" && forall i :: 0 <= i < |s| ==> '0' <= s[i] <= '9' || 'a' <= s[i] <= 'z' || 'A' <= s[i] <= 'Z' || s[i] == '_'
  }

  predicate IsErrorCode(s: string) {
    |s| == 5 && IsName(s)
  }

  predicate NoSpace(s: string) {
    forall i :: 0 <= i < |s| ==> s[i] !in {' ', '\t', '\n', '\r'} && s[i] as int != 12
  }

  predicate IsHost(s: string) {
    s != "" && NoSpace(s)
  }

  predicate IsBackendType(s: string) {
    s != "" && forall i :: 0 <= i < |s| ==> s[i] == ' ' || IsName([s[i]])
  }

  predicate IsOneLine(s: string) {
    '\n' !in s
  }

  predicate IsEmpty(s: string) {
    s == ""
  }

  /** Two texts with a character between them. */
  ghost predicate Two(first: string -> bool, c: char, second: string -> bool, s: string) {
    exists x, y :: s == x + [c] + y && first(x) && second(y)
  }

  /** dd-dd */
  ghost predicate IsMonthAndDay(s: string) {
    Two(TwoDigits, '-', TwoDigits, s)
  }

  /** dddd-dd-dd */
  ghost predicate IsDate(s: string) {
    Two(FourDigits, '-', IsMonthAndDay, s)
  }

  /** dd:dd */
  ghost predicate IsMinuteAndSecond(s: string) {
    Two(TwoDigits, ':', TwoDigits, s)
  }

  /** dd:dd:dd */
  ghost predicate IsTime(s: string) {
    Two(TwoDigits, ':', IsMinuteAndSecond, s)
  }

  /** A name of a zone, or an offset with a sign. */
  predicate IsZone(s: string) {
    IsName(s) || (s != "" && s[0] in {'-', '+'} && IsName(s[1..]))
  }

  ghost predicate IsTimeAndZone(s: string) {
    Two(IsTime, ' ', IsZone, s)
  }

  ghost predicate IsTimestamp(s: string) {
    Two(IsDate, ' ', IsTimeAndZone, s)
  }

  ghost predicate IsFractionAndZone(s: string) {
    Two(IsNumber, ' ', IsZone, s)
  }

  ghost predicate IsMilliTimeAndZone(s: string) {
    Two(IsTime, '.', IsFractionAndZone, s)
  }

  ghost predicate IsMilliTimestamp(s: string) {
    Two(IsDate, ' ', IsMilliTimeAndZone, s)
  }

  ghost predicate IsClosedPort(s: string) {
    Two(IsOneLine, ')', IsEmpty, s)
  }

  /** host(port) */
  ghost predicate IsHostWithPort(s: string) {
    Two(IsHost, '(', IsClosedPort, s)
  }

  /** The texts that a placeholder stands for. */
  ghost predicate StandsFor(name: char, s: string) {
    match name
    case 'm' => IsMilliTimestamp(s)
    case 't' => IsTimestamp(s)
    case 's' => IsTimestamp(s)
    case 'p' => IsNumber(s)
    case 'l' => IsNumber(s)
    case 'x' => IsNumber(s)
    case 'u' => NoSpace(s)
    case 'd' => NoSpace(s)
    case 'a' => NoSpace(s)
    case 'h' => IsHost(s)
    case 'r' => IsHostWithPort(s)
    case 'v' => Two(IsNumber, '/', IsNumber, s)
    case 'e' => IsErrorCode(s)
    case 'c' => Two(IsName, '.', IsName, s)
    case 'b' => IsBackendType(s)
    case _ => false
  }

  lemma Digits(s: string)
    ensures Accepts([Item(Digit, OneOrMore)], s) <==> IsNumber(s)
    ensures Accepts([Item(Digit, Exactly(2))], s) <==> TwoDigits(s)
    ensures Accepts([Item(Digit, Exactly(4))], s) <==> FourDigits(s)
  {
    hide Accepts;
    OneItem(Item(Digit, OneOrMore), s);
    OneItem(Item(Digit, Exactly(2)), s);
    OneItem(Item(Digit, Exactly(4)), s);
  }

  lemma Names(s: string)
    ensures Accepts([Item(Word, OneOrMore)], s) <==> IsName(s)
    ensures Accepts([Item(Word, Exactly(5))], s) <==> IsErrorCode(s)
  {
    hide Accepts;
    OneItem(Item(Word, OneOrMore), s);
    OneItem(Item(Word, Exactly(5)), s);
  }

  lemma Spaceless(s: string)
    ensures Accepts([Item(NotSpace, AnyNumber)], s) <==> NoSpace(s)
    ensures Accepts([Item(NotSpace, OneOrMore)], s) <==> IsHost(s)
  {
    hide Accepts;
    OneItem(Item(NotSpace, AnyNumber), s);
    OneItem(Item(NotSpace, OneOrMore), s);
  }

  lemma BackendTypes(s: string)
    ensures Accepts([Item(WordOrSpace, OneOrMore)], s) <==> IsBackendType(s)
  {
    hide Accepts;
    OneItem(Item(WordOrSpace, OneOrMore), s);
    forall i | 0 <= i < |s| ensures IsName([s[i]]) <==> IsWord(s[i]) {
      assert [s[i]][0] == s[i];
    }
  }

  lemma OneLines(s: string)
    ensures Accepts([Item(Any, AsFewAsPossible)], s) <==> IsOneLine(s)
    ensures Accepts([], s) <==> IsEmpty(s)
  {
    OneItem(Item(Any, AsFewAsPossible), s);
  }

  lemma MarkAlone(mark: Item, c: char, s: string)
    requires mark == Item(Plainly(c), Once) || mark == Item(Quoted(c), Once)
    ensures Accepts([mark], s) <==> s == [c]
  {
    hide Accepts;
    OneItem(mark, s);
  }

  /** Two shapes with a character between them. */
  lemma TwoShapes(a: seq<Item>, mark: Item, c: char, b: seq<Item>, first: string -> bool, second: string -> bool, s: string)
    requires mark == Item(Plainly(c), Once) || mark == Item(Quoted(c), Once)
    requires forall t :: Accepts(a, t) <==> first(t)
    requires forall t :: Accepts(b, t) <==> second(t)
    ensures Accepts(a + [mark] + b, s) <==> Two(first, c, second, s)
  {
    hide Accepts;
    if Accepts(a + [mark] + b, s) {
      var front, y := JoinSplits(a + [mark], b, s);
      var x, m := JoinSplits(a, [mark], front);
      MarkAlone(mark, c, m);
      assert s == x + [c] + y && first(x) && second(y);
    }
    if Two(first, c, second, s) {
      var x, y :| s == x + [c] + y && first(x) && second(y);
      MarkAlone(mark, c, [c]);
      JoinTakes(a, [mark], x, [c]);
      JoinTakes(a + [mark], b, x + [c], y);
    }
  }

  lemma Dates(s: string)
    ensures Accepts(DATE, s) <==> IsDate(s)
  {
    var dash, two := Item(Plainly('-'), Once), [Item(Digit, Exactly(2))];
    assert DATE == [Item(Digit, Exactly(4))] + [dash] + (two + [dash] + two);
    hide Accepts, Two;
    forall t ensures Accepts(two, t) <==> TwoDigits(t)
             ensures Accepts([Item(Digit, Exactly(4))], t) <==> FourDigits(t)
    {
      Digits(t);
    }
    forall t ensures Accepts(two + [dash] + two, t) <==> IsMonthAndDay(t) {
      TwoShapes(two, dash, '-', two, TwoDigits, TwoDigits, t);
    }
    TwoShapes([Item(Digit, Exactly(4))], dash, '-', two + [dash] + two, FourDigits, IsMonthAndDay, s);
  }

  lemma TimesOfDay(s: string)
    ensures Accepts(TIME, s) <==> IsTime(s)
  {
    var colon, two := Item(Plainly(':'), Once), [Item(Digit, Exactly(2))];
    assert TIME == two + [colon] + (two + [colon] + two);
    hide Accepts, Two;
    forall t ensures Accepts(two, t) <==> TwoDigits(t) {
      Digits(t);
    }
    forall t ensures Accepts(two + [colon] + two, t) <==> IsMinuteAndSecond(t) {
      TwoShapes(two, colon, ':', two, TwoDigits, TwoDigits, t);
    }
    TwoShapes(two, colon, ':', two + [colon] + two, TwoDigits, IsMinuteAndSecond, s);
  }

  lemma Signs(s: string)
    ensures Accepts([Item(Sign, AtMostOnce)], s) <==> s == "" || s == "-" || s == "+"
  {
    hide Accepts;
    OneItem(Item(Sign, AtMostOnce), s);
  }

  lemma Zones(s: string)
    ensures Accepts(ZONE, s) <==> IsZone(s)
  {
    var sign, name := [Item(Sign, AtMostOnce)], [Item(Word, OneOrMore)];
    assert ZONE == sign + name;
    hide Accepts, IsName;
    if Accepts(ZONE, s) {
      var x, y := JoinSplits(sign, name, s);
      Signs(x);
      Names(y);
      assert x == "" ==> s == y;
      assert x != "" ==> s[1..] == y;
    }
    if IsName(s) {
      Signs("");
      Names(s);
      JoinTakes(sign, name, "", s);
      assert "" + s == s;
    } else if s != "" && s[0] in {'-', '+'} && IsName(s[1..]) {
      Signs([s[0]]);
      Names(s[1..]);
      JoinTakes(sign, name, [s[0]], s[1..]);
      assert [s[0]] + s[1..] == s;
    }
  }

  lemma TimesAndZones(s: string)
    ensures Accepts(TIME + SPACE + ZONE, s) <==> IsTimeAndZone(s)
  {
    hide Accepts, Two, IsTime, IsZone;
    forall t ensures Accepts(TIME, t) <==> IsTime(t) { TimesOfDay(t); }
    forall t ensures Accepts(ZONE, t) <==> IsZone(t) { Zones(t); }
    TwoShapes(TIME, Item(Plainly(' '), Once), ' ', ZONE, IsTime, IsZone, s);
  }

  lemma FractionsAndZones(s: string)
    ensures Accepts([Item(Digit, OneOrMore)] + SPACE + ZONE, s) <==> IsFractionAndZone(s)
  {
    hide Accepts, Two, IsNumber, IsZone;
    forall t ensures Accepts([Item(Digit, OneOrMore)], t) <==> IsNumber(t) { Digits(t); }
    forall t ensures Accepts(ZONE, t) <==> IsZone(t) { Zones(t); }
    TwoShapes([Item(Digit, OneOrMore)], Item(Plainly(' '), Once), ' ', ZONE, IsNumber, IsZone, s);
  }

  lemma MilliTimesAndZones(s: string)
    ensures Accepts(TIME + [Item(Quoted('.'), Once)] + ([Item(Digit, OneOrMore)] + SPACE + ZONE), s) <==> IsMilliTimeAndZone(s)
  {
    hide Accepts, Two, IsTime, IsFractionAndZone;
    var rest := [Item(Digit, OneOrMore)] + SPACE + ZONE;
    forall t ensures Accepts(TIME, t) <==> IsTime(t) { TimesOfDay(t); }
    forall t ensures Accepts(rest, t) <==> IsFractionAndZone(t) { FractionsAndZones(t); }
    TwoShapes(TIME, Item(Quoted('.'), Once), '.', rest, IsTime, IsFractionAndZone, s);
  }

  lemma Timestamps(s: string)
    ensures Accepts(Shape('t'), s) <==> IsTimestamp(s)
    ensures Accepts(Shape('m'), s) <==> IsMilliTimestamp(s)
  {
    var space, rest := Item(Plainly(' '), Once), TIME + SPACE + ZONE;
    var milliRest := TIME + [Item(Quoted('.'), Once)] + ([Item(Digit, OneOrMore)] + SPACE + ZONE);
    assert Shape('t') == DATE + [space] + rest;
    assert Shape('m') == DATE + [space] + milliRest;
    hide Accepts, Two, IsDate, IsTimeAndZone, IsMilliTimeAndZone;
    forall t ensures Accepts(DATE, t) <==> IsDate(t) { Dates(t); }
    forall t ensures Accepts(rest, t) <==> IsTimeAndZone(t) { TimesAndZones(t); }
    forall t ensures Accepts(milliRest, t) <==> IsMilliTimeAndZone(t) { MilliTimesAndZones(t); }
    TwoShapes(DATE, space, ' ', rest, IsDate, IsTimeAndZone, s);
    TwoShapes(DATE, space, ' ', milliRest, IsDate, IsMilliTimeAndZone, s);
  }

  lemma HostsWithPorts(s: string)
    ensures Accepts(Shape('r'), s) <==> IsHostWithPort(s)
  {
    var host, port, closing := [Item(NotSpace, OneOrMore)], [Item(Any, AsFewAsPossible)], Item(Quoted(')'), Once);
    var rest := port + [closing] + [];
    assert Shape('r') == host + [Item(Quoted('('), Once)] + rest;
    hide Accepts, Two, IsHost, IsOneLine, IsEmpty;
    forall t ensures Accepts(host, t) <==> IsHost(t) { Spaceless(t); }
    forall t ensures Accepts(port, t) <==> IsOneLine(t)
             ensures Accepts([], t) <==> IsEmpty(t)
    {
      OneLines(t);
    }
    forall t ensures Accepts(rest, t) <==> IsClosedPort(t) {
      TwoShapes(port, closing, ')', [], IsOneLine, IsEmpty, t);
    }
    TwoShapes(host, Item(Quoted('('), Once), '(', rest, IsHost, IsClosedPort, s);
  }

  lemma Pairs(s: string)
    ensures Accepts(Shape('v'), s) <==> Two(IsNumber, '/', IsNumber, s)
    ensures Accepts(Shape('c'), s) <==> Two(IsName, '.', IsName, s)
  {
    var number, word := [Item(Digit, OneOrMore)], [Item(Word, OneOrMore)];
    assert Shape('v') == number + [Item(Quoted('/'), Once)] + number;
    assert Shape('c') == word + [Item(Quoted('.'), Once)] + word;
    hide Accepts, Two, IsNumber, IsName;
    forall t ensures Accepts(number, t) <==> IsNumber(t) { Digits(t); }
    forall t ensures Accepts(word, t) <==> IsName(t) { Names(t); }
    TwoShapes(number, Item(Quoted('/'), Once), '/', number, IsNumber, IsNumber, s);
    TwoShapes(word, Item(Quoted('.'), Once), '.', word, IsName, IsName, s);
  }

  lemma Singles(name: char, s: string)
    requires name in {'p', 'l', 'x', 'u', 'd', 'a', 'h', 'e', 'b'}
    ensures Accepts(Shape(name), s) <==> StandsFor(name, s)
  {
    hide Accepts, IsNumber, IsName, NoSpace, IsErrorCode, IsHost, IsBackendType;
    Digits(s);
    Names(s);
    Spaceless(s);
    BackendTypes(s);
  }

  /** A placeholder's shape accepts exactly the texts that the placeholder stands for. */
  lemma PlaceholderMeaning(name: char, s: string)
    requires name in KNOWN
    ensures Accepts(Shape(name), s) <==> StandsFor(name, s)
  {
    hide Accepts, Two, IsNumber, IsName, NoSpace, IsErrorCode, IsHost, IsBackendType;
    hide IsTimestamp, IsMilliTimestamp, IsHostWithPort;
    if name in {'m', 't', 's'} {
      Timestamps(s);
      assert Shape('s') == Shape('t');
    } else if name in {'v', 'c'} {
      Pairs(s);
    } else if name == 'r' {
      HostsWithPorts(s);
    } else {
      Singles(name, s);
    }
  }

  // ----- What a whole prefix accepts -----

  /** Reading from the left, every percent sign is followed by a character that needs no quoting and is not q. */
  predicate PairsOrdinary(p: string) {
    p == "" ||
    if p[0] != '%' then PairsOrdinary(p[1..]) else |p| > 1 && p[1] !in META && p[1] != 'q' && PairsOrdinary(p[2..])
  }

  /** A group can be optional as a whole. */
  datatype Part = Part(items: seq<Item>, group: bool, optional: bool)

  function Parts(p: string): seq<Part> {
    if p == "" then []
    else if p[0] != '%' then [Part([LiteralItem(p[0])], false, false)] + Parts(p[1..])
    else if |p| == 1 then []
    else PairParts(p[1]) + Parts(p[2..])
  }

  function PairParts(name: char): seq<Part> {
    if name in KNOWN then [Part(Shape(name), true, MayBeMissing(name))] else []
  }

  function LiteralItem(c: char): Item {
    Item(if c in META then Quoted(c) else Plainly(c), Once)
  }

  function PartText(part: Part): string {
    if part.group then "(" + Written(part.items) + ")" + if part.optional then "?" else "" else Written(part.items)
  }

  function PartsText(parts: seq<Part>): string {
    if parts == [] then "" else PartText(parts[0]) + PartsText(parts[1..])
  }

  predicate PartTakes(part: Part, s: string) {
    Accepts(part.items, s) || (part.optional && s == "")
  }

  ghost predicate PartsTake(parts: seq<Part>, s: string)
    decreases |parts|
  {
    if parts == [] then s == ""
    else exists x, y :: s == x + y && PartTakes(parts[0], x) && PartsTake(parts[1..], y)
  }

  /** A line's prefix: the prefix itself, with one of its texts in the place of each placeholder and nothing in that of an
      unknown one. */
  ghost predicate Spelled(p: string, s: string) {
    if p == "" then s == ""
    else if p[0] != '%' then s != "" && s[0] == p[0] && Spelled(p[1..], s[1..])
    else if |p| == 1 then s == ""
    else if p[1] !in "mtspudahrvlexcb" then Spelled(p[2..], s)
    else exists x, y :: s == x + y && (StandsFor(p[1], x) || (p[1] in "hrvc" && x == "")) && Spelled(p[2..], y)
  }

  lemma LiteralText(c: char)
    ensures var special := {'\\', '.', '+', '*', '?', '(', ')', '|', '[', ']', '{', '}', '^', '$'};
            Written([LiteralItem(c)]) == if c in special then "\\" + [c] else [c]
    ensures Written([LiteralItem(c)]) == Quote(c)
  {
    WrittenOne(LiteralItem(c));
    assert "\\" + [c] + "" == ['\\', c] && [c] + "" == [c];
  }

  lemma LiteralTakes(c: char, s: string)
    ensures Accepts([LiteralItem(c)], s) <==> s == [c]
  {
    MarkAlone(LiteralItem(c), c, s);
  }

  lemma {:induction false} PartsJoin(a: seq<Part>, b: seq<Part>)
    ensures PartsText(a + b) == PartsText(a) + PartsText(b)
  {
    hide PartText;
    if a == [] {
      assert a + b == b;
    } else {
      assert (a + b)[0] == a[0] && (a + b)[1..] == a[1..] + b;
      PartsJoin(a[1..], b);
    }
  }

  lemma OnePart(part: Part)
    ensures PartsText([part]) == PartText(part)
  {
    hide PartText;
    assert [part][1..] == [] && PartText(part) + "" == PartText(part);
  }

  lemma RawText(c: char, first: seq<Piece>)
    requires first == if c in META then [Raw('\\'), Raw(c)] else [Raw(c)]
    ensures Rendered(first) == Quote(c) && OpenOptional !in first
  {
    hide Rendered;
    OnePiece(Raw(c), 0);
    OnePiece(Raw('\\'), 0);
    RenderedJoin([Raw('\\')], [Raw(c)]);
    assert [Raw('\\')] + [Raw(c)] == [Raw('\\'), Raw(c)];
  }

  lemma PairText(name: char)
    requires name !in META && name != 'q'
    ensures Rendered(PairPieces(name)) == PartsText(PairParts(name)) && OpenOptional !in PairPieces(name)
  {
    hide Fragment, Shape, Written;
    if name in KNOWN {
      OnePiece(Placeholder(name), 0);
      OnePart(PairParts(name)[0]);
      FragmentText(name);
    }
  }

  /** The text that the compiler emits for a prefix is the text of its parts. */
  lemma {:induction false} PrefixText(p: string)
    requires PairsOrdinary(p)
    ensures Emit(QuoteMeta(p)).Some?
    ensures Rendered(Emit(QuoteMeta(p)).value) == PartsText(Parts(p)) && OpenOptional !in Emit(QuoteMeta(p)).value
    decreases |p|
  {
    hide Fragment, Emit, QuoteMeta, Rendered, PartsText, Written, PairPieces, PairParts, LiteralItem, Quote;
    if p == "" {
      EmptyScan(START);
      EmptyTexts();
    } else if p[0] != '%' {
      var first := RawPieces(p);
      PrefixText(p[1..]);
      RawText(p[0], first);
      RenderedJoin(first, Emit(QuoteMeta(p[1..])).value);
      PartsJoin([Part([LiteralItem(p[0])], false, false)], Parts(p[1..]));
      OnePart(Part([LiteralItem(p[0])], false, false));
      LiteralText(p[0]);
    } else {
      var first := PercentPieces(p);
      PrefixText(p[2..]);
      PairText(p[1]);
      RenderedJoin(first, Emit(QuoteMeta(p[2..])).value);
      PartsJoin(PairParts(p[1]), Parts(p[2..]));
    }
  }

  lemma EmptyTexts()
    ensures Rendered([]) == "" && PartsText([]) == ""
  {
  }

  lemma PartsTakeFirst(part: Part, rest: seq<Part>, s: string)
    ensures PartsTake([part] + rest, s) <==> exists x, y :: s == x + y && PartTakes(part, x) && PartsTake(rest, y)
  {
    hide PartTakes;
    assert ([part] + rest)[1..] == rest;
  }

  /** The parts of a prefix accept exactly the prefix of a line. */
  lemma {:induction false} PrefixMeaning(p: string, s: string)
    requires PairsOrdinary(p)
    ensures PartsTake(Parts(p), s) <==> Spelled(p, s)
    decreases |p|
  {
    hide Accepts, PartsTake, Shape, StandsFor, LiteralItem, MayBeMissing;
    if p == "" {
      NoParts(s);
    } else if p[0] != '%' {
      CharacterMeaning(p[0], Parts(p[1..]), s);
      if s != "" {
        PrefixMeaning(p[1..], s[1..]);
      }
    } else if p[1] in KNOWN {
      forall y ensures PartsTake(Parts(p[2..]), y) <==> Spelled(p[2..], y) {
        PrefixMeaning(p[2..], y);
      }
      forall x ensures PartTakes(PairParts(p[1])[0], x) <==> StandsFor(p[1], x) || (p[1] in "hrvc" && x == "") {
        PlaceholderMeaning(p[1], x);
        Missing(p[1]);
      }
      PartsTakeFirst(PairParts(p[1])[0], Parts(p[2..]), s);
    } else {
      PrefixMeaning(p[2..], s);
      assert [] + Parts(p[2..]) == Parts(p[2..]);
    }
  }

  lemma NoParts(s: string)
    ensures PartsTake([], s) <==> s == ""
  {
  }

  lemma Missing(name: char)
    ensures MayBeMissing(name) <==> name in "hrvc"
    ensures name in KNOWN <==> name in "mtspudahrvlexcb"
  {
  }

  lemma CharacterMeaning(c: char, rest: seq<Part>, s: string)
    ensures PartsTake([Part([LiteralItem(c)], false, false)] + rest, s) <==> s != "" && s[0] == c && PartsTake(rest, s[1..])
  {
    hide Accepts, PartsTake, LiteralItem;
    var part := Part([LiteralItem(c)], false, false);
    PartsTakeFirst(part, rest, s);
    if PartsTake([part] + rest, s) {
      var x, y :| s == x + y && PartTakes(part, x) && PartsTake(rest, y);
      LiteralTakes(c, x);
      assert s[1..] == y;
    }
    if s != "" && s[0] == c && PartsTake(rest, s[1..]) {
      LiteralTakes(c, [c]);
      assert s == [c] + s[1..] && PartTakes(part, [c]);
    }
  }

  // ----- The whole expression -----

  const LEVELS := ["DEBUG5", "DEBUG4", "DEBUG3", "DEBUG2", "DEBUG1"]
    + ["INFO", "NOTICE", "LOG", "WARNING", "ERROR", "FATAL", "PANIC"]
    + ["DETAIL", "HINT", "STATEMENT", "CONTEXT", "LOCATION"]

  function Alternatives(names: seq<string>): string {
    if names == [] then "" else if |names| == 1 then names[0] else names[0] + "|" + Alternatives(names[1..])
  }

  lemma {:induction false} AlternativesJoin(a: seq<string>, b: seq<string>)
    requires a != [] && b != []
    ensures Alternatives(a + b) == Alternatives(a) + "|" + Alternatives(b)
  {
    assert (a + b)[0] == a[0] && (a + b)[1..] == a[1..] + b;
    if |a| > 1 {
      AlternativesJoin(a[1..], b);
    }
  }

  lemma TwoAlternatives(x: string, y: string)
    ensures Alternatives([x, y]) == x + "|" + y && Alternatives([x]) == x
  {
    assert [x, y][1..] == [y];
  }

  lemma FourAlternatives(a: string, b: string, c: string, d: string)
    ensures Alternatives([a, b, c, d]) == (a + "|" + b) + "|" + (c + "|" + d)
  {
    hide Alternatives;
    TwoAlternatives(a, b);
    TwoAlternatives(c, d);
    AlternativesJoin([a, b], [c, d]);
    assert [a, b] + [c, d] == [a, b, c, d];
  }

  lemma ThreeAlternatives(a: string, b: string, c: string)
    ensures Alternatives([a, b, c]) == (a + "|" + b) + "|" + c
  {
    hide Alternatives;
    TwoAlternatives(a, b);
    TwoAlternatives(c, "");
    AlternativesJoin([a, b], [c]);
    assert [a, b] + [c] == [a, b, c];
  }

  lemma FirstLevels()
    ensures Alternatives(LEVELS[..5]) + "|" == FIRST_LEVELS
  {
    var names := ["DEBUG5", "DEBUG4", "DEBUG3", "DEBUG2"] + ["DEBUG1"];
    assert LEVELS[..5] == names;
    hide Alternatives;
    FourAlternatives("DEBUG5", "DEBUG4", "DEBUG3", "DEBUG2");
    TwoAlternatives("DEBUG1", "");
    AlternativesJoin(["DEBUG5", "DEBUG4", "DEBUG3", "DEBUG2"], ["DEBUG1"]);
  }

  lemma MiddleLevels()
    ensures Alternatives(LEVELS[5..12]) + "|" == MIDDLE_LEVELS
  {
    assert LEVELS[5..12] == ["INFO", "NOTICE", "LOG", "WARNING"] + ["ERROR", "FATAL", "PANIC"];
    hide Alternatives;
    FirstOfMiddle();
    LastOfMiddle();
    AlternativesJoin(["INFO", "NOTICE", "LOG", "WARNING"], ["ERROR", "FATAL", "PANIC"]);
  }

  lemma FirstOfMiddle()
    ensures Alternatives(["INFO", "NOTICE", "LOG", "WARNING"]) == "INFO|NOTICE|LOG|WARNING"
  {
    FourAlternatives("INFO", "NOTICE", "LOG", "WARNING");
  }

  lemma LastOfMiddle()
    ensures Alternatives(["ERROR", "FATAL", "PANIC"]) == "ERROR|FATAL|PANIC"
  {
    ThreeAlternatives("ERROR", "FATAL", "PANIC");
  }

  lemma LastLevels()
    ensures Alternatives(LEVELS[12..]) == LAST_LEVELS
  {
    var names := ["DETAIL", "HINT", "STATEMENT", "CONTEXT"] + ["LOCATION"];
    assert LEVELS[12..] == names;
    hide Alternatives;
    FourAlternatives("DETAIL", "HINT", "STATEMENT", "CONTEXT");
    TwoAlternatives("LOCATION", "");
    AlternativesJoin(["DETAIL", "HINT", "STATEMENT", "CONTEXT"], ["LOCATION"]);
  }

  lemma AllLevels()
    ensures Alternatives(LEVELS) == REGEXP_LEVELS
  {
    hide Alternatives;
    FirstLevels();
    MiddleLevels();
    LastLevels();
    var first, middle, last := LEVELS[..5], LEVELS[5..12], LEVELS[12..];
    AlternativesJoin(first, middle);
    AlternativesJoin(first + middle, last);
    assert LEVELS == first + middle + last;
    Around(Alternatives(first), "|", Alternatives(middle), Alternatives(last));
  }

  lemma Around(x: string, bar: string, y: string, z: string)
    ensures (x + bar + y) + bar + z == (x + bar) + (y + bar) + z
  {
  }

  /** A prefix without %q compiles to its parts between optional spaces, the level with its colon, and the content. */
  lemma CompiledText(p: string)
    requires PairsOrdinary(p)
    ensures Emit(QuoteMeta(p)).Some?
    ensures Regex(Emit(QuoteMeta(p)).value)
         == "(\\s*)" + PartsText(Parts(p)) + "" + "(\\s*)" + ("(" + Alternatives(LEVELS) + "):") + ("\\s+" + "(.*)$")
  {
    hide Alternatives, PartsText, Emit, QuoteMeta, Rendered;
    PrefixText(p);
    AllLevels();
  }

  /** What follows %q is one part that can be left out. */
  lemma CompiledOptional(a: string, b: string)
    requires PairsOrdinary(a) && PairsOrdinary(b)
    ensures Emit(QuoteMeta(a + ("%q" + b))).Some?
    ensures Regex(Emit(QuoteMeta(a + ("%q" + b))).value)
         == "(\\s*)" + (PartsText(Parts(a)) + ("(?:" + PartsText(Parts(b)))) + ")?" + "(\\s*)"
            + ("(" + Alternatives(LEVELS) + "):") + ("\\s+" + "(.*)$")
  {
    hide Alternatives, PartsText, Emit, QuoteMeta, Rendered, Fragment, PairsOrdinary, Dangling;
    PrefixText(a);
    PrefixText(b);
    AllLevels();
    PanicExact(a);
    EmitJoin(a, "%q" + b);
    var first := PercentPieces("%q" + b);
    assert ("%q" + b)[2..] == b;
    var as', bs := Emit(QuoteMeta(a)).value, Emit(QuoteMeta(b)).value;
    RenderedJoin([OpenOptional], bs);
    RenderedJoin(as', [OpenOptional] + bs);
    OnePiece(OpenOptional, 0);
  }
}
