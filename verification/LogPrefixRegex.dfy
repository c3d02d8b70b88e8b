/** The log_line_prefix to regular expression compiler of pkg/parselog/dynamic_parser.go, and the index
    arithmetic of pkg/parselog/logline_prefix_parser.go that reads its capture groups.

    The generated expression is only scanned here, not matched: Run counts capture groups and checks that
    parentheses balance, knowing escapes, character classes, (?: and named groups. */
module LogPrefixRegex {
  import opened Common

  // ----- Scanning a regular expression -----

  datatype Mode = Plain | Escaped | InClass | ClassEscaped | Opened | Queried

  /** depth: open parentheses; groups: capture groups opened; ok: no parenthesis was closed unopened. After a
      parenthesis, in mode Opened, and after its question mark, in mode Queried, it is still undecided whether it
      captures: without the question mark it does, with it only when named. */
  datatype Scan = Scan(depth: int, groups: int, mode: Mode, ok: bool)

  const START := Scan(0, 0, Plain, true)

  function PlainStep(st: Scan, c: char): Scan {
    if c == '\\' then st.(mode := Escaped)
    else if c == '[' then st.(mode := InClass)
    else if c == '(' then st.(mode := Opened, depth := st.depth + 1)
    else if c == ')' then st.(mode := Plain, depth := st.depth - 1, ok := st.ok && st.depth > 0)
    else st.(mode := Plain)
  }

  function Step(st: Scan, c: char): Scan {
    match st.mode
    case Plain => PlainStep(st, c)
    case Escaped => st.(mode := Plain)
    case InClass => if c == '\\' then st.(mode := ClassEscaped) else if c == ']' then st.(mode := Plain) else st
    case ClassEscaped => st.(mode := InClass)
    case Opened => if c == '?' then st.(mode := Queried) else PlainStep(Settle(st, c), c)
    case Queried => PlainStep(Settle(st, c), c)
  }

  /** Neither in an escape nor in a class. */
  predicate Outside(st: Scan) {
    st.mode in {Plain, Opened, Queried}
  }

  /** The next character decides whether the last parenthesis captures. */
  function Settle(st: Scan, c: char): Scan {
    match st.mode
    case Opened => st.(mode := Plain, groups := st.groups + 1)
    case Queried => st.(mode := Plain, groups := st.groups + if c in {'P', '<'} then 1 else 0)
    case _ => st
  }

  /** Fewer than no parentheses are open only when one was closed unopened. */
  predicate Fine(st: Scan) {
    st.depth >= 0 || !st.ok
  }

  lemma SettledRun(st: Scan, s: string)
    requires Outside(st) && s != "" && (st.mode == Opened ==> s[0] != '?')
    ensures Run(st, s) == Run(Settle(st, s[0]), s)
  {
  }

  function Run(st: Scan, s: string): Scan
    decreases |s|
  {
    if s == "" then st else Run(Step(st, s[0]), s[1..])
  }

  lemma {:induction false} RunJoin(st: Scan, a: string, b: string)
    ensures Run(st, a + b) == Run(Run(st, a), b)
    decreases |a|
  {
    if a == "" {
      assert a + b == b;
    } else {
      RunJoin(Step(st, a[0]), a[1..], b);
      assert (a + b)[1..] == a[1..] + b;
    }
  }

  /** Parentheses balance and no escape or class is left open. */
  predicate Balanced(re: string) {
    var st := Run(START, re);
    st.ok && st.depth == 0 && st.mode == Plain
  }

  /** Capture group n opens at position k of the expression. */
  predicate GroupOpensAt(re: string, k: nat, n: int) {
    && k + 1 < |re| && re[k] == '(' && re[k + 1] != '?'
    && var st := Run(START, re[..k]);
       Outside(st) && Settle(st, '(').groups + 1 == n
  }

  // ----- The compiler -----

  const REGEXP_DATE := "\\d{4}" + "-\\d{2}" + "-\\d{2}"
  const REGEXP_TIME := "\\d{2}" + ":\\d{2}" + ":\\d{2}"
  const REGEXP_TIMEZONE := "[\\-+]?" + "\\w+"
  const REGEXP_MILISECONDS := "\\.\\d+"
  const REGEXP_TIMESTAMP_WITH_MICROSECOND := "(" + REGEXP_DATE + " " + REGEXP_TIME + REGEXP_MILISECONDS + " " + REGEXP_TIMEZONE + ")"
  const REGEXP_TIMESTAMP_WITHOUT_MICROSECOND := "(" + REGEXP_DATE + " " + REGEXP_TIME + " " + REGEXP_TIMEZONE + ")"
  const REGEXP_INT := "(\\d+)"
  const REGEXP_INT_WITH_SLACE := "(" + "\\d+\\/\\d+" + ")?"
  const REGEXP_STRING := "(\\S*)"
  const REGEXP_STRING_WITH_SPACE := "([\\w ]+)"
  const REGEXP_STRING_WITH_DOT := "(" + "\\w+\\.\\w+" + ")?"
  const REGEXP_HOST_WITHOUT_PORT := "(\\S+)?"
  const REGEXP_HOST_WITH_PORT := "(" + "\\S+\\(" + ".*?\\)" + ")?"
  const FIRST_LEVELS := "DEBUG5|DEBUG4|DEBUG3|DEBUG2|DEBUG1|"
  const MIDDLE_LEVELS := "INFO|NOTICE|LOG|WARNING|ERROR|FATAL|PANIC|"
  const LAST_LEVELS := "DETAIL|HINT|STATEMENT|CONTEXT|LOCATION"
  const REGEXP_LEVELS := FIRST_LEVELS + MIDDLE_LEVELS + LAST_LEVELS
  const REGEXP_LEVEL := "(" + REGEXP_LEVELS + "):"
  const REGEXP_CONTENT := "\\s+" + "(.*)$"
  const REGEXP_ERROR_CODE := "(\\w{5})"
  const REGEXP_SPACES := "(\\s*)"

  /** regexMap, by the letter of the placeholder; empty for an unknown one. */
  function Fragment(name: char): string {
    match name
    case 'm' => REGEXP_TIMESTAMP_WITH_MICROSECOND
    case 't' => REGEXP_TIMESTAMP_WITHOUT_MICROSECOND
    case 's' => REGEXP_TIMESTAMP_WITHOUT_MICROSECOND
    case 'p' => REGEXP_INT
    case 'u' => REGEXP_STRING
    case 'd' => REGEXP_STRING
    case 'a' => REGEXP_STRING
    case 'h' => REGEXP_HOST_WITHOUT_PORT
    case 'r' => REGEXP_HOST_WITH_PORT
    case 'v' => REGEXP_INT_WITH_SLACE
    case 'l' => REGEXP_INT
    case 'e' => REGEXP_ERROR_CODE
    case 'x' => REGEXP_INT
    case 'c' => REGEXP_STRING_WITH_DOT
    case 'b' => REGEXP_STRING_WITH_SPACE
    case _ => ""
  }

  const KNOWN: set<char> := {'m', 't', 's', 'p', 'u', 'd', 'a', 'h', 'r', 'v', 'l', 'e', 'x', 'c', 'b'}

  const META: set<char> := {'\\', '.', '+', '*', '?', '(', ')', '|', '[', ']', '{', '}', '^', '$'}

  /** regexp.QuoteMeta */
  function QuoteMeta(s: string): string {
    if s == "" then "" else Quote(s[0]) + QuoteMeta(s[1..])
  }

  function Quote(c: char): string {
    if c in META then ['\\', c] else [c]
  }

  /** What one turn of the loop emits. */
  datatype Piece = Raw(c: char) | OpenOptional | Placeholder(name: char)

  /** The pieces of a quoted pattern; None where the index runs off the end, which panics. */
  function Emit(q: string): Option<seq<Piece>> {
    if q == "" then Some([])
    else if q[0] != '%' then Prepend([Raw(q[0])], Emit(q[1..]))
    else if |q| == 1 then None
    else if q[1] == 'q' then Prepend([OpenOptional], Emit(q[2..]))
    else if Fragment(q[1]) == "" then Emit(q[2..])
    else Prepend([Placeholder(q[1])], Emit(q[2..]))
  }

  function PieceText(p: Piece): string {
    match p
    case Raw(c) => [c]
    case OpenOptional => "(?:"
    case Placeholder(name) => Fragment(name)
  }

  function Rendered(ps: seq<Piece>): string {
    if ps == [] then "" else PieceText(ps[0]) + Rendered(ps[1..])
  }

  /** The placeholder to group map, groups numbered from `next`; a later occurrence overwrites. */
  function Indexes(ps: seq<Piece>, next: int): map<char, int> {
    if ps == [] then map[]
    else if ps[0].Placeholder? then map[ps[0].name := next] + Indexes(ps[1..], next + 1)
    else Indexes(ps[1..], next)
  }

  function Regex(ps: seq<Piece>): string {
    REGEXP_SPACES + Rendered(ps) + Closing(ps) + REGEXP_SPACES + REGEXP_LEVEL + REGEXP_CONTENT
  }

  /** Closes the optional part that %q opens. */
  function Closing(ps: seq<Piece>): string {
    if OpenOptional in ps then ")?" else ""
  }

  method GenerateRegexString(logPattern: string) returns (r: Option<(string, map<char, int>)>)
    ensures var ps := Emit(QuoteMeta(logPattern));
            r == if ps.None? then None else Some((Regex(ps.value), Indexes(ps.value, 2)))
  {
    hide Fragment;
    var pattern := QuoteMeta(logPattern);
    var regexpString := "";
    var foundQ := false;
    var indexMap: map<char, int> := map[];
    var crtInd := 2;
    var i := 0;
    ghost var ps: seq<Piece> := [];
    assert pattern[0..] == pattern;
    while i < |pattern|
      invariant 0 <= i <= |pattern|
      invariant Emit(pattern) == Prepend(ps, Emit(pattern[i..]))
      invariant regexpString == Rendered(ps) && (foundQ <==> OpenOptional in ps)
      invariant crtInd == 2 + Holders(ps) && indexMap == Indexes(ps, 2)
    {
      assert pattern[i..][0] == pattern[i] && pattern[i..][1..] == pattern[i + 1..];
      if pattern[i] != '%' {
        AddPiece(ps, Raw(pattern[i]), Emit(pattern[i + 1..]));
        ps := ps + [Raw(pattern[i])];
        regexpString := regexpString + [pattern[i]];
        i := i + 1;
        continue;
      }
      if i + 1 == |pattern| {
        return None;
      }
      assert pattern[i..][1] == pattern[i + 1] && pattern[i..][2..] == pattern[i + 2..];
      if pattern[i + 1] == 'q' {
        AddPiece(ps, OpenOptional, Emit(pattern[i + 2..]));
        ps := ps + [OpenOptional];
        regexpString := regexpString + "(?:";
        foundQ := true;
        i := i + 2;
        continue;
      }
      if Fragment(pattern[i + 1]) == "" {
        i := i + 2;
        continue;
      }
      AddPiece(ps, Placeholder(pattern[i + 1]), Emit(pattern[i + 2..]));
      ps := ps + [Placeholder(pattern[i + 1])];
      regexpString := regexpString + Fragment(pattern[i + 1]);
      indexMap := indexMap[pattern[i + 1] := crtInd];
      crtInd := crtInd + 1;
      i := i + 2;
    }
    assert pattern[|pattern|..] == "" && ps + [] == ps;
    if foundQ {
      regexpString := regexpString + ")?";
    }
    assert regexpString == Rendered(ps) + if OpenOptional in ps then ")?" else "";
    regexpString := REGEXP_SPACES + regexpString + REGEXP_SPACES + REGEXP_LEVEL + REGEXP_CONTENT;
    assert REGEXP_SPACES + (Rendered(ps) + if OpenOptional in ps then ")?" else "")
        == REGEXP_SPACES + Rendered(ps) + if OpenOptional in ps then ")?" else "";
    return Some((regexpString, indexMap));
  }

  /** How many placeholders were emitted. */
  function Holders(ps: seq<Piece>): nat {
    if ps == [] then 0 else (if ps[0].Placeholder? then 1 else 0) + Holders(ps[1..])
  }

  lemma {:induction false} RenderedJoin(a: seq<Piece>, b: seq<Piece>)
    ensures Rendered(a + b) == Rendered(a) + Rendered(b)
    ensures Holders(a + b) == Holders(a) + Holders(b)
  {
    hide PieceText;
    if a == [] {
      assert a + b == b;
    } else {
      assert (a + b)[1..] == a[1..] + b && (a + b)[0] == a[0];
      RenderedJoin(a[1..], b);
    }
  }

  lemma {:induction false} IndexesJoin(a: seq<Piece>, b: seq<Piece>, next: int)
    ensures Indexes(a + b, next) == Indexes(a, next) + Indexes(b, next + Holders(a))
  {
    hide Fragment;
    if a == [] {
      assert a + b == b;
    } else {
      assert (a + b)[1..] == a[1..] + b && (a + b)[0] == a[0];
      IndexesJoin(a[1..], b, if a[0].Placeholder? then next + 1 else next);
    }
  }

  lemma AddPiece(ps: seq<Piece>, p: Piece, rest: Option<seq<Piece>>)
    ensures Prepend(ps, Prepend([p], rest)) == Prepend(ps + [p], rest)
    ensures Rendered(ps + [p]) == Rendered(ps) + PieceText(p)
    ensures Holders(ps + [p]) == Holders(ps) + if p.Placeholder? then 1 else 0
    ensures Indexes(ps + [p], 2) == if p.Placeholder? then Indexes(ps, 2)[p.name := 2 + Holders(ps)] else Indexes(ps, 2)
  {
    hide Rendered, Indexes, Holders;
    RenderedJoin(ps, [p]);
    IndexesJoin(ps, [p], 2);
    OnePiece(p, 2 + Holders(ps));
    if rest.Some? {
      assert ps + [p] + rest.value == ps + ([p] + rest.value);
    }
  }

  lemma OnePiece(p: Piece, next: int)
    ensures Rendered([p]) == PieceText(p)
    ensures Holders([p]) == if p.Placeholder? then 1 else 0
    ensures Optionals([p]) == if p.OpenOptional? then 1 else 0
    ensures Indexes([p], next) == if p.Placeholder? then map[p.name := next] else map[]
  {
    hide Fragment;
    assert [p][1..] == [];
    assert PieceText(p) + "" == PieceText(p);
  }

  // ----- The fragments -----

  /** Scanning s outside an escape or class changes nothing. */
  ghost predicate Neutral(s: string) {
    forall st: Scan :: st.mode == Plain ==> Run(st, s) == st
  }

  lemma NeutralRun(s: string, st: Scan)
    requires Neutral(s) && st.mode == Plain
    ensures Run(st, s) == st
  {
  }

  lemma RunCons(st: Scan, c: char, s: string)
    ensures Run(st, [c] + s) == Run(Step(st, c), s)
  {
    assert ([c] + s)[1..] == s;
  }

  lemma NeutralJoin(a: string, b: string)
    requires Neutral(a) && Neutral(b)
    ensures Neutral(a + b)
  {
    forall st: Scan | st.mode == Plain ensures Run(st, a + b) == st {
      RunJoin(st, a, b);
    }
  }

  predicate PlainText(s: string) {
    forall i :: 0 <= i < |s| ==> s[i] !in {'\\', '[', ']', '(', ')'}
  }

  lemma {:induction false} PlainTextNeutral(s: string)
    requires PlainText(s)
    ensures Neutral(s)
  {
    if s != "" {
      PlainTextNeutral(s[1..]);
    }
  }

  /** An escaped character followed by plain text. */
  lemma EscapeNeutral(c: char, s: string)
    requires PlainText(s)
    ensures Neutral("\\" + [c] + s)
  {
    PlainTextNeutral(s);
    assert "\\" + [c] + s == ['\\'] + ([c] + s);
    forall st: Scan | st.mode == Plain ensures Run(st, "\\" + [c] + s) == st {
      hide Run;
      RunCons(st, '\\', [c] + s);
      RunCons(Step(st, '\\'), c, s);
      NeutralRun(s, st);
    }
  }

  lemma {:induction false} InClassText(st: Scan, s: string)
    requires st.mode == InClass && PlainText(s)
    ensures Run(st, s) == st
    decreases |s|
  {
    if s != "" {
      InClassText(st, s[1..]);
    }
  }

  /** A character class that begins with an escaped character. */
  lemma ClassNeutral(c: char, inner: string, tail: string)
    requires PlainText(inner) && PlainText(tail)
    ensures Neutral("[\\" + [c] + inner + "]" + tail)
  {
    PlainTextNeutral(tail);
    var whole := "[\\" + [c] + inner + "]" + tail;
    forall st: Scan | st.mode == Plain ensures Run(st, whole) == st {
      hide Run, Neutral;
      assert whole == ['['] + (['\\'] + ([c] + (inner + ([']'] + tail))));
      RunCons(st, '[', ['\\'] + ([c] + (inner + ([']'] + tail))));
      RunCons(st.(mode := InClass), '\\', [c] + (inner + ([']'] + tail)));
      RunCons(st.(mode := ClassEscaped), c, inner + ([']'] + tail));
      RunJoin(st.(mode := InClass), inner, [']'] + tail);
      InClassText(st.(mode := InClass), inner);
      RunCons(st.(mode := InClass), ']', tail);
      NeutralRun(tail, st);
    }
  }

  /** Parentheses around neutral text are one capture group. */
  lemma GroupScan(st: Scan, body: string, tail: string)
    requires st.mode == Plain && Fine(st)
    requires Neutral(body) && body != "" && body[0] != '?' && Neutral(tail)
    ensures Run(st, "(" + body + ")" + tail) == st.(groups := st.groups + 1)
  {
    hide Run, Neutral;
    var rest := body[1..] + ([')'] + tail);
    GroupText(body, tail);
    GroupRun(st, "(" + body + ")" + tail, body[0], rest, [body[0]] + rest, body, [')'] + tail, tail);
  }

  lemma GroupRun(st: Scan, whole: string, c: char, rest: string, mid: string, body: string, close: string, tail: string)
    requires st.mode == Plain && Fine(st) && c != '?'
    requires whole == ['('] + mid && mid == [c] + rest && mid == body + close && close == [')'] + tail
    requires Neutral(body) && Neutral(tail)
    ensures Run(st, whole) == st.(groups := st.groups + 1)
  {
    hide Run, Neutral;
    var outer, inner := st.(depth := st.depth + 1, mode := Opened), st.(depth := st.depth + 1, groups := st.groups + 1);
    RunCons(st, '(', mid);
    RunCons(outer, c, rest);
    RunCons(inner, c, rest);
    RunJoin(inner, body, close);
    NeutralRun(body, inner);
    RunCons(inner, ')', tail);
    NeutralRun(tail, st.(groups := st.groups + 1));
  }

  lemma GroupText(body: string, tail: string)
    requires body != ""
    ensures var rest := body[1..] + ([')'] + tail);
            "(" + body + ")" + tail == ['('] + ([body[0]] + rest) && [body[0]] + rest == body + ([')'] + tail)
  {
  }

  lemma DateTimeNeutral()
    ensures Neutral(REGEXP_DATE) && Neutral(REGEXP_TIME) && Neutral(REGEXP_TIMEZONE) && Neutral(REGEXP_MILISECONDS)
    ensures Neutral(" ")
  {
    hide Neutral;
    PlainTextNeutral("-");
    PlainTextNeutral(":");
    PlainTextNeutral(" ");
    EscapeNeutral('d', "{4}");
    EscapeNeutral('d', "{4}-");
    EscapeNeutral('d', "{2}");
    EscapeNeutral('d', "{2}-");
    EscapeNeutral('d', "{2}:");
    assert REGEXP_DATE == ("\\" + ['d'] + "{4}-") + ("\\" + ['d'] + "{2}-") + ("\\" + ['d'] + "{2}");
    NeutralJoin("\\" + ['d'] + "{4}-", "\\" + ['d'] + "{2}-");
    NeutralJoin(("\\" + ['d'] + "{4}-") + ("\\" + ['d'] + "{2}-"), "\\" + ['d'] + "{2}");
    assert REGEXP_TIME == ("\\" + ['d'] + "{2}:") + ("\\" + ['d'] + "{2}:") + ("\\" + ['d'] + "{2}");
    NeutralJoin("\\" + ['d'] + "{2}:", "\\" + ['d'] + "{2}:");
    NeutralJoin(("\\" + ['d'] + "{2}:") + ("\\" + ['d'] + "{2}:"), "\\" + ['d'] + "{2}");
    ClassNeutral('-', "+", "?");
    EscapeNeutral('w', "+");
    assert REGEXP_TIMEZONE == ("[\\" + ['-'] + "+" + "]" + "?") + ("\\" + ['w'] + "+");
    NeutralJoin("[\\" + ['-'] + "+" + "]" + "?", "\\" + ['w'] + "+");
    EscapeNeutral('.', "");
    EscapeNeutral('d', "+");
    assert REGEXP_MILISECONDS == ("\\" + ['.'] + "") + ("\\" + ['d'] + "+");
    NeutralJoin("\\" + ['.'] + "", "\\" + ['d'] + "+");
  }

  /** Every known placeholder's expression is one balanced capture group, opened by its first character. */
  lemma FragmentScan(name: char, st: Scan)
    requires name in KNOWN && st.mode == Plain && Fine(st)
    ensures Run(st, Fragment(name)) == st.(groups := st.groups + 1)
    ensures |Fragment(name)| > 1 && Fragment(name)[0] == '(' && Fragment(name)[1] != '?'
  {
    hide Run, Neutral;
    PlainTextNeutral("");
    PlainTextNeutral("?");
    if name in {'m', 't', 's'} {
      TimestampScan(name, st);
    } else if name in {'p', 'l', 'x'} {
      EscapeGroup(st, 'd', "+", "");
      assert REGEXP_INT == "(" + ("\\" + ['d'] + "+") + ")" + "";
    } else if name in {'u', 'd', 'a'} {
      EscapeGroup(st, 'S', "*", "");
      assert REGEXP_STRING == "(" + ("\\" + ['S'] + "*") + ")" + "";
    } else if name == 'h' {
      EscapeGroup(st, 'S', "+", "?");
      assert REGEXP_HOST_WITHOUT_PORT == "(" + ("\\" + ['S'] + "+") + ")" + "?";
    } else if name == 'e' {
      EscapeGroup(st, 'w', "{5}", "");
      assert REGEXP_ERROR_CODE == "(" + ("\\" + ['w'] + "{5}") + ")" + "";
    } else if name == 'b' {
      ClassNeutral('w', " ", "+");
      GroupScan(st, "[\\" + ['w'] + " " + "]" + "+", "");
      assert REGEXP_STRING_WITH_SPACE == "(" + ("[\\" + ['w'] + " " + "]" + "+") + ")" + "";
    } else {
      PairScan(name, st);
    }
  }

  lemma EscapeGroup(st: Scan, c: char, rest: string, tail: string)
    requires st.mode == Plain && Fine(st) && PlainText(rest) && PlainText(tail)
    ensures Run(st, "(" + ("\\" + [c] + rest) + ")" + tail) == st.(groups := st.groups + 1)
  {
    EscapeNeutral(c, rest);
    PlainTextNeutral(tail);
    GroupScan(st, "\\" + [c] + rest, tail);
  }

  lemma TimestampScan(name: char, st: Scan)
    requires name in {'m', 't', 's'} && st.mode == Plain && Fine(st)
    ensures Run(st, Fragment(name)) == st.(groups := st.groups + 1)
    ensures |Fragment(name)| > 1 && Fragment(name)[0] == '(' && Fragment(name)[1] != '?'
  {
    hide Run, Neutral;
    DateTimeNeutral();
    var ms := if name == 'm' then REGEXP_MILISECONDS else "";
    PlainTextNeutral("");
    TimestampBody(st, REGEXP_DATE, REGEXP_TIME, ms, REGEXP_TIMEZONE);
    TimestampText(REGEXP_DATE, REGEXP_TIME, REGEXP_MILISECONDS, REGEXP_TIMEZONE);
    TimestampText(REGEXP_DATE, REGEXP_TIME, "", REGEXP_TIMEZONE);
  }

  lemma TimestampBody(st: Scan, date: string, time: string, ms: string, zone: string)
    requires st.mode == Plain && Fine(st)
    requires Neutral(date) && Neutral(time) && Neutral(ms) && Neutral(zone) && date != "" && date[0] != '?'
    ensures Run(st, "(" + (date + " " + time + ms + " " + zone) + ")" + "") == st.(groups := st.groups + 1)
  {
    hide Run, Neutral;
    PlainTextNeutral(" ");
    PlainTextNeutral("");
    NeutralJoin(date, " ");
    NeutralJoin(date + " ", time);
    NeutralJoin(date + " " + time, ms);
    NeutralJoin(date + " " + time + ms, " ");
    NeutralJoin(date + " " + time + ms + " ", zone);
    GroupScan(st, date + " " + time + ms + " " + zone, "");
  }

  lemma TimestampText(date: string, time: string, ms: string, zone: string)
    ensures "(" + date + " " + time + ms + " " + zone + ")" == "(" + (date + " " + time + ms + " " + zone) + ")" + ""
    ensures "(" + date + " " + time + "" + " " + zone + ")" == "(" + date + " " + time + " " + zone + ")"
  {
  }

  lemma PairScan(name: char, st: Scan)
    requires name in {'v', 'c', 'r'} && st.mode == Plain && Fine(st)
    ensures Run(st, Fragment(name)) == st.(groups := st.groups + 1)
    ensures |Fragment(name)| > 1 && Fragment(name)[0] == '(' && Fragment(name)[1] != '?'
  {
    hide Run, Neutral;
    if name == 'v' {
      EscapesGroup(st, 'd', "+", '/', "", 'd', "+");
      assert REGEXP_INT_WITH_SLACE == "(" + (("\\" + ['d'] + "+") + ("\\" + ['/'] + "") + ("\\" + ['d'] + "+")) + ")" + "?";
    } else if name == 'c' {
      EscapesGroup(st, 'w', "+", '.', "", 'w', "+");
      assert REGEXP_STRING_WITH_DOT == "(" + (("\\" + ['w'] + "+") + ("\\" + ['.'] + "") + ("\\" + ['w'] + "+")) + ")" + "?";
    } else {
      EscapesGroup(st, 'S', "+", '(', ".*?", ')', "");
      assert REGEXP_HOST_WITH_PORT == "(" + (("\\" + ['S'] + "+") + ("\\" + ['('] + ".*?") + ("\\" + [')'] + "")) + ")" + "?";
    }
  }

  lemma EscapesGroup(st: Scan, a: char, ra: string, b: char, rb: string, c: char, rc: string)
    requires st.mode == Plain && Fine(st) && PlainText(ra) && PlainText(rb) && PlainText(rc)
    ensures Run(st, "(" + (("\\" + [a] + ra) + ("\\" + [b] + rb) + ("\\" + [c] + rc)) + ")" + "?")
         == st.(groups := st.groups + 1)
  {
    hide Run, Neutral;
    EscapeNeutral(a, ra);
    EscapeNeutral(b, rb);
    EscapeNeutral(c, rc);
    NeutralJoin("\\" + [a] + ra, "\\" + [b] + rb);
    NeutralJoin(("\\" + [a] + ra) + ("\\" + [b] + rb), "\\" + [c] + rc);
    PlainTextNeutral("?");
    GroupScan(st, ("\\" + [a] + ra) + ("\\" + [b] + rb) + ("\\" + [c] + rc), "?");
  }

  // ----- Prefixes -----

  /** Characters that begin an escape or a class when they are not quoted. A percent sign takes the quoting backslash
      of the character after it as its letter, so that character is left unquoted. */
  const STRUCTURAL: set<char> := {'\\', '['}

  /** Reading from the left, every percent sign is followed by a character that begins no escape and no class. */
  predicate PairsPlain(p: string) {
    p == "" ||
    if p[0] != '%' then PairsPlain(p[1..]) else |p| > 1 && p[1] !in STRUCTURAL && PairsPlain(p[2..])
  }

  /** Reading from the left, the last character is a percent sign that no other one takes. */
  predicate Dangling(p: string) {
    p != "" && if p[0] != '%' then Dangling(p[1..]) else |p| == 1 || Dangling(p[2..])
  }

  /** The characters after the percent signs. */
  function Letters(p: string): seq<char> {
    if p == "" then []
    else if p[0] == '%' && |p| > 1 then [p[1]] + Letters(p[2..])
    else Letters(p[1..])
  }

  // What the unquoted parentheses of a prefix and its %q open and close.

  function Lift(c: char): int {
    if c in {'q', '('} then 1 else if c == ')' then -1 else 0
  }

  function Depth(letters: seq<char>, d: int): int {
    if letters == [] then d else Depth(letters[1..], d + Lift(letters[0]))
  }

  /** None is closed unopened, with d open before. */
  predicate Nested(letters: seq<char>, d: int) {
    letters == [] || ((letters[0] == ')' ==> d > 0) && Nested(letters[1..], d + Lift(letters[0])))
  }

  /** Whether a parenthesis captures (1 or 0), given how it began and the prefix after it: placeholders that emit nothing
      do not count, an unquoted question mark makes it a group that captures only when named. */
  function Opening(mode: Mode, p: string): nat
    decreases |p|
  {
    if mode !in {Opened, Queried} then 0
    else if |p| > 1 && p[0] == '%' && PairPieces(p[1]) == [] then Opening(mode, p[2..])
    else if mode == Queried then if p != "" && p[0] in {'P', '<'} then 1 else 0
    else if "%?" <= p then Opening(Queried, p[2..])
    else 1
  }

  /** How many unquoted parentheses capture. */
  function Captures(p: string): nat {
    if p == "" then 0
    else if p[0] != '%' || |p| == 1 then Captures(p[1..])
    else CapturesAt(p) + Captures(p[2..])
  }

  function CapturesAt(p: string): nat
    requires |p| > 1
  {
    if p[1] == '(' then Opening(Opened, p[2..]) else 0
  }

  function Optionals(ps: seq<Piece>): nat {
    if ps == [] then 0 else (if ps[0].OpenOptional? then 1 else 0) + Optionals(ps[1..])
  }

  /** Placeholder names in the order of their groups. */
  function Names(ps: seq<Piece>): seq<char> {
    if ps == [] then [] else (if ps[0].Placeholder? then [ps[0].name] else []) + Names(ps[1..])
  }

  lemma RawPieces(p: string) returns (first: seq<Piece>)
    requires p != "" && p[0] != '%'
    ensures Emit(QuoteMeta(p)) == Prepend(first, Emit(QuoteMeta(p[1..])))
    ensures first == if p[0] in META then [Raw('\\'), Raw(p[0])] else [Raw(p[0])]
  {
    hide Fragment;
    var rest := QuoteMeta(p[1..]);
    if p[0] in META {
      first := [Raw('\\'), Raw(p[0])];
      assert QuoteMeta(p) == ['\\'] + ([p[0]] + rest);
      assert [Raw('\\')] + [Raw(p[0])] == first;
      EmitRaw('\\', [p[0]] + rest);
      EmitRaw(p[0], rest);
      PrependTwice([Raw('\\')], [Raw(p[0])], Emit(rest));
    } else {
      first := [Raw(p[0])];
      assert QuoteMeta(p) == [p[0]] + rest;
      EmitRaw(p[0], rest);
    }
  }

  lemma EmitRaw(c: char, q: string)
    requires c != '%'
    ensures Emit([c] + q) == Prepend([Raw(c)], Emit(q))
  {
    hide Fragment;
    assert ([c] + q)[1..] == q;
  }

  lemma PercentPieces(p: string) returns (first: seq<Piece>)
    requires |p| >= 2 && p[0] == '%'
    ensures Emit(QuoteMeta(p)) == Prepend(first, Emit(QuoteMeta(p[2..])))
    ensures first == PairPieces(p[1])
  {
    hide Fragment;
    var rest := QuoteMeta(p[2..]);
    assert p[1..][1..] == p[2..];
    first := PairPieces(p[1]);
    KnownFragments(p[1]);
    assert QuoteMeta(p) == ['%'] + (Quote(p[1]) + rest);
    if p[1] in META {
      EmitUnquoted(p[1], rest);
    } else {
      EmitPair(p[1], rest);
    }
  }

  lemma EmitPair(c: char, rest: string)
    ensures Emit(['%'] + ([c] + rest)) ==
              if c == 'q' then Prepend([OpenOptional], Emit(rest))
              else if Fragment(c) == "" then Emit(rest)
              else Prepend([Placeholder(c)], Emit(rest))
  {
    hide Fragment;
    var q := ['%'] + ([c] + rest);
    assert q[1] == c && q[2..] == rest;
  }

  /** The percent sign takes the quoting backslash. */
  lemma EmitUnquoted(c: char, rest: string)
    requires c in META
    ensures Emit(['%'] + (Quote(c) + rest)) == Prepend([Raw(c)], Emit(rest))
  {
    hide Fragment, Emit;
    KnownFragments('\\');
    assert Quote(c) + rest == ['\\'] + ([c] + rest);
    EmitPair('\\', [c] + rest);
    EmitRaw(c, rest);
  }

  /** What a percent sign and the next character become. */
  function PairPieces(c: char): seq<Piece> {
    if c == 'q' then [OpenOptional] else if c in KNOWN then [Placeholder(c)] else if c in META then [Raw(c)] else []
  }

  /** The compiler panics exactly on prefixes that end in a percent sign of its own. */
  lemma {:induction false} PanicExact(p: string)
    ensures Emit(QuoteMeta(p)).None? <==> Dangling(p)
    decreases |p|
  {
    hide Fragment, Emit, QuoteMeta;
    if p == "" {
      EmptyScan(START);
    } else if p[0] != '%' {
      var _ := RawPieces(p);
      PanicExact(p[1..]);
    } else if |p| == 1 {
      LonePercent(p);
    } else {
      var _ := PercentPieces(p);
      PanicExact(p[2..]);
    }
  }

  lemma LonePercent(p: string)
    requires p == "%"
    ensures Emit(QuoteMeta(p)) == None
  {
    assert QuoteMeta(p) == "%";
  }

  lemma {:induction false} PlainPairsEnd(p: string)
    requires PairsPlain(p)
    ensures !Dangling(p)
    decreases |p|
  {
    if p != "" {
      PlainPairsEnd(if p[0] != '%' then p[1..] else p[2..]);
    }
  }

  lemma KnownFragments(name: char)
    ensures Fragment(name) != "" <==> name in KNOWN
  {
  }

  lemma {:induction false} OptionalsJoin(a: seq<Piece>, b: seq<Piece>)
    ensures Optionals(a + b) == Optionals(a) + Optionals(b)
  {
    if a == [] {
      assert a + b == b;
    } else {
      assert (a + b)[1..] == a[1..] + b && (a + b)[0] == a[0];
      OptionalsJoin(a[1..], b);
    }
  }

  /** What is emitted for one character or pair, read outside escapes and classes, and its share of the groups. */
  ghost predicate Reads(st: Scan, first: seq<Piece>, t: Scan, lift: int, p: string, rest: string) {
    && Run(st, Rendered(first)) == t && Outside(t) && Fine(t)
    && t.depth == st.depth + lift && (t.ok <==> st.ok && (lift < 0 ==> st.depth > 0))
    && t.groups + Opening(t.mode, rest) + Captures(rest) == st.groups + Opening(st.mode, p) + Holders(first) + Captures(p)
  }

  lemma EmptyScan(st: Scan)
    ensures Run(st, "") == st && Emit(QuoteMeta("")) == Some([])
  {
  }

  lemma RawScan(p: string, st: Scan) returns (first: seq<Piece>, t: Scan)
    requires p != "" && p[0] != '%' && Outside(st) && Fine(st)
    ensures Emit(QuoteMeta(p)) == Prepend(first, Emit(QuoteMeta(p[1..]))) && OpenOptional !in first
    ensures Reads(st, first, t, 0, p, p[1..])
  {
    hide Fragment, Run, QuoteMeta, Emit;
    first := RawPieces(p);
    var c := p[0];
    if c in META {
      t := Settle(st, '\\');
      EscapedScan(c, st);
    } else {
      t := Settle(st, c);
      OnePiece(Raw(c), 0);
      LoneScan(c, st);
    }
  }

  lemma PercentScan(p: string, st: Scan) returns (first: seq<Piece>, t: Scan)
    requires |p| > 1 && p[0] == '%' && p[1] !in STRUCTURAL && Outside(st) && Fine(st)
    ensures Emit(QuoteMeta(p)) == Prepend(first, Emit(QuoteMeta(p[2..]))) && (OpenOptional in first <==> p[1] == 'q')
    ensures Reads(st, first, t, Lift(p[1]), p, p[2..])
  {
    hide Fragment, Run, QuoteMeta, Emit;
    first := PercentPieces(p);
    var c := p[1];
    if first == [] {
      t := st;
      EmptyScan(st);
    } else {
      OnePiece(first[0], 0);
      if c == 'q' {
        t := Settle(st, '(').(depth := st.depth + 1);
        OptionalScan(st);
      } else if c in KNOWN {
        t := Settle(st, '(').(groups := Settle(st, '(').groups + 1);
        PendingFragment(c, st);
      } else {
        t := Step(st, c);
        LoneScan(c, st);
      }
    }
  }

  lemma LoneScan(c: char, st: Scan)
    ensures Run(st, [c]) == Step(st, c)
  {
    RunCons(st, c, "");
    assert [c] == [c] + "";
  }

  lemma EscapedScan(c: char, st: Scan)
    requires Outside(st)
    ensures var pair := [Raw('\\'), Raw(c)];
            Run(st, Rendered(pair)) == Settle(st, '\\') && Holders(pair) == 0
  {
    hide Fragment, Run, Neutral;
    var pair := [Raw('\\'), Raw(c)];
    assert pair == [Raw('\\')] + [Raw(c)];
    OnePiece(Raw('\\'), 0);
    OnePiece(Raw(c), 0);
    RenderedJoin([Raw('\\')], [Raw(c)]);
    EscapeNeutral(c, "");
    assert Rendered(pair) == "\\" + [c] + "";
    SettledRun(st, Rendered(pair));
    NeutralRun("\\" + [c] + "", Settle(st, '\\'));
  }

  lemma PendingFragment(name: char, st: Scan)
    requires name in KNOWN && Outside(st) && Fine(st)
    ensures Run(st, Fragment(name)) == Settle(st, '(').(groups := Settle(st, '(').groups + 1)
  {
    hide Run, Fragment;
    FragmentScan(name, Settle(st, '('));
    SettledRun(st, Fragment(name));
  }

  lemma OptionalScan(st: Scan)
    requires Outside(st)
    ensures Run(st, "(?:") == Settle(st, '(').(depth := st.depth + 1)
  {
    hide Run;
    var u := Settle(st, '(').(depth := st.depth + 1);
    EmptyScan(u);
    RunCons(st, '(', "?:");
    RunCons(u.(mode := Opened), '?', ":");
    RunCons(u.(mode := Queried), ':', "");
    assert "(?:" == ['('] + "?:" && "?:" == ['?'] + ":" && ":" == [':'] + "";
  }

  /** Scanning what a whole prefix emits opens one capture group per placeholder and one per unquoted parenthesis that
      captures, leaves open what %q and the unquoted parentheses leave open, and ends outside escapes and classes.
      What follows begins with a parenthesis. */
  lemma {:induction false} PrefixScan(p: string, st: Scan)
    requires PairsPlain(p) && Outside(st) && Fine(st)
    ensures Emit(QuoteMeta(p)).Some?
    ensures var ps := Emit(QuoteMeta(p)).value;
            var t := Run(st, Rendered(ps));
            && Outside(t) && Fine(t) && t.depth == Depth(Letters(p), st.depth)
            && (t.ok <==> st.ok && Nested(Letters(p), st.depth))
            && Settle(t, '(').groups == st.groups + Opening(st.mode, p) + Holders(ps) + Captures(p)
            && (OpenOptional in ps <==> 'q' in Letters(p))
    decreases |p|
  {
    hide Fragment, Run, QuoteMeta, Emit;
    if p == "" {
      EmptyScan(st);
    } else if p[0] != '%' {
      var first, t := RawScan(p, st);
      PrefixScan(p[1..], t);
      JoinScan(first, Emit(QuoteMeta(p[1..])).value, st);
    } else {
      var first, t := PercentScan(p, st);
      PrefixScan(p[2..], t);
      JoinScan(first, Emit(QuoteMeta(p[2..])).value, st);
    }
  }

  lemma JoinScan(a: seq<Piece>, b: seq<Piece>, st: Scan)
    ensures Run(st, Rendered(a + b)) == Run(Run(st, Rendered(a)), Rendered(b)) && Holders(a + b) == Holders(a) + Holders(b)
  {
    hide *;
    RenderedJoin(a, b);
    RunJoin(st, Rendered(a), Rendered(b));
  }

  // ----- What the compiled expression's groups are -----

  lemma SpacesScan(st: Scan)
    requires st.mode == Plain && Fine(st)
    ensures Run(st, REGEXP_SPACES) == st.(groups := st.groups + 1)
  {
    hide Run, Neutral;
    EscapeGroup(st, 's', "*", "");
    assert REGEXP_SPACES == "(" + ("\\" + ['s'] + "*") + ")" + "";
  }

  lemma LevelScan(st: Scan)
    requires st.mode == Plain && Fine(st)
    ensures Run(st, REGEXP_LEVEL) == st.(groups := st.groups + 1)
  {
    hide Run, Neutral;
    LevelsPlain();
    PlainTextNeutral(REGEXP_LEVELS);
    PlainTextNeutral(":");
    GroupScan(st, REGEXP_LEVELS, ":");
    LevelParts(REGEXP_LEVELS);
  }

  lemma LevelParts(levels: string)
    ensures "(" + levels + "):" == "(" + levels + ")" + ":"
  {
  }

  lemma LevelsPlain()
    ensures PlainText(REGEXP_LEVELS) && REGEXP_LEVELS[0] == 'D'
  {
    assert PlainText(FIRST_LEVELS) && FIRST_LEVELS[0] == 'D' by { FirstLevelsPlain(); }
    assert PlainText(MIDDLE_LEVELS) by { MiddleLevelsPlain(); }
    assert PlainText(LAST_LEVELS) by { LastLevelsPlain(); }
    hide PlainText;
    PlainTextJoin(FIRST_LEVELS, MIDDLE_LEVELS);
    PlainTextJoin(FIRST_LEVELS + MIDDLE_LEVELS, LAST_LEVELS);
  }

  lemma FirstLevelsPlain()
    ensures PlainText(FIRST_LEVELS) && FIRST_LEVELS[0] == 'D'
  {
  }

  lemma MiddleLevelsPlain()
    ensures PlainText(MIDDLE_LEVELS)
  {
  }

  lemma LastLevelsPlain()
    ensures PlainText(LAST_LEVELS)
  {
  }

  lemma PlainTextJoin(a: string, b: string)
    requires PlainText(a) && PlainText(b)
    ensures PlainText(a + b) && (a != "" ==> (a + b)[0] == a[0])
  {
  }

  lemma ContentScan(st: Scan)
    requires st.mode == Plain && Fine(st)
    ensures Run(st, "\\s+") == st
    ensures Run(st, "(.*)$") == st.(groups := st.groups + 1)
  {
    hide Run, Neutral;
    EscapeNeutral('s', "+");
    NeutralRun("\\" + ['s'] + "+", st);
    assert "\\s+" == "\\" + ['s'] + "+";
    PlainTextNeutral(".*");
    PlainTextNeutral("$");
    GroupScan(st, ".*", "$");
    assert "(.*)$" == "(" + ".*" + ")" + "$";
  }

  lemma ClosingScan(st: Scan)
    requires Outside(st)
    ensures var t := Settle(st, ')');
            Run(st, ")?") == t.(depth := t.depth - 1, ok := t.ok && t.depth > 0)
  {
    var t := Settle(st, ')');
    RunCons(st, ')', "?");
    RunCons(t.(depth := t.depth - 1, ok := t.ok && t.depth > 0), '?', "");
    assert ")?" == [')'] + "?" && "?" == ['?'] + "";
  }

  /** Where scanning is when the level begins. */
  function HeadState(p: string, n: int): Scan {
    var q := 'q' in Letters(p);
    Scan(Depth(Letters(p), 0) - if q then 1 else 0, n + 2, Plain, Nested(Letters(p), 0) && (q ==> Depth(Letters(p), 0) > 0))
  }

  /** Up to the level: one group for the leading spaces, one per placeholder, one per unquoted parenthesis that captures,
      one for the trailing spaces. */
  lemma HeadScan(p: string)
    requires PairsPlain(p)
    ensures Emit(QuoteMeta(p)).Some?
    ensures var ps := Emit(QuoteMeta(p)).value;
            && Run(START, REGEXP_SPACES + Rendered(ps) + Closing(ps) + REGEXP_SPACES)
                 == HeadState(p, Holders(ps) + Captures(p))
            && Fine(HeadState(p, Holders(ps) + Captures(p)))
  {
    hide Run, Emit, QuoteMeta, Rendered, Captures, Opening, Holders;
    var begin := Scan(0, 1, Plain, true);
    PrefixScan(p, begin);
    var ps := Emit(QuoteMeta(p)).value;
    SpacesScan(START);
    RunJoin(START, REGEXP_SPACES, Rendered(ps));
    var open := Run(begin, Rendered(ps));
    assert Settle(open, ')') == Settle(open, '(');
    NoOpening(p);
    var settled := Settle(open, '(');
    if OpenOptional in ps {
      ClosingScan(open);
      SpacesScan(settled.(depth := settled.depth - 1, ok := settled.ok && settled.depth > 0));
    } else {
      EmptyScan(open);
      SettledRun(open, REGEXP_SPACES);
      SpacesScan(settled);
    }
    RunJoin(START, REGEXP_SPACES + Rendered(ps), Closing(ps));
    RunJoin(START, REGEXP_SPACES + Rendered(ps) + Closing(ps), REGEXP_SPACES);
  }

  lemma NoOpening(p: string)
    ensures Opening(Plain, p) == 0
  {
  }

  /** For every prefix whose percent signs are followed by characters that begin no escape and no class, with n
      placeholders and unquoted captures: group n + 3 is the level, group n + 4 the content and there are no more;
      parentheses balance exactly when none of the unquoted ones is closed unopened and what they and %q leave open
      is the one parenthesis that %q has closed, if there is a %q, and nothing otherwise. */
  lemma LevelGroups(p: string)
    requires PairsPlain(p)
    ensures Emit(QuoteMeta(p)).Some?
    ensures var ps := Emit(QuoteMeta(p)).value;
            var re, n, k := Regex(ps), Holders(ps) + Captures(p), |REGEXP_SPACES + Rendered(ps) + Closing(ps) + REGEXP_SPACES|;
            && (Balanced(re) <==> Nested(Letters(p), 0) && Depth(Letters(p), 0) == if 'q' in Letters(p) then 1 else 0)
            && Run(START, re).groups == n + 4
            && re[k..] == REGEXP_LEVEL + REGEXP_CONTENT && GroupOpensAt(re, k, n + 3)
            && re[k + |REGEXP_LEVEL| + 3..] == "(.*)$" && GroupOpensAt(re, k + |REGEXP_LEVEL| + 3, n + 4)
  {
    hide Run, Emit, QuoteMeta, Rendered, Closing, Captures, Holders, Nested, Depth, Letters;
    HeadScan(p);
    var ps := Emit(QuoteMeta(p)).value;
    var head := REGEXP_SPACES + Rendered(ps) + Closing(ps) + REGEXP_SPACES;
    LevelText(ps, head);
    var st := Run(START, head);
    LevelScan(st);
    ContentScan(st.(groups := st.groups + 1));
    RunJoin(START, head, REGEXP_LEVEL);
    RunJoin(START, head + REGEXP_LEVEL, "\\s+");
    RunJoin(START, head + REGEXP_LEVEL + "\\s+", "(.*)$");
  }

  lemma LevelText(ps: seq<Piece>, head: string)
    requires head == REGEXP_SPACES + Rendered(ps) + Closing(ps) + REGEXP_SPACES
    ensures var re, k := Regex(ps), |head|;
            && re == head + REGEXP_LEVEL + "\\s+" + "(.*)$"
            && re[..k] == head && re[k..] == REGEXP_LEVEL + REGEXP_CONTENT && re[k] == '(' && re[k + 1] == 'D'
            && re[..k + |REGEXP_LEVEL| + 3] == head + REGEXP_LEVEL + "\\s+"
            && re[k + |REGEXP_LEVEL| + 3..] == "(.*)$" && |re| == k + |REGEXP_LEVEL| + 8
  {
    hide Rendered;
    var re := head + REGEXP_LEVEL + "\\s+" + "(.*)$";
    assert re == head + (REGEXP_LEVEL + REGEXP_CONTENT);
    assert re == (head + REGEXP_LEVEL + "\\s+") + "(.*)$";
    assert Regex(ps) == re;
    assert (REGEXP_LEVEL + REGEXP_CONTENT)[0] == '(' && (REGEXP_LEVEL + REGEXP_CONTENT)[1] == 'D';
  }

  /** What a prefix emits is what its parts emit. */
  lemma {:induction false} EmitJoin(a: string, b: string)
    requires !Dangling(a)
    ensures Emit(QuoteMeta(a)).Some? && Emit(QuoteMeta(a + b)) == Prepend(Emit(QuoteMeta(a)).value, Emit(QuoteMeta(b)))
    decreases |a|
  {
    hide Fragment, Emit, QuoteMeta;
    if a == "" {
      EmptyScan(START);
      assert a + b == b;
      PrependNothing(Emit(QuoteMeta(b)));
    } else if a[0] != '%' {
      assert (a + b)[1..] == a[1..] + b;
      EmitJoin(a[1..], b);
      var first := RawPieces(a);
      var same := RawPieces(a + b);
      PrependTwice(first, Emit(QuoteMeta(a[1..])).value, Emit(QuoteMeta(b)));
    } else {
      assert (a + b)[2..] == a[2..] + b;
      EmitJoin(a[2..], b);
      var first := PercentPieces(a);
      var same := PercentPieces(a + b);
      PrependTwice(first, Emit(QuoteMeta(a[2..])).value, Emit(QuoteMeta(b)));
    }
  }

  lemma PrependNothing(ps: Option<seq<Piece>>)
    ensures Prepend([], ps) == ps
  {
    if ps.Some? {
      assert [] + ps.value == ps.value;
    }
  }

  /** The pieces of a prefix in which the placeholder c stands between a and b. */
  lemma PlaceholderPieces(a: string, c: char, b: string)
    requires !Dangling(a) && !Dangling(b) && c in KNOWN
    ensures Emit(QuoteMeta(a)).Some? && Emit(QuoteMeta(b)).Some?
    ensures Emit(QuoteMeta(a + (['%', c] + b)))
         == Some(Emit(QuoteMeta(a)).value + ([Placeholder(c)] + Emit(QuoteMeta(b)).value))
  {
    hide Fragment, Emit, QuoteMeta;
    EmitJoin(a, ['%', c] + b);
    PanicExact(b);
    var first := PercentPieces(['%', c] + b);
    assert (['%', c] + b)[2..] == b;
  }

  /** A placeholder emits its expression at one place, as the capture group whose number counts the placeholders before
      it from 2, and the unquoted captures before it. */
  lemma PlaceholderGroup(a: string, c: char, b: string)
    requires PairsPlain(a) && !Dangling(b) && c in KNOWN
    ensures Emit(QuoteMeta(a)).Some? && Emit(QuoteMeta(a + (['%', c] + b))).Some?
    ensures var as', ps := Emit(QuoteMeta(a)).value, Emit(QuoteMeta(a + (['%', c] + b))).value;
            var re, i, k := Regex(ps), |as'|, |REGEXP_SPACES + Rendered(as')|;
            && i < |ps| && ps[i] == Placeholder(c) && ps[..i] == as'
            && GroupOpensAt(re, k, 2 + Holders(as') + Captures(a)) && Fragment(c) <= re[k..]
  {
    hide Run, Emit, QuoteMeta, Fragment, Captures, Opening, Nested, Depth, Letters, PairsPlain, Dangling, Regex, Rendered, Holders;
    PlainPairsEnd(a);
    PlaceholderPieces(a, c, b);
    var begin := Scan(0, 1, Plain, true);
    PrefixScan(a, begin);
    NoOpening(a);
    var as', ps := Emit(QuoteMeta(a)).value, Emit(QuoteMeta(a + (['%', c] + b))).value;
    SpacesScan(START);
    RunJoin(START, REGEXP_SPACES, Rendered(as'));
    FragmentScan(c, START);
    PieceInPlace(ps, |as'|, REGEXP_SPACES + Rendered(as'));
  }

  lemma PieceInPlace(ps: seq<Piece>, i: nat, head: string)
    requires i < |ps| && ps[i].Placeholder? && head == REGEXP_SPACES + Rendered(ps[..i])
    ensures |head| <= |Regex(ps)| && Regex(ps)[..|head|] == head && Fragment(ps[i].name) <= Regex(ps)[|head|..]
  {
    hide Fragment;
    assert ps == ps[..i] + ps[i..];
    RenderedJoin(ps[..i], ps[i..]);
    var f, more := Fragment(ps[i].name), Rendered(ps[i + 1..]);
    assert Rendered(ps[i..]) == f + more by { assert ps[i..][1..] == ps[i + 1..]; }
    var tail := Closing(ps) + REGEXP_SPACES + REGEXP_LEVEL + REGEXP_CONTENT;
    assert Regex(ps) == head + (f + (more + tail)) by { RegexText(ps, head, f, more, tail); }
  }

  lemma RegexText(ps: seq<Piece>, head: string, f: string, more: string, tail: string)
    requires REGEXP_SPACES + Rendered(ps) == head + (f + more)
    requires tail == Closing(ps) + REGEXP_SPACES + REGEXP_LEVEL + REGEXP_CONTENT
    ensures Regex(ps) == head + (f + (more + tail))
  {
    hide Rendered, Closing;
    FiveParts(REGEXP_SPACES + Rendered(ps), Closing(ps), REGEXP_SPACES, REGEXP_LEVEL, REGEXP_CONTENT);
    FourParts(head, f, more, tail);
  }

  lemma FiveParts(a: string, b: string, c: string, d: string, e: string)
    ensures a + b + c + d + e == a + (b + c + d + e)
  {
  }

  lemma FourParts(a: string, b: string, c: string, d: string)
    ensures a + (b + c) + d == a + (b + (c + d))
  {
  }
}
