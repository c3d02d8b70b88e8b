/** Groups and indexes of pkg/parselog: which capture group each index of a generated parser refers to, and
    the getters of pkg/parselog/logline_prefix_parser.go that read the match array by those indexes. */
module LogPrefixParser {
  import opened Common
  import opened LogPrefixRegex
  import Text

  // ----- The placeholders of a prefix -----

  /** No known placeholder occurs twice. */
  predicate PlaceholdersOnce(p: string) {
    forall c :: c in KNOWN ==> Count(Letters(p), c) <= 1
  }

  lemma {:induction false} NamesJoin(a: seq<Piece>, b: seq<Piece>)
    ensures Names(a + b) == Names(a) + Names(b)
  {
    if a == [] {
      assert a + b == b;
    } else {
      assert (a + b)[1..] == a[1..] + b && (a + b)[0] == a[0];
      NamesJoin(a[1..], b);
    }
  }

  /** The pieces hold exactly the known letters, in order, and one opening per q. */
  lemma {:induction false} PiecesOfLetters(p: string, c: char)
    requires !Dangling(p)
    ensures Emit(QuoteMeta(p)).Some?
    ensures var ps := Emit(QuoteMeta(p)).value;
            && (c in KNOWN ==> Count(Names(ps), c) == Count(Letters(p), c))
            && (c !in KNOWN ==> c !in Names(ps))
            && Optionals(ps) == Count(Letters(p), 'q')
    decreases |p|
  {
    hide Emit, QuoteMeta, Fragment;
    if p == "" {
      EmptyScan(START);
    } else if p[0] != '%' {
      var first := RawPieces(p);
      PiecesOfLetters(p[1..], c);
      var qs := Emit(QuoteMeta(p[1..])).value;
      assert Emit(QuoteMeta(p)).value == first + qs;
      NamesJoin(first, qs);
      OptionalsJoin(first, qs);
      assert forall i :: 0 <= i < |first| ==> first[i].Raw?;
      RawNames(first);
      assert Names(first) + Names(qs) == Names(qs);
    } else {
      var first := PercentPieces(p);
      PiecesOfLetters(p[2..], c);
      var qs := Emit(QuoteMeta(p[2..])).value;
      NamesJoin(first, qs);
      OptionalsJoin(first, qs);
      CountJoin(Names(first), Names(qs), c);
      CountJoin([p[1]], Letters(p[2..]), c);
      CountJoin([p[1]], Letters(p[2..]), 'q');
      PercentNames(first, p[1], c);
    }
  }

  lemma {:induction false} RawNames(first: seq<Piece>)
    requires forall i :: 0 <= i < |first| ==> first[i].Raw?
    ensures Names(first) == [] && Optionals(first) == 0
  {
    if first != [] {
      RawNames(first[1..]);
    }
  }

  lemma PercentNames(first: seq<Piece>, letter: char, c: char)
    requires first == PairPieces(letter)
    ensures Names(first) == if letter in KNOWN then [letter] else []
    ensures Optionals(first) == if letter == 'q' then 1 else 0
    ensures Count([letter], c) == if letter == c then 1 else 0
    ensures Count([letter], 'q') == if letter == 'q' then 1 else 0
  {
    assert Names([]) == [] && Optionals([]) == 0;
  }

  // ----- The index map -----

  /** The placeholders of the map are those emitted. */
  lemma {:induction false} IndexesKeys(ps: seq<Piece>, next: int, c: char)
    ensures c in Indexes(ps, next) <==> c in Names(ps)
  {
    if ps != [] {
      IndexesKeys(ps[1..], if ps[0].Placeholder? then next + 1 else next, c);
    }
  }

  /** The size of the map misses the repeats. */
  lemma {:induction false} IndexesSize(ps: seq<Piece>, next: int)
    ensures |Names(ps)| == Holders(ps)
    ensures |Indexes(ps, next)| <= Holders(ps)
    ensures |Indexes(ps, next)| == Holders(ps) <==> NoDuplicates(Names(ps))
  {
    if ps == [] {
    } else if ps[0].Placeholder? {
      IndexesSize(ps[1..], next + 1);
      var m, c, rest := Indexes(ps[1..], next + 1), ps[0].name, Names(ps[1..]);
      IndexesKeys(ps[1..], next + 1, c);
      OneMoreSize(c, next, m, rest);
    } else {
      IndexesSize(ps[1..], next);
      assert Names(ps) == Names(ps[1..]);
    }
  }

  lemma OneMoreSize(c: char, v: int, m: map<char, int>, rest: seq<char>)
    requires |m| <= |rest| && (c in m <==> c in rest) && (|m| == |rest| <==> NoDuplicates(rest))
    ensures |map[c := v] + m| <= |[c] + rest|
    ensures |map[c := v] + m| == |[c] + rest| <==> NoDuplicates([c] + rest)
  {
    hide NoDuplicates;
    var more := map[c := v] + m;
    assert more.Keys == {c} + m.Keys;
    assert |more| == |more.Keys|;
    assert c in m ==> {c} + m.Keys == m.Keys;
    PrependDistinct(c, rest);
  }

  lemma PrependDistinct(c: char, rest: seq<char>)
    ensures NoDuplicates([c] + rest) <==> NoDuplicates(rest) && c !in rest
  {
    var s := [c] + rest;
    if NoDuplicates(s) {
      forall i, j | 0 <= i < j < |rest| ensures rest[i] != rest[j] {
        assert s[i + 1] == rest[i] && s[j + 1] == rest[j];
      }
      forall i | 0 <= i < |rest| ensures rest[i] != c {
        assert s[0] == c && s[i + 1] == rest[i];
      }
    }
  }

  /** Every index is the group number of some occurrence of its placeholder. */
  lemma {:induction false} IndexesOccur(ps: seq<Piece>, next: int, c: char)
    ensures c in Indexes(ps, next) ==>
              exists i :: 0 <= i < |ps| && ps[i] == Placeholder(c) && Indexes(ps, next)[c] == next + Holders(ps[..i])
  {
    if ps != [] && c in Indexes(ps, next) {
      var after := if ps[0].Placeholder? then next + 1 else next;
      IndexesOccur(ps[1..], after, c);
      if c in Indexes(ps[1..], after) {
        var i :| 0 <= i < |ps| - 1 && ps[1..][i] == Placeholder(c)
                 && Indexes(ps[1..], after)[c] == after + Holders(ps[1..][..i]);
        assert ps[1..][..i] == ps[..i + 1][1..];
        assert ps[i + 1] == Placeholder(c) && Indexes(ps, next)[c] == next + Holders(ps[..i + 1]);
      } else {
        assert ps[..0] == [];
        assert ps[0] == Placeholder(c);
        assert Indexes(ps, next)[c] == next + Holders(ps[..0]);
      }
    }
  }

  lemma {:induction false} DistinctByCount(s: seq<char>)
    ensures NoDuplicates(s) <==> forall c :: c in s ==> Count(s, c) <= 1
  {
    if s != [] {
      var c, rest := s[0], s[1..];
      DistinctByCount(rest);
      assert s == [c] + rest;
      PrependDistinct(c, rest);
      CountMeaning(rest, c);
      if NoDuplicates(rest) && c !in rest {
        forall d | d in s ensures Count(s, d) <= 1 {
        }
      } else if c in rest {
        assert c in s && Count(s, c) > 1;
      } else {
        var d :| d in rest && Count(rest, d) > 1;
        assert d in s && Count(s, d) > 1;
      }
    }
  }

  /** Group n is the one that the i-th piece, a placeholder, opens where its own expression begins. */
  ghost predicate OpenedBy(ps: seq<Piece>, i: nat, n: int) {
    && i < |ps| && ps[i].Placeholder?
    && var re, k := Regex(ps), |REGEXP_SPACES + Rendered(ps[..i])|;
       GroupOpensAt(re, k, n) && k <= |re| && Fragment(ps[i].name) <= re[k..]
  }

  /** A group of the expression that captures what one of these placeholders stands for. */
  ghost predicate GroupOf(ps: seq<Piece>, n: int, names: set<char>) {
    exists i: nat :: OpenedBy(ps, i, n) && ps[i].name in names
  }

  lemma {:induction false} GroupsGrow(st: Scan, s: string)
    ensures Run(st, s).groups >= st.groups
    decreases |s|
  {
    if s != "" {
      GroupsGrow(Step(st, s[0]), s[1..]);
    }
  }

  /** A group number is given out at one place only. */
  lemma GroupPlace(re: string, k: nat, k': nat, n: int)
    requires GroupOpensAt(re, k, n) && GroupOpensAt(re, k', n)
    ensures k == k'
  {
    if k < k' {
      LaterGroup(re, k, k', n);
    } else if k' < k {
      LaterGroup(re, k', k, n);
    }
  }

  lemma LaterGroup(re: string, k: nat, k': nat, n: int)
    requires GroupOpensAt(re, k, n) && k < k' && k' + 1 < |re|
    ensures Settle(Run(START, re[..k']), '(').groups >= n
  {
    var st := Run(START, re[..k]);
    var rest := re[k + 1..k'];
    assert re[..k'] == re[..k] + (['('] + rest);
    RunJoin(START, re[..k], ['('] + rest);
    RunCons(st, '(', rest);
    if rest != "" {
      assert rest[0] == re[k + 1];
      GroupsGrow(Step(Step(st, '('), rest[0]), rest[1..]);
    }
  }

  /** No group belongs to two different placeholders. */
  lemma OwnGroupOnly(ps: seq<Piece>, n: int, names: set<char>)
    requires GroupOf(ps, n, names) && names <= KNOWN
    ensures !GroupOf(ps, n, KNOWN - names)
  {
    hide GroupOpensAt, Rendered, Regex, Fragment;
    var i: nat :| OpenedBy(ps, i, n) && ps[i].name in names;
    forall j: nat | OpenedBy(ps, j, n) && ps[j].name in KNOWN - names ensures false {
      GroupPlace(Regex(ps), |REGEXP_SPACES + Rendered(ps[..i])|, |REGEXP_SPACES + Rendered(ps[..j])|, n);
      if i < j {
        LaterPiece(ps, i, j);
      } else if j < i {
        LaterPiece(ps, j, i);
      }
    }
  }

  /** A placeholder's expression is not empty, so later pieces stand further on. */
  lemma LaterPiece(ps: seq<Piece>, i: nat, j: nat)
    requires i < j <= |ps| && ps[i].Placeholder? && ps[i].name in KNOWN
    ensures |Rendered(ps[..i])| < |Rendered(ps[..j])|
  {
    hide Fragment;
    KnownFragments(ps[i].name);
    assert ps[..j] == ps[..i] + ps[i..j];
    RenderedJoin(ps[..i], ps[i..j]);
  }

  lemma OpensInside(re: string, k: nat, n: int)
    requires GroupOpensAt(re, k, n)
    ensures k + 1 < |re|
  {
  }

  /** The two last groups: the level, right where the prefix's expression ends, and the content. */
  ghost predicate LevelAndContent(re: string, n: int) {
    exists k: nat ::
      && k <= |re| && GroupOpensAt(re, k, n) && re[k..] == REGEXP_LEVEL + REGEXP_CONTENT
      && GroupOpensAt(re, k + |REGEXP_LEVEL| + 3, n + 1) && re[k + |REGEXP_LEVEL| + 3..] == "(.*)$"
  }

  /** Group numbers are given out once, so the level has one number. */
  lemma LevelUnique(re: string, n: int, n': int)
    requires LevelAndContent(re, n) && LevelAndContent(re, n')
    ensures n == n'
  {
    hide GroupOpensAt, Run;
    var k: nat :| k <= |re| && GroupOpensAt(re, k, n) && re[k..] == REGEXP_LEVEL + REGEXP_CONTENT;
    var k': nat :| k' <= |re| && GroupOpensAt(re, k', n') && re[k'..] == REGEXP_LEVEL + REGEXP_CONTENT;
    assert |re[k..]| == |re[k'..]|;
    SameGroup(re, k, n, n');
  }

  lemma SameGroup(re: string, k: nat, n: int, n': int)
    requires GroupOpensAt(re, k, n) && GroupOpensAt(re, k, n')
    ensures n == n'
  {
  }

  /** The prefix up to the last occurrence of a placeholder, and what follows it. */
  function Before(p: string, c: char): string
    requires c in Letters(p)
  {
    if p[0] == '%' && |p| > 1 then if c in Letters(p[2..]) then p[..2] + Before(p[2..], c) else ""
    else [p[0]] + Before(p[1..], c)
  }

  /** The prefix is a, the last %c, and b. */
  ghost predicate IsLast(p: string, c: char, a: string, b: string) {
    && p == a + (['%', c] + b) && c !in Letters(b)
    && PairsPlain(a) && PairsPlain(b) && Letters(p) == Letters(a) + ([c] + Letters(b))
  }

  lemma {:induction false} LastPlace(p: string, c: char) returns (b: string)
    requires PairsPlain(p) && c in Letters(p)
    ensures IsLast(p, c, Before(p, c), b)
  {
    hide IsLast, PairsPlain, Letters;
    PairsRest(p);
    LettersRest(p);
    if p[0] == '%' && |p| > 1 {
      if c in Letters(p[2..]) {
        b := LastPlace(p[2..], c);
        LastBehindPair(p, c, Before(p[2..], c), b);
      } else {
        b := p[2..];
        LastHere(p, c);
      }
    } else {
      b := LastPlace(p[1..], c);
      LastBehindChar(p, c, Before(p[1..], c), b);
    }
  }

  lemma LastHere(p: string, c: char)
    requires |p| > 1 && p[0] == '%' && p[1] == c && PairsPlain(p[2..]) && c !in Letters(p[2..])
    ensures IsLast(p, c, "", p[2..])
  {
    assert p == "" + (['%', c] + p[2..]);
    assert Letters("") == [];
  }

  lemma LastBehindPair(p: string, c: char, a: string, b: string)
    requires |p| > 1 && p[0] == '%' && p[1] !in STRUCTURAL && IsLast(p[2..], c, a, b)
    ensures IsLast(p, c, p[..2] + a, b)
  {
    hide PairsPlain, Letters;
    InFront(p[..2], a, ['%', c] + b);
    PairsRest(p[..2] + a);
    LettersRest(p);
    LettersRest(p[..2] + a);
    assert [p[1]] + (Letters(a) + ([c] + Letters(b))) == [p[1]] + Letters(a) + ([c] + Letters(b));
    assert p == p[..2] + p[2..];
  }

  lemma LastBehindChar(p: string, c: char, a: string, b: string)
    requires p != "" && p[0] != '%' && IsLast(p[1..], c, a, b)
    ensures IsLast(p, c, [p[0]] + a, b)
  {
    hide PairsPlain, Letters;
    InFront([p[0]], a, ['%', c] + b);
    PairsRest([p[0]] + a);
    LettersRest(p);
    LettersRest([p[0]] + a);
    assert p == [p[0]] + p[1..];
  }

  lemma PairsRest(p: string)
    ensures PairsPlain(p) == (p == "" ||
              if p[0] != '%' then PairsPlain(p[1..]) else |p| > 1 && p[1] !in STRUCTURAL && PairsPlain(p[2..]))
  {
  }

  lemma LettersRest(p: string)
    ensures Letters(p) == if p == "" then [] else if p[0] == '%' && |p| > 1 then [p[1]] + Letters(p[2..]) else Letters(p[1..])
  {
  }

  lemma InFront(x: string, a: string, rest: string)
    ensures (x + a) + rest == x + (a + rest) && (x + a)[|x|..] == a && (x + a)[..|x|] == x
    ensures forall i :: 0 <= i < |x| ==> (x + a)[i] == x[i]
  {
  }

  lemma {:induction false} CapturesSplit(a: string, c: char, b: string)
    requires PairsPlain(a) && c in KNOWN
    ensures Captures(a + (['%', c] + b)) == Captures(a) + Captures(b)
    decreases |a|
  {
    hide Opening;
    var p := a + (['%', c] + b);
    if a == "" {
      assert p[2..] == b;
    } else if a[0] == '%' {
      assert p[0] == '%' && p[1] == a[1] && p[2..] == a[2..] + (['%', c] + b);
      CapturesSplit(a[2..], c, b);
      OpeningInFront(Opened, a[2..], c, b);
    } else {
      assert p[0] == a[0] && p[1..] == a[1..] + (['%', c] + b);
      CapturesSplit(a[1..], c, b);
    }
  }

  /** A placeholder settles an open parenthesis like the end of the prefix. */
  lemma {:induction false} OpeningInFront(mode: Mode, a: string, c: char, b: string)
    requires c in KNOWN && PairsPlain(a)
    ensures Opening(mode, a + (['%', c] + b)) == Opening(mode, a)
    decreases |a|
  {
    var p := a + (['%', c] + b);
    if a == "" {
      assert p[0] == '%' && p[1] == c && PairPieces(c) != [];
    } else if a[0] == '%' {
      assert p[0] == '%' && p[1] == a[1] && p[2..] == a[2..] + (['%', c] + b);
      OpeningInFront(mode, a[2..], c, b);
      OpeningInFront(Queried, a[2..], c, b);
    } else {
      assert p[0] == a[0];
    }
  }

  /** The place of the last occurrence among the pieces. */
  function LastPiece(p: string, c: char): nat
    requires c in Letters(p)
  {
    var as' := Emit(QuoteMeta(Before(p, c)));
    if as'.None? then 0 else |as'.value|
  }

  lemma NotNamed(p: string, c: char)
    requires !Dangling(p) && c in KNOWN && Count(Letters(p), c) == 0
    ensures Emit(QuoteMeta(p)).Some? && c !in Names(Emit(QuoteMeta(p)).value)
  {
    hide Emit, QuoteMeta, Letters, Names;
    PiecesOfLetters(p, c);
    CountMeaning(Names(Emit(QuoteMeta(p)).value), c);
  }

  lemma {:induction false} NamesMember(ps: seq<Piece>, j: nat)
    requires j < |ps| && ps[j].Placeholder?
    ensures ps[j].name in Names(ps)
  {
    if j > 0 {
      NamesMember(ps[1..], j - 1);
    }
  }

  /** A later occurrence overwrites the index. */
  lemma LastIndex(before: seq<Piece>, c: char, after: seq<Piece>)
    requires c !in Names(after)
    ensures var m := Indexes(before + ([Placeholder(c)] + after), 2);
            c in m && m[c] == 2 + Holders(before)
  {
    hide Fragment;
    var n := 2 + Holders(before);
    IndexesJoin(before, [Placeholder(c)] + after, 2);
    IndexesJoin([Placeholder(c)], after, n);
    OnePiece(Placeholder(c), n);
    IndexesKeys(after, n + 1, c);
  }

  /** The index of a placeholder is the number of the group of its last occurrence, less the unquoted parentheses that
      capture before it. */
  lemma IndexOfLast(p: string, c: char)
    requires PairsPlain(p) && c in KNOWN && c in Letters(p)
    ensures Emit(QuoteMeta(p)).Some? && c in Indexes(Emit(QuoteMeta(p)).value, 2)
    ensures var ps, captures := Emit(QuoteMeta(p)).value, Captures(Before(p, c));
            var n, i := Indexes(ps, 2)[c], LastPiece(p, c);
            && captures <= Captures(p)
            && OpenedBy(ps, i, n + captures) && ps[i].name == c
            && (OpenedBy(ps, i, n) <==> captures == 0)
  {
    hide Emit, QuoteMeta, Regex, GroupOpensAt, Fragment, Rendered, Captures, Indexes, Names, Count, Before, Holders, Letters;
    var b := LastPlace(p, c);
    var a := Before(p, c);
    PlainPairsEnd(a);
    PlainPairsEnd(b);
    PlaceholderPieces(a, c, b);
    PlaceholderGroup(a, c, b);
    CapturesSplit(a, c, b);
    CountMeaning(Letters(b), c);
    NotNamed(b, c);
    var as', bs, ps := Emit(QuoteMeta(a)).value, Emit(QuoteMeta(b)).value, Emit(QuoteMeta(p)).value;
    LastIndex(as', c, bs);
    var k: nat, n := |REGEXP_SPACES + Rendered(as')|, Indexes(ps, 2)[c];
    OpensInside(Regex(ps), k, n + Captures(a));
    assert OpenedBy(ps, |as'|, n + Captures(a));
    if OpenedBy(ps, |as'|, n) {
      SameGroup(Regex(ps), k, n, n + Captures(a));
    }
  }

  /** With one occurrence only, no other group is its. */
  lemma IndexOfOnly(p: string, c: char)
    requires PairsPlain(p) && c in KNOWN && Count(Letters(p), c) == 1
    ensures c in Letters(p) && Emit(QuoteMeta(p)).Some? && c in Indexes(Emit(QuoteMeta(p)).value, 2)
    ensures var ps := Emit(QuoteMeta(p)).value;
            GroupOf(ps, Indexes(ps, 2)[c], {c}) <==> Captures(Before(p, c)) == 0
  {
    hide Emit, QuoteMeta, OpenedBy, Fragment, Captures, Indexes, Names, Count, Before, Letters;
    CountMeaning(Letters(p), c);
    IndexOfLast(p, c);
    var b := LastPlace(p, c);
    var a := Before(p, c);
    PlainPairsEnd(a);
    PlainPairsEnd(b);
    PlaceholderPieces(a, c, b);
    CountJoin(Letters(a), [c] + Letters(b), c);
    CountJoin([c], Letters(b), c);
    CountMeaning([c], c);
    NotNamed(a, c);
    NotNamed(b, c);
    var as', bs, ps := Emit(QuoteMeta(a)).value, Emit(QuoteMeta(b)).value, Emit(QuoteMeta(p)).value;
    var n := Indexes(ps, 2)[c];
    if GroupOf(ps, n, {c}) {
      var j := OpenedPiece(ps, n, c);
      if j < |as'| {
        NamesMember(as', j);
      } else if j > |as'| {
        NamesMember(bs, j - |as'| - 1);
      }
    }
  }

  lemma OpenedPiece(ps: seq<Piece>, n: int, c: char) returns (i: nat)
    requires GroupOf(ps, n, {c})
    ensures i < |ps| && ps[i] == Placeholder(c) && OpenedBy(ps, i, n)
  {
    hide GroupOpensAt, Fragment, Regex, Rendered;
    i :| OpenedBy(ps, i, n) && ps[i].name in {c};
  }

  /** The index of a placeholder is off by the unquoted captures before its last occurrence; so it is a group of the
      placeholder when there are none, and only then if it occurs once. */
  ghost predicate IndexExact(p: string, ps: seq<Piece>, c: char, n: int) {
    && c in Letters(p) && OpenedBy(ps, LastPiece(p, c), n + Captures(Before(p, c)))
    && (Captures(Before(p, c)) == 0 ==> GroupOf(ps, n, {c}))
    && (Count(Letters(p), c) == 1 ==> (GroupOf(ps, n, {c}) <==> Captures(Before(p, c)) == 0))
  }

  lemma MapExact(p: string, c: char)
    requires PairsPlain(p) && c in KNOWN && c in Letters(p)
    ensures Emit(QuoteMeta(p)).Some? && c in Indexes(Emit(QuoteMeta(p)).value, 2)
    ensures var ps := Emit(QuoteMeta(p)).value; IndexExact(p, ps, c, Indexes(ps, 2)[c])
  {
    hide Emit, QuoteMeta, OpenedBy, Captures, Indexes, Count, Before, Letters, LastPiece, PairsPlain;
    IndexOfLast(p, c);
    if Count(Letters(p), c) == 1 {
      IndexOfOnly(p, c);
    }
  }

  lemma MapKeys(p: string)
    requires PairsPlain(p)
    ensures Emit(QuoteMeta(p)).Some?
    ensures var ps := Emit(QuoteMeta(p)).value;
            && (forall c :: c in Indexes(ps, 2) <==> c in KNOWN && c in Letters(p))
            && |Indexes(ps, 2)| <= Holders(ps)
            && (|Indexes(ps, 2)| == Holders(ps) <==> PlaceholdersOnce(p))
  {
    hide Emit, QuoteMeta, Indexes, Names, Letters, Count, NoDuplicates, Holders, Optionals, PairsPlain;
    PlainPairsEnd(p);
    PiecesOfLetters(p, 'q');
    var ps := Emit(QuoteMeta(p)).value;
    IndexesSize(ps, 2);
    DistinctByCount(Names(ps));
    forall c ensures c in Indexes(ps, 2) <==> c in Names(ps) {
      IndexesKeys(ps, 2, c);
    }
    forall c ensures c in Names(ps) <==> c in KNOWN && c in Letters(p) {
      PiecesOfLetters(p, c);
      CountMeaning(Names(ps), c);
      CountMeaning(Letters(p), c);
    }
    forall c | c in KNOWN ensures Count(Names(ps), c) == Count(Letters(p), c) {
      PiecesOfLetters(p, c);
    }
    OnceAtMost(p, ps);
  }

  /** The compiler on every prefix whose percent signs are followed by characters that begin no escape and no class.
      Parentheses balance exactly when none of the unquoted ones is closed unopened and they leave nothing open
      besides the one parenthesis of a %q. The known placeholders of the prefix are the keys of the map, each with the
      number of the group of its last occurrence less the unquoted captures before it. Level and content are the
      last two groups, and len(indexMap)+3 and +4 are their numbers exactly when no known placeholder repeats and no
      unquoted parenthesis captures; otherwise they are too small. */
  lemma CompilerGroups(p: string)
    requires PairsPlain(p)
    ensures Emit(QuoteMeta(p)).Some?
    ensures var ps := Emit(QuoteMeta(p)).value;
            var re, m := Regex(ps), Indexes(ps, 2);
            && (Balanced(re) <==> Nested(Letters(p), 0) && Depth(Letters(p), 0) == if 'q' in Letters(p) then 1 else 0)
            && (forall c :: c in m <==> c in KNOWN && c in Letters(p))
            && (forall c :: c in m ==> IndexExact(p, ps, c, m[c]))
            && LevelAndContent(re, Run(START, re).groups - 1)
            && |m| + 4 + Captures(p) <= Run(START, re).groups
            && (|m| + 4 + Captures(p) == Run(START, re).groups <==> PlaceholdersOnce(p))
            && (|m| + 3 == Run(START, re).groups - 1 <==> PlaceholdersOnce(p) && Captures(p) == 0)
  {
    hide Emit, QuoteMeta, Regex, Indexes, Run, GroupOpensAt, Balanced, Letters, Holders, Rendered, Closing, Captures, Nested,
         Depth, IndexExact, PairsPlain, PlaceholdersOnce;
    LevelGroups(p);
    MapKeys(p);
    var ps := Emit(QuoteMeta(p)).value;
    var re, m := Regex(ps), Indexes(ps, 2);
    var level: nat, n := |REGEXP_SPACES + Rendered(ps) + Closing(ps) + REGEXP_SPACES|, Holders(ps) + Captures(p);
    OpensInside(re, level, n + 3);
    assert level <= |re| && LevelAndContent(re, n + 3);
    forall c | c in m ensures IndexExact(p, ps, c, m[c]) {
      MapExact(p, c);
    }
  }

  lemma OnceAtMost(p: string, ps: seq<Piece>)
    requires forall c :: c in Names(ps) <==> c in KNOWN && c in Letters(p)
    requires forall c :: c in KNOWN ==> Count(Names(ps), c) == Count(Letters(p), c)
    ensures PlaceholdersOnce(p) <==> forall c :: c in Names(ps) ==> Count(Names(ps), c) <= 1
  {
    hide Letters, Names;
    forall c | c in KNOWN && c !in Letters(p) ensures Count(Letters(p), c) == 0 {
      CountMeaning(Letters(p), c);
    }
    if PlaceholdersOnce(p) {
      forall c | c in Names(ps) ensures Count(Names(ps), c) <= 1 {
      }
    } else {
      var c :| c in KNOWN && Count(Letters(p), c) > 1;
      assert c in Letters(p);
    }
  }

  /** Without unquoted parentheses, balance is having at most one %q. */
  lemma {:induction false} OnlyOptionals(letters: seq<char>, d: int)
    requires '(' !in letters && ')' !in letters
    ensures Nested(letters, d) && Depth(letters, d) == d + Count(letters, 'q')
    ensures 'q' in letters <==> Count(letters, 'q') > 0
  {
    if letters != [] {
      OnlyOptionals(letters[1..], d + Lift(letters[0]));
      assert letters == [letters[0]] + letters[1..];
    }
  }

  lemma BalanceWithoutUnquoted(p: string)
    requires PairsPlain(p) && '(' !in Letters(p) && ')' !in Letters(p)
    ensures Emit(QuoteMeta(p)).Some?
    ensures Balanced(Regex(Emit(QuoteMeta(p)).value)) <==> Count(Letters(p), 'q') <= 1
  {
    hide Emit, QuoteMeta, Regex, Balanced, Letters, Captures, OpenedBy, PairsPlain, Run;
    CompilerGroups(p);
    OnlyOptionals(Letters(p), 0);
  }

  /** A percent sign unquotes the parenthesis after it: the prefix %( has no %q, and its expression does not balance. */
  lemma UnquotedParenthesis()
    ensures PairsPlain("%(") && Count(Letters("%("), 'q') == 0 && Emit(QuoteMeta("%(")).Some?
    ensures !Balanced(Regex(Emit(QuoteMeta("%(")).value))
  {
    var p := "%(";
    assert p[2..] == "" && Letters("") == [];
    assert Letters(p) == ['('] && ['('][1..] == [];
    assert Count(Letters(p), 'q') == 0 && Depth(Letters(p), 0) == 1;
    hide Emit, QuoteMeta, Regex, Balanced, Run, OpenedBy;
    CompilerGroups(p);
  }

  /** Where no placeholder repeats, the level's number is too small by the unquoted captures. */
  lemma LevelOffBy(p: string)
    requires PairsPlain(p) && PlaceholdersOnce(p)
    ensures Emit(QuoteMeta(p)).Some?
    ensures var ps := Emit(QuoteMeta(p)).value;
            forall n :: LevelAndContent(Regex(ps), n) <==> n == |Indexes(ps, 2)| + 3 + Captures(p)
  {
    hide Emit, QuoteMeta, Regex, Balanced, Indexes, LevelAndContent, Captures, Letters, Run, PairsPlain, Nested, Depth,
         PlaceholdersOnce, IndexExact;
    CompilerGroups(p);
    var re := Regex(Emit(QuoteMeta(p)).value);
    forall n | LevelAndContent(re, n) ensures n == Run(START, re).groups - 1 {
      LevelUnique(re, n, Run(START, re).groups - 1);
    }
  }

  lemma NoneKnown(p: string)
    requires PairsPlain(p) && forall c :: c in Letters(p) ==> c !in KNOWN
    ensures Emit(QuoteMeta(p)).Some? && Indexes(Emit(QuoteMeta(p)).value, 2) == map[]
  {
    hide Emit, QuoteMeta, Indexes, Letters, PairsPlain, PlaceholdersOnce;
    MapKeys(p);
  }

  /** The prefix %(%) repeats no placeholder and has no %q, its expression balances, and yet the level is group 4 where
      the parser reads group 3. */
  lemma UnquotedGroup()
    ensures PairsPlain("%(%)") && PlaceholdersOnce("%(%)") && Count(Letters("%(%)"), 'q') == 0
    ensures Emit(QuoteMeta("%(%)")).Some?
    ensures var ps := Emit(QuoteMeta("%(%)")).value;
            Balanced(Regex(ps)) && |Indexes(ps, 2)| + 3 == 3 && LevelAndContent(Regex(ps), 4) && !LevelAndContent(Regex(ps), 3)
  {
    hide *;
    var p := "%(%)";
    TwoParentheses(p);
    NoneKnown(p);
    LevelOffBy(p);
    LevelGroups(p);
  }

  lemma TwoParentheses(p: string)
    requires p == "%(%)"
    ensures PairsPlain(p) && PlaceholdersOnce(p) && Count(Letters(p), 'q') == 0 && Captures(p) == 1
    ensures Letters(p) == ['(', ')'] && Nested(Letters(p), 0) && Depth(Letters(p), 0) == 0
    ensures 'q' !in Letters(p) && forall c :: c in Letters(p) ==> c !in KNOWN
  {
    hide PairsPlain, Letters, Captures, Nested, Depth, Count;
    TwoPairs(p, p[2..]);
    TwoLetters(Letters(p));
  }

  lemma TwoPairs(p: string, rest: string)
    requires |p| > 1 && p[..2] == "%(" && rest == p[2..] == "%)"
    ensures PairsPlain(p) && Letters(p) == ['(', ')'] && Captures(p) == 1
  {
    hide PairPieces, Opening;
    OneClosed();
    assert p[0] == '%' && p[1] == '(';
  }

  lemma OneClosed()
    ensures PairsPlain("%)") && Letters("%)") == [')'] && Captures("%)") == 0 && Opening(Opened, "%)") == 1
  {
    assert "%)"[2..] == "" && Letters("") == [];
  }

  lemma TwoLetters(letters: seq<char>)
    requires letters == ['(', ')']
    ensures Nested(letters, 0) && Depth(letters, 0) == 0
    ensures forall c :: c in KNOWN + {'q'} ==> Count(letters, c) == 0
  {
    assert letters[1..] == [')'] && [')'][1..] == [];
    forall c | c in KNOWN + {'q'} ensures Count(letters, c) == 0 {
      CountMeaning(letters, c);
    }
  }

  // ----- The parser -----

  datatype ParsingIndex = ParsingIndex(time: Option<int>, user: Option<int>, host: Option<int>, database: Option<int>,
                                       errorCode: Option<int>)

  const NO_INDEX := ParsingIndex(None, None, None, None, None)

  /** An index field after ranging over the keys `done` of the map, in any order: unset when no key of the field
      was met, else the group number of one of its keys. */
  ghost predicate Chosen(ix: Option<int>, m: map<char, int>, names: set<char>, done: set<char>) {
    match ix
    case None => names !! done
    case Some(n) => exists c :: c in names && c in done && c in m && m[c] == n
  }

  ghost predicate AllChosen(index: ParsingIndex, m: map<char, int>, done: set<char>) {
    && Chosen(index.time, m, {'m', 't', 's'}, done) && Chosen(index.host, m, {'h', 'r'}, done)
    && Chosen(index.user, m, {'u'}, done) && Chosen(index.database, m, {'d'}, done)
    && Chosen(index.errorCode, m, {'e'}, done)
  }

  /** The field a placeholder belongs to, overwritten. */
  function WithIndex(index: ParsingIndex, name: char, v: int): ParsingIndex {
    if name in {'m', 't', 's'} then index.(time := Some(v))
    else if name in {'h', 'r'} then index.(host := Some(v))
    else if name == 'u' then index.(user := Some(v))
    else if name == 'd' then index.(database := Some(v))
    else if name == 'e' then index.(errorCode := Some(v))
    else index
  }

  class BaseParser {
    const regex: string
    var timeFormat: string
    var timeFormatAlt: string
    var index: ParsingIndex
    var levelIndex: int

    constructor FromRegex(regex: string)
      ensures this.regex == regex && index == NO_INDEX
      ensures timeFormat == "2006-01-02 15:04:05 -0700" && timeFormatAlt == "2006-01-02 15:04:05 MST"
    {
      this.regex := regex;
      timeFormat, timeFormatAlt := "2006-01-02 15:04:05 -0700", "2006-01-02 15:04:05 MST";
      index, levelIndex := NO_INDEX, 0;
    }

    /** The switch over one key of the index map. */
    method SetIndex(name: char, v: int)
      modifies this`index
      ensures index == WithIndex(old(index), name, v)
    {
      match name
      case 'm' => index := index.(time := Some(v));
      case 't' => index := index.(time := Some(v));
      case 's' => index := index.(time := Some(v));
      case 'u' => index := index.(user := Some(v));
      case 'd' => index := index.(database := Some(v));
      case 'h' => index := index.(host := Some(v));
      case 'r' => index := index.(host := Some(v));
      case 'e' => index := index.(errorCode := Some(v));
      case _ =>
    }

    method SetLogLevelIndex(v: int)
      modifies this`levelIndex
      ensures levelIndex == v
    {
      levelIndex := v;
    }

    /** Accepts a line that matches and whose time, if the parser has one and it is not empty, is in either format,
        whichever of the two is tried first; the format that fitted last is tried first next time. */
    method Parse(match_: Option<seq<string>>, parseTime: (string, string) -> Option<int>) returns (r: Result<ParsedData, string>)
      modifies this`timeFormat, this`timeFormatAlt
      ensures {timeFormat, timeFormatAlt} == old({timeFormat, timeFormatAlt})
      ensures r.Ok? <==>
        && match_.Some?
        && var time := TimePart(match_.value, index.time);
           time != "" ==> exists f :: f in {timeFormat, timeFormatAlt} && parseTime(f, time).Some?
      ensures r.Ok? ==>
        && r.value == ParsedData(levelIndex, index, match_.value, r.value.time)
        && var time := TimePart(match_.value, index.time);
           r.value.time == if time == "" then None else parseTime(timeFormat, time)
    {
      if match_.None? {
        return Err("invalid log format");
      }
      var data := match_.value;
      if index.time.None? {
        return Ok(ParsedData(levelIndex, index, data, None));
      }
      var timePart := Get(data, index.time.value);
      if timePart == "" {
        return Ok(ParsedData(levelIndex, index, data, None));
      }
      var t := parseTime(timeFormat, timePart);
      if t.Some? {
        return Ok(ParsedData(levelIndex, index, data, t));
      }
      timeFormat, timeFormatAlt := timeFormatAlt, timeFormat;
      t := parseTime(timeFormat, timePart);
      if t.None? {
        return Err("time");
      }
      return Ok(ParsedData(levelIndex, index, data, t));
    }
  }

  /** StringSlice.Get */
  function Get(data: seq<string>, i: int): string {
    if 0 <= i < |data| then data[i] else ""
  }

  function TimePart(data: seq<string>, time: Option<int>): string {
    if time.None? then "" else Get(data, time.value)
  }

  /** One parsed line: the match array, read by the parser's indexes. */
  datatype ParsedData = ParsedData(levelIndex: int, index: ParsingIndex, data: seq<string>, time: Option<int>) {

    function GetUser(): Result<string, string> {
      Known(index.user, "user")
    }

    function GetDatabase(): Result<string, string> {
      Known(index.database, "database")
    }

    /** The host without the port that %r adds in parentheses. */
    function GetHost(): Result<string, string> {
      var h := Known(index.host, "host");
      if h.Ok? && '(' in h.value then Ok(Text.Split(h.value, '(')[0]) else h
    }

    function Known(ix: Option<int>, what: string): Result<string, string> {
      if ix.None? then Err(what + " is not set in this parser")
      else if Get(data, ix.value) in {"", "[unknown]"} then Err("invalid value for " + what)
      else Ok(Get(data, ix.value))
    }

    function GetErrorCode(): Result<string, string> {
      if index.errorCode.None? then Err("error code is not set in this parser")
      else if Get(data, index.errorCode.value) in {"", "00000"} then Err("invalid value for error code")
      else Ok(Get(data, index.errorCode.value))
    }

    function GetLogLevel(): string {
      Get(data, levelIndex)
    }

    /** Indexes without a bounds check: None is the panic. */
    function GetDescription(): Option<string> {
      if 0 <= levelIndex + 1 < |data| then Some(data[levelIndex + 1]) else None
    }
  }

  lemma {:induction false} BeforeSeparator(s: string, sep: char)
    ensures var first := Text.Split(s, sep)[0];
            && sep !in first && first <= s && (first == s || s[|first|] == sep)
  {
    if s != "" && s[0] != sep {
      BeforeSeparator(s[1..], sep);
    }
  }

  predicate TextAt(data: seq<string>, ix: Option<int>, s: string) {
    ix.Some? && 0 <= ix.value < |data| && data[ix.value] == s
  }

  /** Each getter gives the text at its own index, unless it means unknown. Level and description are next to each
      other. */
  lemma GettersMeaning(d: ParsedData, s: string)
    ensures d.GetUser() == Ok(s) <==> TextAt(d.data, d.index.user, s) && s !in {"", "[unknown]"}
    ensures d.GetDatabase() == Ok(s) <==> TextAt(d.data, d.index.database, s) && s !in {"", "[unknown]"}
    ensures d.GetErrorCode() == Ok(s) <==> TextAt(d.data, d.index.errorCode, s) && s !in {"", "00000"}
    ensures s != "" ==> (d.GetLogLevel() == s <==> TextAt(d.data, Some(d.levelIndex), s))
    ensures d.GetDescription() == Some(s) <==> TextAt(d.data, Some(d.levelIndex + 1), s)
  {
    hide ParsedData.Known, TextAt, Get;
    KnownMeaning(d, d.index.user, "user", s);
    KnownMeaning(d, d.index.database, "database", s);
    CodeMeaning(d, s);
    AtIndex(d, Some(d.levelIndex), s);
    Description(d, s);
  }

  lemma KnownMeaning(d: ParsedData, ix: Option<int>, what: string, s: string)
    ensures d.Known(ix, what) == Ok(s) <==> TextAt(d.data, ix, s) && s !in {"", "[unknown]"}
    ensures ix.None? ==> d.Known(ix, what) == Err(what + " is not set in this parser")
  {
    if TextAt(d.data, ix, s) {
      assert Get(d.data, ix.value) == s;
    }
  }

  lemma CodeMeaning(d: ParsedData, s: string)
    ensures d.GetErrorCode() == Ok(s) <==> TextAt(d.data, d.index.errorCode, s) && s !in {"", "00000"}
  {
    if TextAt(d.data, d.index.errorCode, s) {
      assert Get(d.data, d.index.errorCode.value) == s;
    }
  }

  lemma AtIndex(d: ParsedData, ix: Option<int>, s: string)
    ensures ix.Some? && s != "" ==> (Get(d.data, ix.value) == s <==> TextAt(d.data, ix, s))
  {
  }

  lemma Description(d: ParsedData, s: string)
    ensures d.GetDescription() == Some(s) <==> TextAt(d.data, Some(d.levelIndex + 1), s)
  {
  }

  /** The host is the text at its index up to the first parenthesis. */
  lemma HostMeaning(d: ParsedData, host: string)
    ensures d.GetHost() == Ok(host) <==>
              && '(' !in host
              && exists port :: TextAt(d.data, d.index.host, host + port) && host + port !in {"", "[unknown]"}
                               && (port == "" || port[0] == '(')
  {
    if d.GetHost() == Ok(host) {
      var text := Get(d.data, d.index.host.value);
      BeforeSeparator(text, '(');
      assert text == host + text[|host|..];
    }
    if port :| TextAt(d.data, d.index.host, host + port) && '(' !in host && host + port !in {"", "[unknown]"}
               && (port == "" || port[0] == '(') {
      KnownMeaning(d, d.index.host, "host", host + port);
      FirstPart(host, port);
      assert port == "" ==> host + port == host;
    }
  }

  lemma {:induction false} FirstPart(s: string, port: string)
    requires '(' !in s && (port == "" || port[0] == '(')
    ensures Text.Split(s + port, '(')[0] == s && ('(' in s + port <==> port != "")
  {
    if s == "" {
      assert s + port == port;
    } else {
      assert (s + port)[1..] == s[1..] + port;
      FirstPart(s[1..], port);
    }
  }

  /** A prefix without the placeholder is an error of its own. */
  lemma UnsetMeaning(d: ParsedData)
    ensures d.index.user.None? ==> d.GetUser() == Err("user" + " is not set in this parser")
    ensures d.index.database.None? ==> d.GetDatabase() == Err("database" + " is not set in this parser")
    ensures d.index.host.None? ==> d.GetHost() == Err("host" + " is not set in this parser")
    ensures d.index.errorCode.None? ==> d.GetErrorCode() == Err("error code is not set in this parser")
  {
    hide ParsedData.Known;
    KnownMeaning(d, d.index.user, "user", "");
    KnownMeaning(d, d.index.database, "database", "");
    KnownMeaning(d, d.index.host, "host", "");
  }

  /** MustCompile panics on an expression that does not compile: None. */
  method GetDynamicBaseParser(logPattern: string, compiles: string -> bool) returns (r: Option<BaseParser>)
    ensures var ps := Emit(QuoteMeta(logPattern));
            && (r.Some? <==> ps.Some? && compiles(Regex(ps.value)))
            && (r.Some? ==>
                  && fresh(r.value) && r.value.regex == Regex(ps.value)
                  && var m := Indexes(ps.value, 2);
                     r.value.levelIndex == |m| + 3 && AllChosen(r.value.index, m, m.Keys))
  {
    hide Emit, QuoteMeta, Regex, Indexes, Chosen, WithIndex;
    var g := GenerateRegexString(logPattern);
    if g.None? {
      return None;
    }
    var (regexString, indexMap) := g.value;
    if !compiles(regexString) {
      return None;
    }
    var b := new BaseParser.FromRegex(regexString);
    var todo := indexMap.Keys;
    NothingChosen(indexMap);
    assert indexMap.Keys - todo == {};
    while todo != {}
      invariant todo <= indexMap.Keys
      invariant fresh(b) && b.regex == regexString
      invariant AllChosen(b.index, indexMap, indexMap.Keys - todo)
      decreases |todo|
    {
      var c := Pick(todo);
      ChosenMore(b.index, indexMap, indexMap.Keys - todo, c);
      b.SetIndex(c, indexMap[c]);
      assert indexMap.Keys - (todo - {c}) == (indexMap.Keys - todo) + {c};
      todo := todo - {c};
    }
    assert indexMap.Keys - {} == indexMap.Keys;
    b.SetLogLevelIndex(|indexMap| + 3);
    return Some(b);
  }

  lemma NothingChosen(m: map<char, int>)
    ensures AllChosen(NO_INDEX, m, {})
  {
  }

  /** Setting the field of one more key keeps every field chosen. */
  lemma ChosenMore(index: ParsingIndex, m: map<char, int>, done: set<char>, c: char)
    requires AllChosen(index, m, done) && c in m
    ensures AllChosen(WithIndex(index, c, m[c]), m, done + {c})
  {
  }

  ghost predicate ReadsGroupOf(ps: seq<Piece>, ix: Option<int>, names: set<char>) {
    ix.Some? ==> GroupOf(ps, ix.value, names) && !GroupOf(ps, ix.value, KNOWN - names)
  }

  /** The index is too small by the unquoted parentheses that capture before the last occurrence of one of the
      placeholders. */
  ghost predicate OffByCaptures(p: string, ps: seq<Piece>, ix: Option<int>, names: set<char>) {
    ix.Some? ==> exists c :: c in names && c in Letters(p) && OpenedBy(ps, LastPiece(p, c), ix.value + Captures(Before(p, c)))
  }

  ghost predicate AllFields(d: ParsedData, P: (Option<int>, set<char>) -> bool) {
    && P(d.index.time, {'m', 't', 's'}) && P(d.index.host, {'h', 'r'}) && P(d.index.user, {'u'})
    && P(d.index.database, {'d'}) && P(d.index.errorCode, {'e'})
  }

  /** A parser of the generated expression, on a match array with an entry for the whole match and one per group. */
  ghost predicate Generated(p: string, d: ParsedData)
    requires Emit(QuoteMeta(p)).Some?
  {
    var ps := Emit(QuoteMeta(p)).value;
    var m := Indexes(ps, 2);
    d.levelIndex == |m| + 3 && AllChosen(d.index, m, m.Keys) && |d.data| == Run(START, Regex(ps)).groups + 1
  }

  /** What the getters of a generated parser read. Time, user, host, database and error code are unset exactly when the
      prefix has none of their placeholders. Without unquoted parentheses that capture they come from a group of one
      of their own placeholders and of no other; with them the index is too small by those before it. The
      description never indexes out of range; it and the level come from their own groups when, and only when, no
      known placeholder repeats and no unquoted parenthesis captures. */
  lemma GettersReadTheirGroups(p: string, d: ParsedData)
    requires PairsPlain(p) && Emit(QuoteMeta(p)).Some? && Generated(p, d)
    ensures var ps := Emit(QuoteMeta(p)).value;
            && AllFields(d, (ix, names) => OffByCaptures(p, ps, ix, names))
            && (Captures(p) == 0 ==> AllFields(d, (ix, names) => ReadsGroupOf(ps, ix, names)))
            && (d.index.time.None? <==> 'm' !in Letters(p) && 't' !in Letters(p) && 's' !in Letters(p))
            && (d.index.user.None? <==> 'u' !in Letters(p)) && (d.index.database.None? <==> 'd' !in Letters(p))
            && (d.index.host.None? <==> 'h' !in Letters(p) && 'r' !in Letters(p))
            && (d.index.errorCode.None? <==> 'e' !in Letters(p))
            && d.GetDescription().Some? && d.GetLogLevel() == d.data[d.levelIndex]
            && (LevelAndContent(Regex(ps), d.levelIndex) <==> PlaceholdersOnce(p) && Captures(p) == 0)
  {
    hide Emit, QuoteMeta, Regex, Indexes, Run, GroupOf, Balanced, Letters, Count, LevelAndContent, PlaceholdersOnce, Captures,
         Before, OpenedBy, PairsPlain, Nested, Depth, LastPiece, OffByCaptures, ReadsGroupOf;
    CompilerGroups(p);
    var ps := Emit(QuoteMeta(p)).value;
    var re, m := Regex(ps), Indexes(ps, 2);
    forall names: set<char>, ix: Option<int> | Chosen(ix, m, names, m.Keys) && names <= KNOWN
      ensures OffByCaptures(p, ps, ix, names) && (Captures(p) == 0 ==> ReadsGroupOf(ps, ix, names))
    {
      FieldReads(p, ps, ix, names);
    }
    if LevelAndContent(re, d.levelIndex) {
      LevelUnique(re, d.levelIndex, Run(START, re).groups - 1);
    }
  }

  lemma FieldReads(p: string, ps: seq<Piece>, ix: Option<int>, names: set<char>)
    requires PairsPlain(p) && Emit(QuoteMeta(p)) == Some(ps) && names <= KNOWN
    requires Chosen(ix, Indexes(ps, 2), names, Indexes(ps, 2).Keys)
    requires forall c :: c in Indexes(ps, 2) ==> c in Letters(p) && IndexExact(p, ps, c, Indexes(ps, 2)[c])
    ensures OffByCaptures(p, ps, ix, names) && (Captures(p) == 0 ==> ReadsGroupOf(ps, ix, names))
  {
    hide Emit, QuoteMeta, Indexes, Captures, Before, OpenedBy, PairsPlain, LastPiece, Letters, GroupOf, Count;
    var m := Indexes(ps, 2);
    if ix.Some? {
      var c :| c in names && c in m && m[c] == ix.value;
      assert OpenedBy(ps, LastPiece(p, c), ix.value + Captures(Before(p, c)));
      if Captures(p) == 0 {
        IndexOfLast(p, c);
        GroupOfMore(ps, ix.value, c, names);
        OwnGroupOnly(ps, ix.value, names);
      }
    }
  }

  lemma GroupOfMore(ps: seq<Piece>, n: int, c: char, names: set<char>)
    requires GroupOf(ps, n, {c}) && c in names
    ensures GroupOf(ps, n, names)
  {
    hide OpenedBy;
  }
}
