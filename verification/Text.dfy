/** The functions of Go's strings package that the configuration code relies on, on ASCII text. */
module Text {

  /** strings.Split with a one-character separator: never empty. */
  function Split(s: string, sep: char): (parts: seq<string>)
    ensures |parts| >= 1
  {
    if s == "" then [""]
    else
      var rest := Split(s[1..], sep);
      if s[0] == sep then [""] + rest else [[s[0]] + rest[0]] + rest[1..]
  }

  /** The part stands in the text between two separators or ends. */
  ghost predicate Listed(s: string, sep: char, part: string) {
    exists i, j :: ListedAt(s, sep, part, i, j)
  }

  ghost predicate ListedAt(s: string, sep: char, part: string, i: int, j: int) {
    && 0 <= i <= j <= |s| && s[i..j] == part && sep !in part
    && (i == 0 || s[i - 1] == sep) && (j == |s| || s[j] == sep)
  }

  /** Splitting gives exactly the parts between separators. */
  lemma SplitListed(s: string, sep: char, part: string)
    ensures part in Split(s, sep) <==> Listed(s, sep, part)
  {
    SplitParts(s, sep, part);
    var parts := Split(s, sep);
    assert parts == [parts[0]] + parts[1..];
  }

  lemma {:induction false} SplitParts(s: string, sep: char, part: string)
    ensures part == Split(s, sep)[0] <==> exists j :: ListedAt(s, sep, part, 0, j)
    ensures part in Split(s, sep)[1..] <==> exists i, j :: i > 0 && ListedAt(s, sep, part, i, j)
    decreases |s|
  {
    if s == "" {
      assert part == "" ==> ListedAt(s, sep, part, 0, 0);
    } else {
      var rest, parts := s[1..], Split(s[1..], sep);
      hide ListedAt;
      SplitParts(rest, sep, part);
      if part != "" {
        SplitParts(rest, sep, part[1..]);
        assert part == [part[0]] + part[1..];
      }
      ListedFirst(s, sep, part);
      ListedLater(s, sep, part);
      assert parts == [parts[0]] + parts[1..];
      if s[0] == sep {
        assert Split(s, sep)[1..] == parts;
      } else {
        assert Split(s, sep)[1..] == parts[1..];
      }
    }
  }

  /** The first part of a text is empty before a separator, and otherwise the first character and the first part of what
      follows. */
  lemma ListedFirst(s: string, sep: char, part: string)
    requires s != ""
    ensures (exists j :: ListedAt(s, sep, part, 0, j)) <==>
              if s[0] == sep then part == ""
              else part != "" && part[0] == s[0] && exists j :: ListedAt(s[1..], sep, part[1..], 0, j)
  {
    if j :| ListedAt(s, sep, part, 0, j) {
      assert j > 0 ==> s[0..j][0] == s[0];
      if s[0] != sep {
        assert part[1..] == s[1..][0..j - 1];
        assert ListedAt(s[1..], sep, part[1..], 0, j - 1);
      }
    }
    if s[0] == sep && part == "" {
      assert ListedAt(s, sep, part, 0, 0);
    }
    if s[0] != sep && part != "" && part[0] == s[0] {
      if j :| ListedAt(s[1..], sep, part[1..], 0, j) {
        assert s[0..j + 1] == [s[0]] + s[1..][0..j] && part == [part[0]] + part[1..];
        assert ListedAt(s, sep, part, 0, j + 1);
      }
    }
  }

  lemma TailSlice(s: string, i: nat, j: nat)
    requires 0 < i <= j <= |s|
    ensures s[i..j] == s[1..][i - 1..j - 1]
  {
    forall k | 0 <= k < j - i ensures s[i..j][k] == s[1..][i - 1..j - 1][k] {
      assert s[1..][i - 1..j - 1][k] == s[1..][i - 1 + k];
    }
  }

  /** The later parts of a text are the parts of what follows its first character, without the first of these if that
      character is no separator. */
  lemma ListedLater(s: string, sep: char, part: string)
    requires s != ""
    ensures (exists i, j :: i > 0 && ListedAt(s, sep, part, i, j)) <==>
              || (exists i, j :: i > 0 && ListedAt(s[1..], sep, part, i, j))
              || (s[0] == sep && exists j :: ListedAt(s[1..], sep, part, 0, j))
  {
    forall i, j | i > 0 ensures ListedAt(s, sep, part, i, j) <==>
      (i == 1 ==> s[0] == sep) && ListedAt(s[1..], sep, part, i - 1, j - 1)
    {
      if 0 < i <= j <= |s| {
        TailSlice(s, i, j);
      }
    }
    if i, j :| ListedAt(s[1..], sep, part, i, j) && (i == 0 ==> s[0] == sep) {
      assert ListedAt(s, sep, part, i + 1, j + 1);
    }
    if i, j :| ListedAt(s, sep, part, i, j) && i > 0 {
      assert ListedAt(s[1..], sep, part, i - 1, j - 1);
    }
  }

  predicate Contains(s: string, sub: string) {
    exists i :: 0 <= i <= |s| - |sub| && IsAt(s, sub, i)
  }

  predicate IsAt(s: string, sub: string, i: nat)
    requires i + |sub| <= |s|
  {
    s[i..i + |sub|] == sub
  }

  predicate IsSpace(c: char) {
    c in {' ', '\t', '\n', '\r'} || c as int in {11, 12}
  }

  function TrimLeft(s: string): string {
    if s != "" && IsSpace(s[0]) then TrimLeft(s[1..]) else s
  }

  function TrimRight(s: string): string {
    if s != "" && IsSpace(s[|s| - 1]) then TrimRight(s[..|s| - 1]) else s
  }

  /** strings.TrimSpace */
  function TrimSpace(s: string): string {
    TrimRight(TrimLeft(s))
  }

  lemma {:induction false} TrimRightKeepsFront(s: string)
    ensures TrimRight(s) <= s
    ensures TrimRight(s) != "" ==> !IsSpace(TrimRight(s)[|TrimRight(s)| - 1])
  {
    if s != "" && IsSpace(s[|s| - 1]) {
      TrimRightKeepsFront(s[..|s| - 1]);
    }
  }

  lemma {:induction false} TrimLeftFront(s: string)
    ensures TrimLeft(s) != "" ==> !IsSpace(TrimLeft(s)[0])
  {
    if s != "" && IsSpace(s[0]) {
      TrimLeftFront(s[1..]);
    }
  }

  /** Trimming takes away white space at both ends, and all of it. */
  lemma TrimMeaning(s: string) returns (before: string, after: string)
    ensures s == before + TrimSpace(s) + after
    ensures forall c :: c in before + after ==> c in {' ', '\t', '\n', '\r'} || c as int in {11, 12}
    ensures TrimSpace(s) != "" ==> !IsSpace(TrimSpace(s)[0]) && !IsSpace(TrimSpace(s)[|TrimSpace(s)| - 1])
    ensures forall c :: c in {' ', '\t', '\n', '\r'} || c as int in {11, 12} ==> IsSpace(c)
  {
    before := TrimLeftTakes(s);
    after := TrimRightTakes(TrimLeft(s));
    TrimLeftFront(s);
    TrimRightKeepsFront(TrimLeft(s));
    assert before + (TrimSpace(s) + after) == before + TrimSpace(s) + after;
  }

  lemma {:induction false} TrimLeftTakes(s: string) returns (before: string)
    ensures s == before + TrimLeft(s) && forall c :: c in before ==> IsSpace(c)
  {
    if s != "" && IsSpace(s[0]) {
      before := TrimLeftTakes(s[1..]);
      assert [s[0]] + before + TrimLeft(s) == [s[0]] + (before + TrimLeft(s)) && s == [s[0]] + s[1..];
      before := [s[0]] + before;
    } else {
      before := "";
    }
  }

  lemma {:induction false} TrimRightTakes(s: string) returns (after: string)
    ensures s == TrimRight(s) + after && forall c :: c in after ==> IsSpace(c)
  {
    if s != "" && IsSpace(s[|s| - 1]) {
      var last := |s| - 1;
      after := TrimRightTakes(s[..last]);
      assert TrimRight(s) + (after + [s[last]]) == (TrimRight(s) + after) + [s[last]] && s == s[..last] + [s[last]];
      after := after + [s[last]];
    } else {
      after := "";
    }
  }

  /** Trimming twice is trimming once. */
  lemma TrimSpaceIdempotent(s: string)
    ensures TrimSpace(TrimSpace(s)) == TrimSpace(s)
  {
    TrimLeftFront(s);
    TrimRightKeepsFront(TrimLeft(s));
  }

  /** strings.ToLower on ASCII letters. */
  function ToLower(s: string): string {
    seq(|s|, i requires 0 <= i < |s| =>
      if 'A' <= s[i] <= 'Z' then s[i] + 32 as char else s[i])
  }

  /** Each capital becomes the letter at the same place among the small ones, and nothing else changes. */
  lemma ToLowerMeaning(s: string, i: nat)
    requires i < |s|
    ensures |ToLower(s)| == |s|
    ensures if 'A' <= s[i] <= 'Z' then 'a' <= ToLower(s)[i] <= 'z' && ToLower(s)[i] - 'a' == s[i] - 'A'
            else ToLower(s)[i] == s[i]
  {
  }
}
