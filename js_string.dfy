/** The JavaScript string operations the bot relies on: `startsWith`, `includes`,
    `trim`, `split(/ +/)`, `join(' ')` and `toLowerCase`, on strings of Unicode
    characters. */
module JsString {

  /** WhiteSpace and LineTerminator code points of ECMAScript: what `trim` removes
      and what `parseInt` skips at the start. */
  predicate IsWhiteSpace(c: char)
  {
    c == '\t' || c == '\n' || c == '\U{000B}' || c == '\U{000C}' || c == '\r' ||
    c == ' ' || c == '\U{00A0}' || c == '\U{1680}' || ('\U{2000}' <= c <= '\U{200A}') ||
    c == '\U{2028}' || c == '\U{2029}' || c == '\U{202F}' || c == '\U{205F}' ||
    c == '\U{3000}' || c == '\U{FEFF}'
  }

  /** `s.startsWith(prefix)` */
  predicate StartsWith(s: string, prefix: string)
  {
    |prefix| <= |s| && s[..|prefix|] == prefix
  }

  /** Text after a prefix starts with that prefix, and cutting the prefix gives the text back. */
  lemma StartsWithConcat(prefix: string, t: string)
    ensures StartsWith(prefix + t, prefix) && (prefix + t)[|prefix|..] == t
  {
    assert (prefix + t)[..|prefix|] == prefix;
  }

  /** `s.includes(needle)`: a search from the left, one start position at a time. */
  predicate Contains(s: string, needle: string)
  {
    StartsWith(s, needle) || (s != [] && Contains(s[1..], needle))
  }

  /** `needle` occurs in `s` at index `i`. */
  predicate OccursAt(s: string, needle: string, i: int)
  {
    0 <= i && i + |needle| <= |s| && s[i..i + |needle|] == needle
  }

  /** The search finds the needle exactly when it occurs somewhere in `s`. */
  lemma {:induction false} ContainsIff(s: string, needle: string)
    ensures Contains(s, needle) <==> exists i :: OccursAt(s, needle, i)
    decreases |s|
  {
    assert OccursAt(s, needle, 0) <==> StartsWith(s, needle);
    if s != [] {
      var t := s[1..];
      ContainsIff(t, needle);
      forall i | OccursAt(t, needle, i) ensures OccursAt(s, needle, i + 1) {
        assert t[i..i + |needle|] == s[i + 1..i + 1 + |needle|];
      }
      forall i | OccursAt(s, needle, i) && i >= 1 ensures OccursAt(t, needle, i - 1) {
        assert t[i - 1..i - 1 + |needle|] == s[i..i + |needle|];
      }
    }
  }

  /** `trimStart`: drops the leading white space. */
  function TrimStart(s: string): (r: string)
    ensures |r| <= |s| && r == s[|s| - |r|..]
    ensures forall k :: 0 <= k < |s| - |r| ==> IsWhiteSpace(s[k])
    ensures r == [] || !IsWhiteSpace(r[0])
  {
    if s != [] && IsWhiteSpace(s[0]) then TrimStart(s[1..]) else s
  }

  /** A string that does not start with white space is its own `trimStart`. */
  lemma TrimStartUnchanged(s: string)
    requires s == [] || !IsWhiteSpace(s[0])
    ensures TrimStart(s) == s
  {
  }

  /** `trimEnd`: drops the trailing white space. */
  function TrimEnd(s: string): (r: string)
    ensures |r| <= |s| && r == s[..|r|]
    ensures forall k :: |r| <= k < |s| ==> IsWhiteSpace(s[k])
    ensures r == [] || !IsWhiteSpace(r[|r| - 1])
  {
    if s != [] && IsWhiteSpace(s[|s| - 1]) then TrimEnd(s[..|s| - 1]) else s
  }

  /** `trim`: the slice of `s` left after the white space at both ends is dropped. */
  function Trim(s: string): (r: string)
    ensures r == [] || (!IsWhiteSpace(r[0]) && !IsWhiteSpace(r[|r| - 1]))
    ensures exists i :: TrimmedAt(s, i, r)
  {
    var t := TrimStart(s);
    var r := TrimEnd(t);
    var i := |s| - |t|;
    assert t == s[i..];
    assert r == s[i..][..|r|];
    assert TrimmedAt(s, i, r);
    r
  }

  /** `r` is `s[i..i + |r|]` and everything of `s` outside that slice is white space. */
  ghost predicate TrimmedAt(s: string, i: int, r: string)
  {
    0 <= i <= i + |r| <= |s| && r == s[i..i + |r|] &&
    (forall k :: 0 <= k < i ==> IsWhiteSpace(s[k])) &&
    (forall k :: i + |r| <= k < |s| ==> IsWhiteSpace(s[k]))
  }

  /** A string whose two ends are not white space is its own trim. */
  lemma TrimUnchanged(s: string)
    requires s == [] || (!IsWhiteSpace(s[0]) && !IsWhiteSpace(s[|s| - 1]))
    ensures Trim(s) == s
  {
    var r := Trim(s);
    var i :| TrimmedAt(s, i, r);
    if s != [] {
      assert i == 0;
      assert i + |r| == |s|;
    }
  }

  /** Drops a leading run of spaces. */
  function DropSpaces(s: string): (r: string)
    ensures |r| <= |s| && r == s[|s| - |r|..]
    ensures forall k :: 0 <= k < |s| - |r| ==> s[k] == ' '
    ensures r == [] || r[0] != ' '
  {
    if s != [] && s[0] == ' ' then DropSpaces(s[1..]) else s
  }

  /** The characters of `s` other than spaces, in order. */
  function WithoutSpaces(s: string): string
  {
    if s == [] then "" else (if s[0] == ' ' then "" else [s[0]]) + WithoutSpaces(s[1..])
  }

  /** The fields laid end to end. */
  function Concat(parts: seq<string>): string
  {
    if parts == [] then "" else parts[0] + Concat(parts[1..])
  }

  /** `s.split(/ +/)`: the fields between maximal runs of spaces. A run at
      either end yields an empty first or last field, and `""` yields `[""]`. */
  function SplitOnSpaces(s: string): (r: seq<string>)
    ensures |r| >= 1
    ensures forall t :: t in r ==> ' ' !in t
    decreases |s|
  {
    if s == [] then [""]
    else if s[0] == ' ' then [""] + SplitOnSpaces(DropSpaces(s))
    else
      var rest := SplitOnSpaces(s[1..]);
      [[s[0]] + rest[0]] + rest[1..]
  }

  /** Dropping spaces loses no other character. */
  lemma {:induction false} DropSpacesKeepsText(s: string)
    ensures WithoutSpaces(DropSpaces(s)) == WithoutSpaces(s)
    decreases |s|
  {
    if s != [] && s[0] == ' ' {
      DropSpacesKeepsText(s[1..]);
    }
  }

  /** The fields hold every character of the input other than a space, in order:
      `split(/ +/)` removes the spaces and nothing else. */
  lemma {:induction false} SplitKeepsText(s: string)
    ensures Concat(SplitOnSpaces(s)) == WithoutSpaces(s)
    decreases |s|
  {
    if s != [] {
      if s[0] == ' ' {
        var d := DropSpaces(s);
        SplitKeepsText(d);
        DropSpacesKeepsText(s);
        assert Concat(SplitOnSpaces(s)) == "" + Concat(SplitOnSpaces(d));
      } else {
        var rest := SplitOnSpaces(s[1..]);
        var r := [[s[0]] + rest[0]] + rest[1..];
        SplitKeepsText(s[1..]);
        assert r[1..] == rest[1..];
        assert Concat(rest) == rest[0] + Concat(rest[1..]);
        assert Concat(r) == [s[0]] + rest[0] + Concat(rest[1..]);
      }
    }
  }

  /** `parts.join(sep)` */
  function Join(parts: seq<string>, sep: string): (r: string)
    ensures parts == [] ==> r == ""
    ensures |parts| >= 1 ==> |parts[0]| <= |r| && r[..|parts[0]|] == parts[0]
    ensures |parts| >= 1 ==> var last := parts[|parts| - 1];
                             |last| <= |r| && r[|r| - |last|..] == last
  {
    if parts == [] then ""
    else if |parts| == 1 then parts[0]
    else parts[0] + sep + Join(parts[1..], sep)
  }

  /** A string that neither starts nor ends with a space splits into non-empty fields. */
  lemma {:induction false} SplitFieldsNonEmpty(s: string)
    requires s != [] && s[0] != ' ' && s[|s| - 1] != ' '
    ensures forall t :: t in SplitOnSpaces(s) ==> t != ""
    decreases |s|
  {
    var rest := SplitOnSpaces(s[1..]);
    if |s| > 1 {
      if s[1] == ' ' {
        var d := DropSpaces(s[1..]);
        assert d != [] by {
          assert s[|s| - 1] != ' ';
        }
        assert d[|d| - 1] == s[|s| - 1];
        SplitFieldsNonEmpty(d);
        assert rest == [""] + SplitOnSpaces(d);
      } else {
        SplitFieldsNonEmpty(s[1..]);
        forall t | t in rest[1..] ensures t in rest { }
      }
    }
  }

  /** Splitting `p + t`, where `p` holds no space, extends the first field of `t` by `p`. */
  lemma {:induction false} SplitPrepend(p: string, t: string)
    requires ' ' !in p
    ensures var r := SplitOnSpaces(t);
            SplitOnSpaces(p + t) == [p + r[0]] + r[1..]
    decreases |p|
  {
    if p != [] {
      assert (p + t)[0] == p[0] && (p + t)[1..] == p[1..] + t;
      SplitPrepend(p[1..], t);
      assert [p[0]] + (p[1..] + SplitOnSpaces(t)[0]) == p + SplitOnSpaces(t)[0];
    } else {
      var r := SplitOnSpaces(t);
      assert p + t == t && p + r[0] == r[0];
      assert [r[0]] + r[1..] == r;
    }
  }

  /** `n` spaces. */
  function Spaces(n: nat): (r: string)
    ensures |r| == n
    ensures forall k :: 0 <= k < n ==> r[k] == ' '
  {
    if n == 0 then "" else " " + Spaces(n - 1)
  }

  /** A run of spaces before text that does not start with a space is dropped whole. */
  lemma DropSpacesRun(n: nat, t: string)
    requires t == [] || t[0] != ' '
    ensures DropSpaces(Spaces(n) + t) == t
  {
    var s := Spaces(n) + t;
    var r := DropSpaces(s);
    assert forall k :: 0 <= k < n ==> s[k] == ' ';
    assert t != [] ==> s[n] == t[0];
    assert |r| == |t|;
    assert s[n..] == t;
  }

  /** A space-free field, a run of spaces, then more text: the field comes out first. */
  lemma SplitFieldThenRun(p: string, n: nat, t: string)
    requires ' ' !in p && n >= 1 && t != [] && t[0] != ' '
    ensures SplitOnSpaces(p + Spaces(n) + t) == [p] + SplitOnSpaces(t)
  {
    var u := Spaces(n) + t;
    DropSpacesRun(n, t);
    assert u[0] == ' ';
    assert SplitOnSpaces(u) == [""] + SplitOnSpaces(t);
    SplitPrepend(p, u);
    assert p + Spaces(n) + t == p + u;
    assert p + "" == p;
  }

  /** Fields that are not empty and hold no space. */
  predicate PlainFields(parts: seq<string>)
  {
    forall i :: 0 <= i < |parts| ==> parts[i] != "" && ' ' !in parts[i]
  }

  /** Fields separated by runs of spaces: `gaps[i]` spaces between field `i` and field `i + 1`. */
  function JoinRuns(parts: seq<string>, gaps: seq<nat>): (r: string)
    requires |parts| >= 1 && |gaps| == |parts| - 1
    ensures |parts[0]| <= |r| && r[..|parts[0]|] == parts[0]
    ensures var last := parts[|parts| - 1];
            |last| <= |r| && r[|r| - |last|..] == last
    decreases |parts|
  {
    if |parts| == 1 then parts[0]
    else
      var tail := JoinRuns(parts[1..], gaps[1..]);
      var r := parts[0] + Spaces(gaps[0]) + tail;
      assert r[|r| - |parts[|parts| - 1]|..] == tail[|tail| - |parts[|parts| - 1]|..];
      r
  }

  /** Round trip with runs: non-empty, space-free fields separated by runs of
      one or more spaces split back into the fields. */
  lemma {:induction false} SplitJoinRuns(parts: seq<string>, gaps: seq<nat>)
    requires |parts| >= 1 && |gaps| == |parts| - 1 && PlainFields(parts)
    requires forall i :: 0 <= i < |gaps| ==> gaps[i] >= 1
    ensures SplitOnSpaces(JoinRuns(parts, gaps)) == parts
    decreases |parts|
  {
    var p := parts[0];
    if |parts| == 1 {
      SplitPrepend(p, "");
      assert p + "" == p;
    } else {
      var rest := parts[1..];
      var tail := JoinRuns(rest, gaps[1..]);
      assert PlainFields(rest) by {
        forall i | 0 <= i < |rest| ensures rest[i] != "" && ' ' !in rest[i] {
          assert rest[i] == parts[i + 1];
        }
      }
      SplitJoinRuns(rest, gaps[1..]);
      assert rest[0] == parts[1] && tail[0] == rest[0][0];
      SplitFieldThenRun(p, gaps[0], tail);
      assert [p] + rest == parts;
    }
  }

  /** `n` runs of one space each. */
  function SingleGaps(n: nat): (r: seq<nat>)
    ensures |r| == n && forall i :: 0 <= i < n ==> r[i] == 1
  {
    if n == 0 then [] else [1] + SingleGaps(n - 1)
  }

  /** Joining with single spaces is the run-separated form whose every run is one space. */
  lemma {:induction false} JoinSingleRuns(parts: seq<string>)
    requires |parts| >= 1
    ensures Join(parts, " ") == JoinRuns(parts, SingleGaps(|parts| - 1))
    decreases |parts|
  {
    if |parts| > 1 {
      var gaps := SingleGaps(|parts| - 1);
      var tail := Join(parts[1..], " ");
      JoinSingleRuns(parts[1..]);
      assert gaps[1..] == SingleGaps(|parts| - 2);
      assert Spaces(gaps[0]) == " ";
      assert Join(parts, " ") == parts[0] + " " + tail;
    }
  }

  /** Round trip: joining non-empty, space-free fields with single spaces and
      splitting the result on runs of spaces gives the fields back. */
  lemma SplitJoin(parts: seq<string>)
    requires |parts| >= 1 && PlainFields(parts)
    ensures SplitOnSpaces(Join(parts, " ")) == parts
  {
    JoinSingleRuns(parts);
    SplitJoinRuns(parts, SingleGaps(|parts| - 1));
  }

  /** A word as a user types it: non-empty, with no white space. */
  predicate IsWord(t: string)
  {
    t != "" && forall k :: 0 <= k < |t| ==> !IsWhiteSpace(t[k])
  }

  /** The join begins with the first character of the first field and ends
      with the last character of the last field. */
  lemma JoinEnds(parts: seq<string>)
    requires |parts| >= 1 && parts[0] != "" && parts[|parts| - 1] != ""
    ensures var line := Join(parts, " ");
            var last := parts[|parts| - 1];
            line != [] && line[0] == parts[0][0] && line[|line| - 1] == last[|last| - 1]
  {
    var line := Join(parts, " ");
    var first := parts[0];
    var last := parts[|parts| - 1];
    assert line[..|first|] == first;
    assert line[0] == line[..|first|][0];
    var tail := line[|line| - |last|..];
    assert tail == last;
    assert line[|line| - 1] == tail[|last| - 1];
  }

  /** Words joined with single spaces need no trimming. */
  lemma JoinOfWordsTrimmed(parts: seq<string>)
    requires |parts| >= 1 && forall i :: 0 <= i < |parts| ==> IsWord(parts[i])
    ensures Trim(Join(parts, " ")) == Join(parts, " ")
  {
    var first := parts[0];
    var last := parts[|parts| - 1];
    assert IsWord(first) && IsWord(last);
    JoinEnds(parts);
    TrimUnchanged(Join(parts, " "));
  }

  /** Fields separated by runs of spaces, with white space around them: `trim`
      takes the padding off and `split(/ +/)` gives the fields back. */
  lemma PaddedRunsSplit(lead: string, parts: seq<string>, gaps: seq<nat>, trail: string)
    requires AllWhiteSpace(lead) && AllWhiteSpace(trail)
    requires |parts| >= 1 && |gaps| == |parts| - 1 && PlainFields(parts)
    requires forall i :: 0 <= i < |gaps| ==> gaps[i] >= 1
    requires !IsWhiteSpace(parts[0][0])
    requires var last := parts[|parts| - 1]; !IsWhiteSpace(last[|last| - 1])
    ensures SplitOnSpaces(Trim(lead + JoinRuns(parts, gaps) + trail)) == parts
  {
    var line := JoinRuns(parts, gaps);
    var first := parts[0];
    var last := parts[|parts| - 1];
    assert line[..|first|] == first && line[0] == line[..|first|][0];
    var tail := line[|line| - |last|..];
    assert tail == last && line[|line| - 1] == tail[|last| - 1];
    TrimPadded(lead, line, trail);
    SplitJoinRuns(parts, gaps);
  }

  /** Every character of `s` is white space. */
  predicate AllWhiteSpace(s: string)
  {
    forall k :: 0 <= k < |s| ==> IsWhiteSpace(s[k])
  }

  /** `trim` removes exactly the white space around a text whose ends are not white space. */
  lemma TrimPadded(lead: string, line: string, trail: string)
    requires AllWhiteSpace(lead) && AllWhiteSpace(trail)
    requires line != [] && !IsWhiteSpace(line[0]) && !IsWhiteSpace(line[|line| - 1])
    ensures Trim(lead + line + trail) == line
  {
    var s := lead + line + trail;
    var a := |lead|;
    var e := a + |line|;
    assert s[a] == line[0] && s[e - 1] == line[|line| - 1];
    assert s[a..e] == line;
    var r := Trim(s);
    var i :| TrimmedAt(s, i, r);
    assert i <= a;
    assert r != [];
    assert s[i] == r[0];
    assert i >= a;
    assert i + |r| >= e;
    assert s[i + |r| - 1] == r[|r| - 1];
    assert i + |r| <= e;
  }

  function ToLowerChar(c: char): char
  {
    if 'A' <= c <= 'Z' then (c as int + 32) as char else c
  }

  /** `toLowerCase` on the ASCII letters; other characters are kept. */
  function ToLowerAscii(s: string): (r: string)
    ensures |r| == |s|
    ensures forall k :: 0 <= k < |s| ==> r[k] == ToLowerChar(s[k])
  {
    if s == [] then [] else [ToLowerChar(s[0])] + ToLowerAscii(s[1..])
  }
}
