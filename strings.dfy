/**
 * The string operations the engine relies on: Python's `str.isspace`,
 * `str.strip`, `str.split('\n')`, the whitespace collapse
 * `re.sub('\s+', ' ', ...)`, the line buffer built by `buffer += line + '\n'`,
 * and the sequence of lines `read_lines` yields.
 */
module Strings {

  /**
   * The characters Python counts as whitespace, both for `str.strip()` and for
   * the `\s` class of a `str` pattern: U+0009..U+000D, U+001C..U+001F, the
   * space, U+0085, U+00A0, U+1680, U+2000..U+200A, U+2028, U+2029, U+202F,
   * U+205F and U+3000 (`c.isspace()`).
   */
  predicate IsSpace(c: char) {
    || '\t' <= c <= '\r'
    || '\U{1C}' <= c <= ' '
    || c == '\U{85}' || c == '\U{A0}' || c == '\U{1680}'
    || '\U{2000}' <= c <= '\U{200A}'
    || c == '\U{2028}' || c == '\U{2029}' || c == '\U{202F}' || c == '\U{205F}' || c == '\U{3000}'
  }

  /** Neither the first nor the last character is whitespace. */
  predicate NoEdgeSpace(s: string) {
    s == [] || (!IsSpace(s[0]) && !IsSpace(s[|s| - 1]))
  }

  /** No two adjacent characters are both whitespace. */
  predicate NoAdjacentSpaces(s: string) {
    forall k :: 0 <= k < |s| - 1 ==> !(IsSpace(s[k]) && IsSpace(s[k + 1]))
  }

  /** The only whitespace character that occurs is the plain space. */
  predicate OnlyPlainSpaces(s: string) {
    forall k :: 0 <= k < |s| ==> IsSpace(s[k]) ==> s[k] == ' '
  }

  /** `s` with its leading whitespace removed (`str.lstrip()`). */
  function TrimLeft(s: string): (r: string)
    ensures |r| <= |s| && r == s[|s| - |r|..]
    ensures forall k :: 0 <= k < |s| - |r| ==> IsSpace(s[k])
    ensures r == [] || !IsSpace(r[0])
  {
    if s != [] && IsSpace(s[0]) then
      var r := TrimLeft(s[1..]);
      assert s[1..][|s| - 1 - |r|..] == s[|s| - |r|..];
      assert forall k :: 1 <= k < |s| - |r| ==> s[k] == s[1..][k - 1];
      r
    else s
  }

  /** `s` with its trailing whitespace removed (`str.rstrip()`). */
  function TrimRight(s: string): (r: string)
    ensures |r| <= |s| && r == s[..|r|]
    ensures forall k :: |r| <= k < |s| ==> IsSpace(s[k])
    ensures r == [] || !IsSpace(r[|r| - 1])
  {
    if s != [] && IsSpace(s[|s| - 1]) then
      var r := TrimRight(s[..|s| - 1]);
      assert s[..|s| - 1][..|r|] == s[..|r|];
      assert forall k :: |r| <= k < |s| - 1 ==> s[k] == s[..|s| - 1][k];
      r
    else s
  }

  /** `str.strip()`: both leading and trailing whitespace removed. */
  function Strip(s: string): (r: string)
    ensures NoEdgeSpace(r) && |r| <= |s|
  {
    TrimRight(TrimLeft(s))
  }

  /**
   * What `Strip` keeps: the infix `s[i..j]`, the longest one that neither
   * begins nor ends with whitespace, everything cut off on either side being
   * whitespace.
   */
  lemma {:induction false} StripInfix(s: string) returns (i: nat, j: nat)
    ensures i <= j <= |s| && Strip(s) == s[i..j]
    ensures forall k :: 0 <= k < i ==> IsSpace(s[k])
    ensures forall k :: j <= k < |s| ==> IsSpace(s[k])
  {
    var t := TrimLeft(s);
    var r := TrimRight(t);
    assert Strip(s) == r;
    i := |s| - |t|;
    j := i + |r|;
    SuffixInfix(s, t, r, i);
    assert Strip(s) == s[i..j];
  }

  /** The prefix `r` of the suffix `t == s[i..]` is `s[i..i + |r|]`, followed in `s` by the rest of `t`. */
  lemma {:induction false} SuffixInfix(s: string, t: string, r: string, i: nat)
    requires i <= |s| && t == s[i..] && |r| <= |t| && r == t[..|r|]
    requires forall k :: |r| <= k < |t| ==> IsSpace(t[k])
    ensures r == s[i..i + |r|]
    ensures forall k :: i + |r| <= k < |s| ==> IsSpace(s[k])
  {
    forall k | i + |r| <= k < |s|
      ensures IsSpace(s[k])
    {
      assert s[k] == t[k - i];
    }
  }

  /**
   * `re.sub('\s+', ' ', s)`: every maximal run of whitespace characters is
   * replaced by one plain space; all other characters are kept in order.
   */
  function Collapse(s: string): (r: string)
    ensures OnlyPlainSpaces(r) && NoAdjacentSpaces(r)
    ensures r == [] <==> s == []
    ensures r != [] ==> (IsSpace(r[0]) <==> IsSpace(s[0]))
    decreases |s|
  {
    if s == [] then []
    else if IsSpace(s[0]) then " " + Collapse(TrimLeft(s[1..]))
    else [s[0]] + Collapse(s[1..])
  }

  /** A collapsed string ends with whitespace exactly when the original does. */
  lemma {:induction false} CollapseLast(s: string)
    requires s != []
    ensures IsSpace(Collapse(s)[|Collapse(s)| - 1]) <==> IsSpace(s[|s| - 1])
    decreases |s|
  {
    if IsSpace(s[0]) {
      var rest := TrimLeft(s[1..]);
      if rest != [] {
        CollapseLast(rest);
        assert rest[|rest| - 1] == s[|s| - 1];
      }
    } else if |s| > 1 {
      CollapseLast(s[1..]);
    }
  }

  /** Collapsing keeps the non-whitespace characters, in order. */
  lemma {:induction false} CollapseNonSpace(s: string)
    ensures NonSpace(Collapse(s)) == NonSpace(s)
    decreases |s|
  {
    if s != [] {
      if IsSpace(s[0]) {
        var rest := TrimLeft(s[1..]);
        assert Collapse(s) == [' '] + Collapse(rest);
        NonSpaceCons(' ', Collapse(rest));
        CollapseNonSpace(rest);
        NonSpaceSkipsSpaces(s, |s| - |rest|);
        assert s[|s| - |rest|..] == rest;
      } else {
        assert Collapse(s) == [s[0]] + Collapse(s[1..]);
        NonSpaceCons(s[0], Collapse(s[1..]));
        CollapseNonSpace(s[1..]);
      }
    }
  }

  lemma {:induction false} NonSpaceCons(c: char, s: string)
    ensures NonSpace([c] + s) == if IsSpace(c) then NonSpace(s) else [c] + NonSpace(s)
  {
    assert ([c] + s)[1..] == s;
  }

  /** The non-whitespace characters of `s`, in order. */
  function NonSpace(s: string): string
  {
    if s == [] then []
    else if IsSpace(s[0]) then NonSpace(s[1..])
    else [s[0]] + NonSpace(s[1..])
  }

  /** Dropping a prefix made of whitespace does not change `NonSpace`. */
  lemma {:induction false} NonSpaceSkipsSpaces(s: string, n: nat)
    requires n <= |s|
    requires forall k :: 0 <= k < n ==> IsSpace(s[k])
    ensures NonSpace(s) == NonSpace(s[n..])
    decreases n
  {
    if n > 0 {
      NonSpaceSkipsSpaces(s[1..], n - 1);
      assert s[1..][n - 1..] == s[n..];
    }
  }

  /**
   * The "oneliner" normalisation of a block buffer: strip it, then collapse
   * every internal whitespace run to one space.
   */
  function Normalize(s: string): (r: string)
    ensures NoEdgeSpace(r) && NoAdjacentSpaces(r) && OnlyPlainSpaces(r)
    ensures '\n' !in r
    ensures NonSpace(r) == NonSpace(s)
  {
    var t := Strip(s);
    var r := Collapse(t);
    StripKeepsNonSpace(s);
    CollapseNonSpace(t);
    CollapseEdges(t);
    PlainSpacesNoNewline(r);
    r
  }

  /** Collapsing a string without edge whitespace gives one without edge whitespace. */
  lemma {:induction false} CollapseEdges(t: string)
    requires NoEdgeSpace(t)
    ensures NoEdgeSpace(Collapse(t))
  {
    if t != [] {
      CollapseLast(t);
    }
  }

  /** A string whose only whitespace is the plain space has no newline. */
  lemma {:induction false} PlainSpacesNoNewline(r: string)
    requires OnlyPlainSpaces(r)
    ensures '\n' !in r
  {
    assert IsSpace('\n');
  }

  lemma {:induction false} StripKeepsNonSpace(s: string)
    ensures NonSpace(Strip(s)) == NonSpace(s)
  {
    var t := TrimLeft(s);
    NonSpaceSkipsSpaces(s, |s| - |t|);
    NonSpaceDropsTrailingSpaces(t, |TrimRight(t)|);
  }

  /** Dropping a suffix made of whitespace does not change `NonSpace`. */
  lemma {:induction false} NonSpaceDropsTrailingSpaces(s: string, n: nat)
    requires n <= |s|
    requires forall k :: n <= k < |s| ==> IsSpace(s[k])
    ensures NonSpace(s) == NonSpace(s[..n])
    decreases n
  {
    if n > 0 {
      NonSpaceDropsTrailingSpaces(s[1..], n - 1);
      assert s[1..][..n - 1] == s[..n][1..];
    } else {
      NonSpaceAllSpaces(s);
    }
  }

  lemma {:induction false} NonSpaceAllSpaces(s: string)
    requires forall k :: 0 <= k < |s| ==> IsSpace(s[k])
    ensures NonSpace(s) == []
    decreases |s|
  {
    if s != [] {
      NonSpaceAllSpaces(s[1..]);
    }
  }

  /** A string that is already collapsed is left unchanged by `Collapse`. */
  lemma {:induction false} CollapseFixed(s: string)
    requires OnlyPlainSpaces(s) && NoAdjacentSpaces(s)
    ensures Collapse(s) == s
    decreases |s|
  {
    if s != [] {
      var t := s[1..];
      assert OnlyPlainSpaces(t) && NoAdjacentSpaces(t) by {
        assert forall k :: 0 <= k < |t| ==> t[k] == s[k + 1];
      }
      CollapseFixed(t);
      if IsSpace(s[0]) {
        assert t == [] || !IsSpace(t[0]);
        assert TrimLeft(t) == t;
        assert Collapse(s) == " " + t;
        assert s[0] == ' ';
      } else {
        assert Collapse(s) == [s[0]] + t;
      }
      assert s == [s[0]] + t;
    }
  }

  /** Normalising twice is the same as normalising once. */
  lemma {:induction false} NormalizeIdempotent(s: string)
    ensures Normalize(Normalize(s)) == Normalize(s)
  {
    var n := Normalize(s);
    assert TrimLeft(n) == n;
    assert TrimRight(n) == n;
    CollapseFixed(n);
  }

  /** Python's `s.split(sep)` for a one-character separator. */
  function Split(s: string, sep: char): (parts: seq<string>)
    ensures |parts| >= 1
    ensures forall i :: 0 <= i < |parts| ==> sep !in parts[i]
  {
    if s == [] then [[]]
    else
      var rest := Split(s[1..], sep);
      if s[0] == sep then [[]] + rest else [[s[0]] + rest[0]] + rest[1..]
  }

  /** Python's `sep.join(parts)`, the inverse of `Split`. */
  function Join(parts: seq<string>, sep: char): string
  {
    if parts == [] then []
    else if |parts| == 1 then parts[0]
    else parts[0] + [sep] + Join(parts[1..], sep)
  }

  /** Joining the pieces of a split gives back the original string. */
  lemma {:induction false} JoinSplit(s: string, sep: char)
    ensures Join(Split(s, sep), sep) == s
    decreases |s|
  {
    if s != [] {
      JoinSplit(s[1..], sep);
      var rest := Split(s[1..], sep);
      if s[0] != sep {
        if |rest| > 1 {
          assert ([[s[0]] + rest[0]] + rest[1..])[1..] == rest[1..];
        }
      }
    }
  }

  /** Splitting `p + sep + t`, where `p` has no separator, gives `p` and then the pieces of `t`. */
  lemma {:induction false} SplitCons(p: string, t: string, sep: char)
    requires sep !in p
    ensures Split(p + [sep] + t, sep) == [p] + Split(t, sep)
    decreases |p|
  {
    if p == [] {
      assert ([sep] + t)[1..] == t;
    } else {
      SplitCons(p[1..], t, sep);
      var s := p + [sep] + t;
      assert s[0] == p[0] != sep;
      assert s[1..] == p[1..] + [sep] + t;
      var rest := Split(s[1..], sep);
      assert rest[0] == p[1..] && rest[1..] == Split(t, sep);
      assert [p[0]] + p[1..] == p;
    }
  }

  /** A string without a separator splits into itself alone. */
  lemma {:induction false} SplitNoSep(s: string, sep: char)
    requires sep !in s
    ensures Split(s, sep) == [s]
    decreases |s|
  {
    if s != [] {
      SplitNoSep(s[1..], sep);
      assert s[0] != sep;
      var rest := Split(s[1..], sep);
      assert rest == [s[1..]] && rest[1..] == [];
      assert [s[0]] + s[1..] == s;
    }
  }

  /** Splitting the join of separator-free pieces gives back the pieces. */
  lemma {:induction false} SplitJoin(parts: seq<string>, sep: char)
    requires |parts| >= 1
    requires forall i :: 0 <= i < |parts| ==> sep !in parts[i]
    ensures Split(Join(parts, sep), sep) == parts
    decreases |parts|
  {
    if |parts| == 1 {
      SplitNoSep(parts[0], sep);
    } else {
      SplitJoin(parts[1..], sep);
      SplitCons(parts[0], Join(parts[1..], sep), sep);
      assert parts == [parts[0]] + parts[1..];
    }
  }

  /** The buffer the parsers build from lines with `buffer += line + '\n'`. */
  function Render(lines: seq<string>): string
  {
    if lines == [] then [] else lines[0] + "\n" + Render(lines[1..])
  }

  /** Appending one line to a rendered buffer. */
  lemma {:induction false} RenderSnoc(lines: seq<string>, line: string)
    ensures Render(lines + [line]) == Render(lines) + line + "\n"
    decreases |lines|
  {
    if lines == [] {
      assert [line][1..] == [];
    } else {
      RenderSnoc(lines[1..], line);
      assert (lines + [line])[1..] == lines[1..] + [line];
    }
  }

  /** A rendered buffer is the lines joined by newlines, plus the final newline. */
  lemma {:induction false} RenderIsJoin(lines: seq<string>)
    ensures Render(lines) == Join(lines + [""], '\n')
    decreases |lines|
  {
    if lines != [] {
      RenderIsJoin(lines[1..]);
      assert (lines + [""])[1..] == lines[1..] + [""];
    }
  }

  /**
   * Splitting a rendered buffer of newline-free lines gives those lines and
   * then one empty line, the piece after the last terminating newline.
   */
  lemma {:induction false} RenderSplit(lines: seq<string>)
    requires forall i :: 0 <= i < |lines| ==> '\n' !in lines[i]
    ensures Split(Render(lines), '\n') == lines + [""]
  {
    RenderIsJoin(lines);
    SplitJoin(lines + [""], '\n');
  }

  /** The buffer of one line. */
  lemma {:induction false} RenderSingle(line: string)
    ensures Render([line]) == line + "\n"
  {
    assert [line][1..] == [];
  }

  /** A rendered buffer is empty exactly when there are no lines. */
  lemma {:induction false} RenderEmpty(lines: seq<string>)
    ensures |Render(lines)| == 0 <==> lines == []
  {
  }

  /**
   * The lines `read_lines(strip)` yields for `text`: the pieces of
   * `text.split('\n')`, each stripped when `strip` is set.
   */
  function Lines(text: string, strip: bool): (lines: seq<string>)
    ensures |lines| == |Split(text, '\n')| >= 1
    ensures forall i :: 0 <= i < |lines| ==> '\n' !in lines[i]
    ensures strip ==> forall i :: 0 <= i < |lines| ==> NoEdgeSpace(lines[i])
  {
    var parts := Split(text, '\n');
    seq(|parts|, i requires 0 <= i < |parts| => LineAt(parts, i, strip))
  }

  /** The `i`-th line yielded: piece `i`, stripped when `strip` is set. */
  function LineAt(parts: seq<string>, i: nat, strip: bool): (line: string)
    requires i < |parts| && '\n' !in parts[i]
    ensures '\n' !in line
    ensures strip ==> NoEdgeSpace(line)
  {
    if strip then StripNoNewline(parts[i]); Strip(parts[i]) else parts[i]
  }

  /** Stripping never introduces a newline. */
  lemma {:induction false} StripNoNewline(s: string)
    requires '\n' !in s
    ensures '\n' !in Strip(s)
  {
    var i, j := StripInfix(s);
    assert forall k :: 0 <= k < j - i ==> Strip(s)[k] == s[i + k];
  }
}
