/**
 * The current engine of txtblocks/txtblocks.py: field extractors
 * (`TextElement`, `TextLine`), block definitions (`TextBlock`) and the
 * line-driven segmentation of `BlockParser`.
 *
 * Blocks are identified by their position in the parser's list of text
 * blocks; a parse outcome is either the value returned or the exception
 * raised (`Result`).
 */
module TxtBlocks {
  import opened Wrappers
  import opened Strings
  import opened Re
  import opened Seqs

  /** A `groupdict()`: group name to captured text (None: the group did not take part). */
  type Dict = map<string, Option<string>>

  /** The exception raised when a pattern has groups but none of them is named. */
  type Error = UnnamedGroupsError

  /** What `BlockParser.parse` returns: block name to the records found for it. */
  type Blocks = map<string, seq<Dict>>

  // ---------------------------------------------------------------------------
  // Field extractors
  // ---------------------------------------------------------------------------

  /**
   * A field extractor. `TextElement` runs `re.search` on the text, its
   * subclass `TextLine` runs the compiled pattern's `match`, anchored at
   * position 0.
   */
  datatype TextElement =
    | TextElement(name: string, pattern: Pattern)
    | TextLine(name: string, pattern: Pattern)

  /** The match an extractor works from: free search or anchored match. */
  function FirstMatch(e: TextElement, text: string): Option<Match>
  {
    match e
    case TextElement(_, p) => p.search(text)
    case TextLine(_, p) => p.matchStart(text)
  }

  /** The exception text of each kind of extractor. */
  function UnnamedMessage(e: TextElement): string
  {
    match e
    case TextElement(name, _) => "Some regexes in " + name + " have no name. Use ?P<myregexname>"
    case TextLine(name, _) => "Some patternes in " + name + " have no name. Use ?P<mypatternname>"
  }

  /**
   * `TextElement.parse` / `TextLine.parse`: the pair (groupdict, name) of the
   * first match, `({}, name)` without a match, and an exception when the
   * match has groups but no named group.
   */
  function ParseElement(e: TextElement, text: string): (r: Result<(Dict, string), Error>)
    ensures e.TextLine? ==> (FirstMatch(e, text) == e.pattern.matchStart(text))
    ensures e.TextElement? ==> (FirstMatch(e, text) == e.pattern.search(text))
    ensures FirstMatch(e, text).None? ==> r == Ok((map[], e.name))
    ensures r.Err? <==> FirstMatch(e, text).Some? && OnlyUnnamedGroups(FirstMatch(e, text).value)
    ensures r.Err? ==> r.error == UnnamedGroups(e.name, UnnamedMessage(e))
    ensures FirstMatch(e, text).Some? && r.Ok? ==> r.value == (FirstMatch(e, text).value.groupdict, e.name)
  {
    match FirstMatch(e, text)
    case None => Ok((map[], e.name))
    case Some(m) =>
      if m.groupCount > 0 && |m.groupdict| == 0 then Err(UnnamedGroups(e.name, UnnamedMessage(e)))
      else Ok((m.groupdict, e.name))
  }

  // ---------------------------------------------------------------------------
  // Text blocks
  // ---------------------------------------------------------------------------

  /**
   * A block definition as `TextBlock.__init__` stores it. An empty `endregex`
   * argument is kept as the empty string in the source, here as `None`.
   */
  datatype TextBlock = TextBlock(
    name: string,
    textelements: seq<TextElement>,
    startregex: Pattern,
    endregex: Option<Pattern>,
    oneliner: bool)

  /** `matches_start_pattern`: the start pattern matches at position 0 of `text`. */
  predicate MatchesStartPattern(b: TextBlock, text: string)
  {
    b.startregex.matchStart(text).Some?
  }

  /**
   * `matches_end_pattern`: the end pattern matches at position 0 of `text`.
   * Without an end pattern the source calls `.match` on a string and fails.
   */
  predicate MatchesEndPattern(b: TextBlock, text: string)
    requires b.endregex.Some?
  {
    b.endregex.value.matchStart(text).Some?
  }

  /**
   * The lines `TextBlock.parse` runs its extractors on: the buffer split on
   * `'\n'`, after the oneliner normalisation when that flag is set, in which
   * case there is exactly one line.
   */
  function BlockLines(b: TextBlock, text: string): (lines: seq<string>)
    ensures !b.oneliner ==> lines == Split(text, '\n')
    ensures b.oneliner ==> lines == [Normalize(text)]
  {
    if b.oneliner then
      SplitNoSep(Normalize(text), '\n');
      Split(Normalize(text), '\n')
    else
      Split(text, '\n')
  }

  /** One run of one extractor on one line. */
  datatype Probe = Probe(line: string, element: TextElement)

  /** The probes of one line, one per extractor, in extractor order. */
  function Row(line: string, es: seq<TextElement>): (r: seq<Probe>)
    ensures |r| == |es|
    ensures forall j :: 0 <= j < |es| ==> r[j] == Probe(line, es[j])
  {
    seq(|es|, j requires 0 <= j < |es| => Probe(line, es[j]))
  }

  /** All probes of a buffer: line-major, extractor-minor. */
  function Probes(lines: seq<string>, es: seq<TextElement>): seq<Probe>
    decreases |lines|
  {
    if lines == [] then []
    else Probes(lines[..|lines| - 1], es) + Row(lines[|lines| - 1], es)
  }

  function ProbeResult(p: Probe): Result<(Dict, string), Error>
  {
    ParseElement(p.element, p.line)
  }

  /** The groupdict a probe contributes, `{}` when it raises. */
  function ProbeDict(p: Probe): Dict
  {
    match ProbeResult(p)
    case Ok(res) => res.0
    case Err(_) => map[]
  }

  /**
   * The dictionary `TextBlock.parse` accumulates over a sequence of probes:
   * each non-empty groupdict is written over it, and the first exception
   * aborts.
   */
  function Merge(ps: seq<Probe>): Result<Dict, Error>
    decreases |ps|
  {
    if ps == [] then Ok(map[])
    else
      match Merge(ps[..|ps| - 1])
      case Err(e) => Err(e)
      case Ok(data) =>
        match ProbeResult(ps[|ps| - 1])
        case Err(e) => Err(e)
        case Ok(res) => Ok(if |res.0| > 0 then data + res.0 else data)
  }

  /** `TextBlock.parse`: the pair (block name, merged dictionary), or the exception raised. */
  function ParsedBlock(b: TextBlock, text: string): Result<(string, Dict), Error>
  {
    match Merge(Probes(BlockLines(b, text), b.textelements))
    case Err(e) => Err(e)
    case Ok(data) => Ok((b.name, data))
  }

  lemma {:induction false} MergeSnoc(ps: seq<Probe>, p: Probe)
    ensures Merge(ps + [p]) ==
      match Merge(ps)
      case Err(e) => Err(e)
      case Ok(data) =>
        match ProbeResult(p)
        case Err(e) => Err(e)
        case Ok(res) => Ok(if |res.0| > 0 then data + res.0 else data)
  {
    assert (ps + [p])[..|ps|] == ps;
  }

  lemma {:induction false} MergeSnocOk(ps: seq<Probe>, p: Probe, data: Dict, res: (Dict, string))
    requires Merge(ps) == Ok(data) && ProbeResult(p) == Ok(res)
    ensures Merge(ps + [p]) == Ok(if |res.0| > 0 then data + res.0 else data)
  {
    MergeSnoc(ps, p);
  }

  lemma {:induction false} MergeSnocErr(ps: seq<Probe>, p: Probe)
    requires Merge(ps).Ok? && ProbeResult(p).Err?
    ensures Merge(ps + [p]) == Err(ProbeResult(p).error)
  {
    MergeSnoc(ps, p);
  }

  /** Once a prefix of the probes raises, so does every extension, with the same exception. */
  lemma {:induction false} MergeErrPrefix(ps: seq<Probe>, qs: seq<Probe>)
    requires ps <= qs && Merge(ps).Err?
    ensures Merge(qs) == Merge(ps)
    decreases |qs|
  {
    if |qs| > |ps| {
      assert ps <= qs[..|qs| - 1];
      MergeErrPrefix(ps, qs[..|qs| - 1]);
    } else {
      assert ps == qs;
    }
  }

  /** One merge step that does not raise: the last probe's groupdict is written over the rest. */
  lemma {:induction false} MergeStepOk(ps: seq<Probe>)
    requires ps != [] && Merge(ps).Ok?
    ensures Merge(ps[..|ps| - 1]).Ok? && ProbeResult(ps[|ps| - 1]).Ok?
    ensures Merge(ps).value == Merge(ps[..|ps| - 1]).value + ProbeDict(ps[|ps| - 1])
  {
  }

  /** A merge that does not raise ran every probe without error. */
  lemma {:induction false} MergeOkAll(ps: seq<Probe>)
    requires Merge(ps).Ok?
    ensures forall i :: 0 <= i < |ps| ==> ProbeResult(ps[i]).Ok?
    decreases |ps|
  {
    if ps != [] {
      var n := |ps| - 1;
      MergeStepOk(ps);
      MergeOkAll(ps[..n]);
      assert forall i :: 0 <= i < n ==> ps[i] == ps[..n][i];
    }
  }

  /** The keys of the merged dictionary are exactly the group names of the probes' groupdicts. */
  lemma {:induction false} MergeKeys(ps: seq<Probe>)
    requires Merge(ps).Ok?
    ensures forall k :: k in Merge(ps).value <==> exists i :: 0 <= i < |ps| && k in ProbeDict(ps[i])
    decreases |ps|
  {
    if ps != [] {
      var n := |ps| - 1;
      var front := ps[..n];
      MergeStepOk(ps);
      MergeKeys(front);
      assert forall i :: 0 <= i < n ==> ps[i] == front[i];
      forall k | k in Merge(ps).value
        ensures exists i :: 0 <= i < |ps| && k in ProbeDict(ps[i])
      {
        if k !in ProbeDict(ps[n]) {
          var i :| 0 <= i < n && k in ProbeDict(front[i]);
          assert k in ProbeDict(ps[i]);
        }
      }
    }
  }

  /** Last write wins: each key of the merged dictionary holds the value of the last probe that produced it. */
  lemma {:induction false} MergeLastWins(ps: seq<Probe>, k: string, i: nat)
    requires Merge(ps).Ok?
    requires i < |ps| && k in ProbeDict(ps[i])
    requires forall j :: i < j < |ps| ==> k !in ProbeDict(ps[j])
    ensures k in Merge(ps).value && Merge(ps).value[k] == ProbeDict(ps[i])[k]
    decreases |ps|
  {
    var n := |ps| - 1;
    var front := ps[..n];
    MergeStepOk(ps);
    if i < n {
      AbsentAfterFront(ps, front, k, i);
      assert front[i] == ps[i];
      MergeLastWins(front, k, i);
      OverrideKeeps(Merge(front).value, ProbeDict(ps[n]), k);
    }
  }

  /** A key absent after probe `i` stays absent after it in `front`, the probes before the last, and in the last. */
  lemma {:induction false} AbsentAfterFront(ps: seq<Probe>, front: seq<Probe>, k: string, i: nat)
    requires i < |ps| - 1 && front == ps[..|ps| - 1]
    requires forall j :: i < j < |ps| ==> k !in ProbeDict(ps[j])
    ensures forall j :: i < j < |front| ==> k !in ProbeDict(front[j])
    ensures k !in ProbeDict(ps[|ps| - 1])
  {
    forall j | i < j < |front| ensures k !in ProbeDict(front[j]) {
      assert front[j] == ps[j];
    }
  }

  /** Writing a dictionary without `k` over `data` keeps `data`'s value of `k`. */
  lemma {:induction false} OverrideKeeps(data: Dict, m: Dict, k: string)
    requires k in data && k !in m
    ensures k in data + m && (data + m)[k] == data[k]
  {
  }

  /** A raising merge carries the exception of the first probe that raises. */
  lemma {:induction false} MergeFirstErr(ps: seq<Probe>)
    requires Merge(ps).Err?
    ensures exists i :: 0 <= i < |ps| && ProbeResult(ps[i]) == Err(Merge(ps).error)
                        && forall j :: 0 <= j < i ==> ProbeResult(ps[j]).Ok?
    decreases |ps|
  {
    var n := |ps| - 1;
    var front := ps[..n];
    if Merge(front).Err? {
      MergeFirstErr(front);
      var i :| 0 <= i < n && ProbeResult(front[i]) == Err(Merge(front).error)
               && forall j :: 0 <= j < i ==> ProbeResult(front[j]).Ok?;
      assert front[i] == ps[i];
      forall j | 0 <= j < i ensures ProbeResult(ps[j]).Ok? {
        assert front[j] == ps[j];
      }
    } else {
      MergeOkAll(front);
      forall j | 0 <= j < n ensures ProbeResult(ps[j]).Ok? {
        assert front[j] == ps[j];
      }
    }
  }

  /** The merge raises exactly when some probe raises. */
  lemma {:induction false} MergeErr(ps: seq<Probe>)
    ensures Merge(ps).Err? <==> exists i :: 0 <= i < |ps| && ProbeResult(ps[i]).Err?
  {
    if Merge(ps).Err? {
      MergeFirstErr(ps);
    } else {
      MergeOkAll(ps);
    }
  }

  lemma {:induction false} ProbesNoElements(lines: seq<string>)
    ensures Probes(lines, []) == []
    decreases |lines|
  {
    if lines != [] {
      ProbesNoElements(lines[..|lines| - 1]);
    }
  }

  /** `TextBlock.parse` always names its result after the block itself. */
  lemma {:induction false} ParsedBlockName(b: TextBlock, text: string)
    ensures ParsedBlock(b, text).Ok? ==> ParsedBlock(b, text).value.0 == b.name
  {
  }

  /** A block without extractors parses every buffer to `(name, {})`. */
  lemma {:induction false} ParsedBlockNoElements(b: TextBlock, text: string)
    requires b.textelements == []
    ensures ParsedBlock(b, text) == Ok((b.name, map[]))
  {
    ProbesNoElements(BlockLines(b, text));
  }

  /** Every probe runs without error and finds no named group. */
  predicate NothingMatches(ps: seq<Probe>)
  {
    forall i :: 0 <= i < |ps| ==> ProbeResult(ps[i]).Ok? && ProbeDict(ps[i]) == map[]
  }

  /** Probes that all return an empty groupdict merge to the empty dictionary. */
  lemma {:induction false} MergeAllEmpty(ps: seq<Probe>)
    requires NothingMatches(ps)
    ensures Merge(ps) == Ok(map[])
    decreases |ps|
  {
    if ps != [] {
      var n := |ps| - 1;
      assert forall i :: 0 <= i < n ==> ps[..n][i] == ps[i];
      MergeAllEmpty(ps[..n]);
    }
  }

  /** When no extractor matches anything (and none raises), the dictionary is empty. */
  lemma {:induction false} ParsedBlockNoMatches(b: TextBlock, text: string)
    requires NothingMatches(Probes(BlockLines(b, text), b.textelements))
    ensures ParsedBlock(b, text) == Ok((b.name, map[]))
  {
    MergeAllEmpty(Probes(BlockLines(b, text), b.textelements));
  }

  /** With the oneliner flag the extractors see exactly one line, free of newlines. */
  lemma {:induction false} OnelinerSingleLine(b: TextBlock, text: string)
    requires b.oneliner
    ensures |BlockLines(b, text)| == 1 && '\n' !in BlockLines(b, text)[0]
  {
  }

  /** Prefixes of a buffer's lines give prefixes of its probes. */
  lemma {:induction false} ProbesPrefix(lines: seq<string>, es: seq<TextElement>, i: nat)
    requires i <= |lines|
    ensures Probes(lines[..i], es) <= Probes(lines, es)
    decreases |lines|
  {
    if i < |lines| {
      var front := lines[..|lines| - 1];
      assert front[..i] == lines[..i];
      ProbesPrefix(front, es, i);
    } else {
      assert lines[..i] == lines;
    }
  }

  /** The probes of a buffer one line longer. */
  lemma {:induction false} ProbesSnoc(lines: seq<string>, es: seq<TextElement>, i: nat)
    requires i < |lines|
    ensures Probes(lines[..i + 1], es) == Probes(lines[..i], es) + Row(lines[i], es)
  {
    var upto := lines[..i + 1];
    assert upto[..i] == lines[..i] && upto[i] == lines[i];
  }

  /** The probes run up to extractor `j` of line `i` are a prefix of all probes. */
  lemma {:induction false} ProbesRowPrefix(lines: seq<string>, es: seq<TextElement>, i: nat, j: nat)
    requires i < |lines| && j < |es|
    ensures Probes(lines[..i], es) + Row(lines[i], es[..j + 1]) <= Probes(lines, es)
  {
    var done := Probes(lines[..i], es);
    var row := Row(lines[i], es);
    assert Row(lines[i], es[..j + 1]) == row[..j + 1];
    PrefixAppend(done, row, j + 1);
    ProbesSnoc(lines, es, i);
    ProbesPrefix(lines, es, i + 1);
    PrefixTrans(done + row[..j + 1], done + row, Probes(lines, es));
  }

  /** `for e in match: data[e] = match[e]`: the update of `data` by `m`. */
  method MergeInto(data: Dict, m: Dict) returns (r: Dict)
    ensures r == data + m
    ensures r.Keys == data.Keys + m.Keys
    ensures forall k :: k in m ==> r[k] == m[k]
    ensures forall k :: k in data && k !in m ==> r[k] == data[k]
  {
    r := data;
    var todo := m.Keys;
    while todo != {}
      invariant todo <= m.Keys
      invariant r.Keys == data.Keys + (m.Keys - todo)
      invariant forall k :: k in m && k !in todo ==> r[k] == m[k]
      invariant forall k :: k in data && k !in m ==> r[k] == data[k]
      invariant forall k :: k in data && k in todo ==> r[k] == data[k]
      decreases todo
    {
      var e :| e in todo;
      r := r[e := m[e]];
      todo := todo - {e};
    }
    assert r == data + m;
  }

  /** Running one more extractor on the current line. */
  lemma {:induction false} RowSnoc(done: seq<Probe>, line: string, es: seq<TextElement>, j: nat)
    requires j < |es|
    ensures done + Row(line, es[..j + 1]) == (done + Row(line, es[..j])) + [Probe(line, es[j])]
  {
    assert Row(line, es[..j + 1]) == Row(line, es[..j]) + [Probe(line, es[j])];
  }

  /** `TextBlock.parse`, as the nested loop over lines and extractors. */
  method ParseBlock(b: TextBlock, text: string) returns (r: Result<(string, Dict), Error>)
    ensures r == ParsedBlock(b, text)
  {
    var data: Dict := map[];
    var t := text;
    if b.oneliner {
      t := Normalize(t);
    }
    var lines := Split(t, '\n');
    var es := b.textelements;
    var i := 0;
    while i < |lines|
      invariant 0 <= i <= |lines|
      invariant Merge(Probes(lines[..i], es)) == Ok(data)
    {
      ghost var done := Probes(lines[..i], es);
      assert es[..0] == [];
      assert done + Row(lines[i], []) == done;
      var j := 0;
      assert Merge(done + Row(lines[i], es[..j])) == Ok(data);
      while j < |es|
        invariant 0 <= j <= |es|
        invariant Merge(done + Row(lines[i], es[..j])) == Ok(data)
      {
        ghost var before := done + Row(lines[i], es[..j]);
        ghost var p := Probe(lines[i], es[j]);
        RowSnoc(done, lines[i], es, j);
        var res := ParseElement(es[j], lines[i]);
        assert res == ProbeResult(p);
        if res.Err? {
          MergeSnocErr(before, p);
          ProbesRowPrefix(lines, es, i, j);
          MergeErrPrefix(before + [p], Probes(lines, es));
          assert lines[..|lines|] == lines;
          return Err(res.error);
        }
        var m := res.value.0;
        MergeSnocOk(before, p, data, res.value);
        if |m| > 0 {
          data := MergeInto(data, m);
        }
        j := j + 1;
        assert Merge(done + Row(lines[i], es[..j])) == Ok(data);
      }
      assert es[..|es|] == es;
      ProbesSnoc(lines, es, i);
      i := i + 1;
    }
    assert lines[..|lines|] == lines;
    return Ok((b.name, data));
  }

  // ---------------------------------------------------------------------------
  // Block parser
  // ---------------------------------------------------------------------------

  /**
   * `BlockParser.find_textblock`: the position of the first block, in list
   * order, whose start pattern matches `line`, and None when no block does.
   */
  function StartingBlock(bs: seq<TextBlock>, line: string): (r: Option<nat>)
    ensures r.Some? ==> r.value < |bs| && MatchesStartPattern(bs[r.value], line)
    ensures r.Some? ==> forall j :: 0 <= j < r.value ==> !MatchesStartPattern(bs[j], line)
    ensures r.None? <==> forall j :: 0 <= j < |bs| ==> !MatchesStartPattern(bs[j], line)
  {
    if bs == [] then None
    else if MatchesStartPattern(bs[0], line) then Some(0)
    else
      match StartingBlock(bs[1..], line)
      case None => None
      case Some(k) => Some(k + 1)
  }

  /** The lines of one occurrence of a block, starting with the line that opened it. */
  datatype Segment = Segment(block: nat, lines: seq<string>)

  predicate ValidSegments(bs: seq<TextBlock>, segs: seq<Segment>)
  {
    forall i :: 0 <= i < |segs| ==> segs[i].block < |bs| && segs[i].lines != []
  }

  /**
   * How `BlockParser.parse` cuts its input lines into block occurrences: a
   * start line (of any block) opens a new occurrence of the first block it
   * matches, any other line extends the open occurrence, and lines before the
   * first start line are dropped.
   */
  function Segments(bs: seq<TextBlock>, ls: seq<string>): (segs: seq<Segment>)
    ensures ValidSegments(bs, segs)
    decreases |ls|
  {
    if ls == [] then [] else Feed(bs, Segments(bs, ls[..|ls| - 1]), ls[|ls| - 1])
  }

  /** The occurrences after one more line is read. */
  function Feed(bs: seq<TextBlock>, prev: seq<Segment>, line: string): (segs: seq<Segment>)
    requires ValidSegments(bs, prev)
    ensures ValidSegments(bs, segs)
    ensures segs == [] <==> prev == [] && StartingBlock(bs, line).None?
    ensures StartingBlock(bs, line).Some? ==>
      Closed(segs) == prev && segs[|segs| - 1] == Segment(StartingBlock(bs, line).value, [line])
    ensures StartingBlock(bs, line).None? && prev != [] ==>
      && Closed(segs) == Closed(prev)
      && segs[|segs| - 1].block == prev[|prev| - 1].block
      && segs[|segs| - 1].lines == prev[|prev| - 1].lines + [line]
  {
    match StartingBlock(bs, line)
    case Some(k) => prev + [Segment(k, [line])]
    case None =>
      if prev == [] then []
      else
        var open := prev[|prev| - 1];
        prev[..|prev| - 1] + [Segment(open.block, open.lines + [line])]
  }

  /** The occurrences already handed to `TextBlock.parse`: all but the open one. */
  function Closed(segs: seq<Segment>): (r: seq<Segment>)
    ensures r <= segs && |r| == if segs == [] then 0 else |segs| - 1
  {
    if segs == [] then [] else segs[..|segs| - 1]
  }

  /** The records list of `name` (empty when there is none yet). */
  function Get(blocks: Blocks, name: string): seq<Dict>
  {
    if name in blocks then blocks[name] else []
  }

  /**
   * Saving the dictionary an occurrence produced: a non-empty one is appended
   * to the list of `name`, which is created if needed; an empty one is dropped.
   */
  function Store(blocks: Blocks, name: string, d: Dict): (r: Blocks)
    ensures Get(r, name) == Get(blocks, name) + Records(d)
    ensures forall n :: n != name ==> Get(r, n) == Get(blocks, n)
  {
    if |d| > 0 then blocks[name := Get(blocks, name) + [d]] else blocks
  }

  /** Saving creates the key of `name` exactly when the dictionary is non-empty. */
  lemma {:induction false} StoreKeys(blocks: Blocks, name: string, d: Dict)
    ensures forall n :: n in Store(blocks, name, d) <==> n in blocks || (n == name && d != map[])
  {
    if d == map[] {
      assert |d| == 0;
    }
  }

  /** Every list is non-empty and holds only non-empty records. */
  predicate WellShaped(blocks: Blocks)
  {
    forall n :: n in blocks ==> blocks[n] != [] && forall k :: 0 <= k < |blocks[n]| ==> blocks[n][k] != map[]
  }

  /**
   * The result of finalising the occurrences in order: each buffer is parsed
   * by its block, a non-empty dictionary is appended to the list of the
   * block's name, and the first exception aborts.
   */
  function Collect(bs: seq<TextBlock>, segs: seq<Segment>): (r: Result<Blocks, Error>)
    requires ValidSegments(bs, segs)
    decreases |segs|
  {
    if segs == [] then Ok(map[])
    else
      assert ValidSegments(bs, segs[..|segs| - 1]);
      match Collect(bs, segs[..|segs| - 1])
      case Err(e) => Err(e)
      case Ok(blocks) => Finalise(bs[segs[|segs| - 1].block], Render(segs[|segs| - 1].lines), blocks)
  }

  /**
   * Finalising one occurrence of `b`: its buffer is parsed and a non-empty
   * dictionary is appended to the list of the block's name.
   */
  function Finalise(b: TextBlock, text: string, blocks: Blocks): (r: Result<Blocks, Error>)
    ensures r.Err? <==> ParsedBlock(b, text).Err?
    ensures r.Ok? ==> forall n :: n != b.name ==> Get(r.value, n) == Get(blocks, n)
    ensures r.Ok? ==> Get(r.value, b.name) == Get(blocks, b.name) + Records(ParsedBlock(b, text).value.1)
  {
    match ParsedBlock(b, text)
    case Err(e) => Err(e)
    case Ok(res) => Ok(Store(blocks, b.name, res.1))
  }

  /** The records one dictionary contributes: none when it is empty. */
  function Records(d: Dict): seq<Dict>
  {
    if d == map[] then [] else [d]
  }

  /** What `BlockParser.parse` returns for the lines read from its input. */
  function ParseLines(bs: seq<TextBlock>, ls: seq<string>): Result<Blocks, Error>
  {
    Collect(bs, Segments(bs, ls))
  }

  /** What `BlockParser.parse(text)` returns. */
  function ParseText(bs: seq<TextBlock>, text: string): Result<Blocks, Error>
  {
    ParseLines(bs, Lines(text, true))
  }

  // ---------------------------------------------------------------------------
  // Properties of the segmentation
  // ---------------------------------------------------------------------------

  /** All the lines of the occurrences, in order. */
  function Flatten(segs: seq<Segment>): seq<string>
    decreases |segs|
  {
    if segs == [] then [] else Flatten(segs[..|segs| - 1]) + segs[|segs| - 1].lines
  }

  lemma {:induction false} FlattenSnoc(segs: seq<Segment>, s: Segment)
    ensures Flatten(segs + [s]) == Flatten(segs) + s.lines
  {
    assert (segs + [s])[..|segs|] == segs;
  }

  /** One more input line, as `Segments` handles it. */
  lemma {:induction false} SegmentsSnoc(bs: seq<TextBlock>, ls: seq<string>, line: string)
    ensures Segments(bs, ls + [line]) == Feed(bs, Segments(bs, ls), line)
  {
    assert (ls + [line])[..|ls|] == ls;
  }

  /**
   * An occurrence starts with a line whose first matching block is the
   * occurrence's block, and none of its other lines matches any start pattern.
   */
  predicate WellFormedSegment(bs: seq<TextBlock>, s: Segment)
  {
    && s.lines != []
    && StartingBlock(bs, s.lines[0]) == Some(s.block)
    && forall j :: 1 <= j < |s.lines| ==> StartingBlock(bs, s.lines[j]).None?
  }

  /**
   * `segs` cuts `ls` as `BlockParser.parse` does: the lines before the first
   * start line are dropped, and the occurrences, laid end to end, are
   * exactly the remaining lines, each occurrence running from its start line
   * up to, not including, the next start line or to the end of the input.
   */
  predicate Partitioned(bs: seq<TextBlock>, ls: seq<string>, segs: seq<Segment>)
  {
    Covers(bs, ls, Flatten(segs)) && AllWellFormed(bs, segs)
  }

  /** `f` is a suffix of `ls`, and no line before it starts a block. */
  predicate Covers(bs: seq<TextBlock>, ls: seq<string>, f: seq<string>)
  {
    && |f| <= |ls|
    && ls[|ls| - |f|..] == f
    && (forall i :: 0 <= i < |ls| - |f| ==> StartingBlock(bs, ls[i]).None?)
  }

  predicate AllWellFormed(bs: seq<TextBlock>, segs: seq<Segment>)
  {
    forall i :: 0 <= i < |segs| ==> WellFormedSegment(bs, segs[i])
  }

  lemma {:induction false} CoversSnoc(bs: seq<TextBlock>, front: seq<string>, line: string, f: seq<string>)
    requires Covers(bs, front, f)
    ensures Covers(bs, front + [line], f + [line])
  {
    var ls := front + [line];
    assert ls[|front| - |f|..] == front[|front| - |f|..] + [line];
    assert forall i :: 0 <= i < |front| - |f| ==> ls[i] == front[i];
  }

  lemma {:induction false} CoversSkip(bs: seq<TextBlock>, front: seq<string>, line: string)
    requires Covers(bs, front, [])
    requires StartingBlock(bs, line).None?
    ensures Covers(bs, front + [line], [])
  {
    var ls := front + [line];
    assert forall i :: 0 <= i < |front| ==> ls[i] == front[i];
  }

  lemma {:induction false} AllWellFormedSnoc(bs: seq<TextBlock>, segs: seq<Segment>, s: Segment)
    requires AllWellFormed(bs, segs) && WellFormedSegment(bs, s)
    ensures AllWellFormed(bs, segs + [s])
  {
    var all := segs + [s];
    forall i | 0 <= i < |all| ensures WellFormedSegment(bs, all[i]) {
      if i < |segs| {
        assert all[i] == segs[i];
      }
    }
  }

  lemma {:induction false} AllWellFormedFront(bs: seq<TextBlock>, segs: seq<Segment>, s: Segment)
    requires AllWellFormed(bs, segs + [s])
    ensures AllWellFormed(bs, segs) && WellFormedSegment(bs, s)
  {
    var all := segs + [s];
    assert all[|segs|] == s;
    forall i | 0 <= i < |segs| ensures WellFormedSegment(bs, segs[i]) {
      assert all[i] == segs[i];
    }
  }

  lemma {:induction false} PartitionedStart(bs: seq<TextBlock>, front: seq<string>, line: string, prev: seq<Segment>, k: nat)
    requires Partitioned(bs, front, prev)
    requires StartingBlock(bs, line) == Some(k)
    ensures Partitioned(bs, front + [line], prev + [Segment(k, [line])])
  {
    FlattenSnoc(prev, Segment(k, [line]));
    CoversSnoc(bs, front, line, Flatten(prev));
    AllWellFormedSnoc(bs, prev, Segment(k, [line]));
  }

  lemma {:induction false} PartitionedSkip(bs: seq<TextBlock>, front: seq<string>, line: string)
    requires Partitioned(bs, front, [])
    requires StartingBlock(bs, line).None?
    ensures Partitioned(bs, front + [line], [])
  {
    CoversSkip(bs, front, line);
  }

  lemma {:induction false} PartitionedExtend(bs: seq<TextBlock>, front: seq<string>, line: string, closed: seq<Segment>, open: Segment)
    requires Partitioned(bs, front, closed + [open])
    requires StartingBlock(bs, line).None?
    ensures Partitioned(bs, front + [line], closed + [Segment(open.block, open.lines + [line])])
  {
    var ext := Segment(open.block, open.lines + [line]);
    FlattenSnoc(closed, ext);
    FlattenSnoc(closed, open);
    assert Flatten(closed + [ext]) == Flatten(closed + [open]) + [line];
    CoversSnoc(bs, front, line, Flatten(closed + [open]));
    AllWellFormedFront(bs, closed, open);
    WellFormedExtend(bs, open, line);
    AllWellFormedSnoc(bs, closed, ext);
  }

  lemma {:induction false} WellFormedExtend(bs: seq<TextBlock>, open: Segment, line: string)
    requires WellFormedSegment(bs, open)
    requires StartingBlock(bs, line).None?
    ensures WellFormedSegment(bs, Segment(open.block, open.lines + [line]))
  {
    var ext := Segment(open.block, open.lines + [line]);
    forall j | 1 <= j < |ext.lines|
      ensures StartingBlock(bs, ext.lines[j]).None?
    {
      if j < |open.lines| {
        assert ext.lines[j] == open.lines[j];
      }
    }
  }

  /** `Segments` partitions its input as described by `Partitioned`. */
  lemma {:induction false} SegmentsPartition(bs: seq<TextBlock>, ls: seq<string>)
    ensures Partitioned(bs, ls, Segments(bs, ls))
    decreases |ls|
  {
    if ls != [] {
      var n := |ls| - 1;
      var front := ls[..n];
      var line := ls[n];
      assert ls == front + [line];
      SegmentsPartition(bs, front);
      PartitionedFeed(bs, front, line, Segments(bs, front));
    }
  }

  lemma {:induction false} PartitionedFeed(bs: seq<TextBlock>, front: seq<string>, line: string, prev: seq<Segment>)
    requires ValidSegments(bs, prev) && Partitioned(bs, front, prev)
    ensures Partitioned(bs, front + [line], Feed(bs, prev, line))
  {
    match StartingBlock(bs, line)
    case Some(k) =>
      PartitionedStart(bs, front, line, prev, k);
    case None =>
      if prev == [] {
        PartitionedSkip(bs, front, line);
      } else {
        var m := |prev| - 1;
        assert prev == prev[..m] + [prev[m]];
        PartitionedExtend(bs, front, line, prev[..m], prev[m]);
      }
  }

  /** How many lines of `ls` open an occurrence of a block named `name`. */
  function Openers(bs: seq<TextBlock>, ls: seq<string>, name: string): nat
    decreases |ls|
  {
    if ls == [] then 0 else Openers(bs, ls[..|ls| - 1], name) + Opens(bs, ls[|ls| - 1], name)
  }

  /** Whether `line` opens an occurrence of a block named `name`, as 1 or 0. */
  function Opens(bs: seq<TextBlock>, line: string, name: string): nat
  {
    match StartingBlock(bs, line)
    case Some(k) => if bs[k].name == name then 1 else 0
    case None => 0
  }

  /** How many of the occurrences are of a block named `name`. */
  function SegmentsNamed(bs: seq<TextBlock>, segs: seq<Segment>, name: string): nat
    requires ValidSegments(bs, segs)
    decreases |segs|
  {
    if segs == [] then 0
    else
      assert ValidSegments(bs, segs[..|segs| - 1]);
      SegmentsNamed(bs, segs[..|segs| - 1], name) + if bs[segs[|segs| - 1].block].name == name then 1 else 0
  }

  lemma {:induction false} SegmentsNamedSnoc(bs: seq<TextBlock>, segs: seq<Segment>, s: Segment, name: string)
    requires ValidSegments(bs, segs + [s])
    ensures s.block < |bs|
    ensures ValidSegments(bs, segs)
    ensures SegmentsNamed(bs, segs + [s], name) == SegmentsNamed(bs, segs, name) + if bs[s.block].name == name then 1 else 0
  {
    assert (segs + [s])[|segs|] == s;
    assert (segs + [s])[..|segs|] == segs;
    assert forall i :: 0 <= i < |segs| ==> (segs + [s])[i] == segs[i];
  }

  /** Every start line opens exactly one occurrence. */
  lemma {:induction false} SegmentsCount(bs: seq<TextBlock>, ls: seq<string>, name: string)
    ensures SegmentsNamed(bs, Segments(bs, ls), name) == Openers(bs, ls, name)
    decreases |ls|
  {
    if ls != [] {
      var n := |ls| - 1;
      var front := ls[..n];
      var line := ls[n];
      assert ls == front + [line];
      SegmentsCount(bs, front, name);
      FeedNamed(bs, Segments(bs, front), line, name);
    }
  }

  lemma {:induction false} FeedNamed(bs: seq<TextBlock>, prev: seq<Segment>, line: string, name: string)
    requires ValidSegments(bs, prev)
    ensures SegmentsNamed(bs, Feed(bs, prev, line), name) == SegmentsNamed(bs, prev, name) + Opens(bs, line, name)
  {
    match StartingBlock(bs, line)
    case Some(k) =>
      SegmentsNamedSnoc(bs, prev, Segment(k, [line]), name);
    case None =>
      if prev != [] {
        var m := |prev| - 1;
        var open := prev[m];
        assert prev == prev[..m] + [open];
        SegmentsNamedSnoc(bs, prev[..m], open, name);
        SegmentsNamedSnoc(bs, prev[..m], Segment(open.block, open.lines + [line]), name);
      }
  }

  /**
   * Reading more lines only extends the segmentation: the occurrences closed
   * so far stay as they are, and once a block is open some block stays open.
   */
  lemma {:induction false} SegmentsStable(bs: seq<TextBlock>, ls: seq<string>, i: nat)
    requires i <= |ls|
    ensures |Segments(bs, ls[..i])| <= |Segments(bs, ls)|
    ensures Closed(Segments(bs, ls[..i])) <= Segments(bs, ls)
    ensures Segments(bs, ls[..i]) != [] ==> Segments(bs, ls) != []
    decreases |ls|
  {
    if i == |ls| {
      assert ls[..i] == ls;
    } else {
      var n := |ls| - 1;
      var front := ls[..n];
      assert ls == front + [ls[n]];
      assert front[..i] == ls[..i];
      SegmentsStable(bs, front, i);
      SegmentsSnoc(bs, front, ls[n]);
      var prev := Segments(bs, front);
      var c := Closed(Segments(bs, ls[..i]));
      if StartingBlock(bs, ls[n]).None? && prev != [] {
        var m := |prev| - 1;
        assert |c| <= m;
        assert c <= prev[..m];
      }
    }
  }

  /** Input in which no line matches a start pattern yields no occurrence. */
  lemma {:induction false} SegmentsNoStart(bs: seq<TextBlock>, ls: seq<string>)
    requires forall i :: 0 <= i < |ls| ==> StartingBlock(bs, ls[i]).None?
    ensures Segments(bs, ls) == []
    decreases |ls|
  {
    if ls != [] {
      var n := |ls| - 1;
      assert ls == ls[..n] + [ls[n]];
      assert forall i :: 0 <= i < n ==> ls[..n][i] == ls[i];
      SegmentsNoStart(bs, ls[..n]);
      SegmentsSnoc(bs, ls[..n], ls[n]);
    }
  }

  /** Lines that match no start pattern, seen before any block opens, are dropped. */
  lemma {:induction false} SegmentsIgnoreLeading(bs: seq<TextBlock>, pre: seq<string>, ls: seq<string>)
    requires forall i :: 0 <= i < |pre| ==> StartingBlock(bs, pre[i]).None?
    ensures Segments(bs, pre + ls) == Segments(bs, ls)
    decreases |ls|
  {
    if ls == [] {
      assert pre + ls == pre;
      SegmentsNoStart(bs, pre);
    } else {
      var n := |ls| - 1;
      assert pre + ls == (pre + ls[..n]) + [ls[n]];
      assert ls == ls[..n] + [ls[n]];
      SegmentsIgnoreLeading(bs, pre, ls[..n]);
      SegmentsSnoc(bs, pre + ls[..n], ls[n]);
      SegmentsSnoc(bs, ls[..n], ls[n]);
    }
  }

  /** The buffer of an occurrence splits back into its lines, then one empty line. */
  lemma {:induction false} SegmentBuffer(bs: seq<TextBlock>, ls: seq<string>, i: nat)
    requires forall k :: 0 <= k < |ls| ==> '\n' !in ls[k]
    requires i < |Segments(bs, ls)|
    ensures Split(Render(Segments(bs, ls)[i].lines), '\n') == Segments(bs, ls)[i].lines + [""]
  {
    var segs := Segments(bs, ls);
    SegmentsPartition(bs, ls);
    var f := Flatten(segs);
    var lines := segs[i].lines;
    assert forall k :: 0 <= k < |f| ==> f[k] == ls[|ls| - |f| + k];
    FlattenHas(segs, i);
    assert forall k :: 0 <= k < |lines| ==> '\n' !in lines[k];
    RenderSplit(lines);
  }

  /** The lines of each occurrence appear in the flattened lines. */
  lemma {:induction false} FlattenHas(segs: seq<Segment>, i: nat)
    requires i < |segs|
    ensures forall k :: 0 <= k < |segs[i].lines| ==> segs[i].lines[k] in Flatten(segs)
    decreases |segs|
  {
    var n := |segs| - 1;
    assert segs == segs[..n] + [segs[n]];
    FlattenSnoc(segs[..n], segs[n]);
    if i < n {
      FlattenHas(segs[..n], i);
      assert segs[..n][i] == segs[i];
    }
  }

  // ---------------------------------------------------------------------------
  // Properties of the collected records
  // ---------------------------------------------------------------------------

  lemma {:induction false} CollectSnoc(bs: seq<TextBlock>, segs: seq<Segment>, s: Segment)
    requires ValidSegments(bs, segs + [s])
    ensures ValidSegments(bs, segs) && s.block < |bs|
    ensures Collect(bs, segs + [s]) ==
      match Collect(bs, segs)
      case Err(e) => Err(e)
      case Ok(blocks) => Finalise(bs[s.block], Render(s.lines), blocks)
  {
    assert (segs + [s])[..|segs|] == segs;
    assert (segs + [s])[|segs|] == s;
  }

  lemma {:induction false} FinaliseShape(b: TextBlock, text: string, blocks: Blocks)
    requires WellShaped(blocks)
    ensures Finalise(b, text, blocks).Ok? ==> WellShaped(Finalise(b, text, blocks).value)
  {
    var r := Finalise(b, text, blocks);
    if r.Ok? {
      StoreKeys(blocks, b.name, ParsedBlock(b, text).value.1);
      forall n | n in r.value
        ensures r.value[n] != [] && forall k :: 0 <= k < |r.value[n]| ==> r.value[n][k] != map[]
      {
        assert Get(r.value, n) == r.value[n];
        if n != b.name {
          assert n in blocks;
        }
      }
    }
  }

  /** Only names that have a record appear, and no record is empty. */
  lemma {:induction false} CollectShape(bs: seq<TextBlock>, segs: seq<Segment>)
    requires ValidSegments(bs, segs)
    ensures Collect(bs, segs).Ok? ==> WellShaped(Collect(bs, segs).value)
    decreases |segs|
  {
    if segs != [] {
      var n := |segs| - 1;
      assert segs == segs[..n] + [segs[n]];
      CollectSnoc(bs, segs[..n], segs[n]);
      CollectShape(bs, segs[..n]);
      var prev := Collect(bs, segs[..n]);
      if prev.Ok? {
        FinaliseShape(bs[segs[n].block], Render(segs[n].lines), prev.value);
      }
    }
  }

  /** Every key of the result is the name of some occurrence's block. */
  lemma {:induction false} CollectKeys(bs: seq<TextBlock>, segs: seq<Segment>)
    requires ValidSegments(bs, segs)
    ensures Collect(bs, segs).Ok? ==>
      forall n :: n in Collect(bs, segs).value ==> exists i :: 0 <= i < |segs| && bs[segs[i].block].name == n
    decreases |segs|
  {
    if segs != [] {
      var n := |segs| - 1;
      assert segs == segs[..n] + [segs[n]];
      CollectSnoc(bs, segs[..n], segs[n]);
      CollectKeys(bs, segs[..n]);
      var prev := Collect(bs, segs[..n]);
      var r := Collect(bs, segs);
      if r.Ok? {
        assert prev.Ok?;
        StoreKeys(prev.value, bs[segs[n].block].name, ParsedBlock(bs[segs[n].block], Render(segs[n].lines)).value.1);
        forall name | name in r.value
          ensures exists i :: 0 <= i < |segs| && bs[segs[i].block].name == name
        {
          if name in prev.value {
            var i :| 0 <= i < n && bs[segs[..n][i].block].name == name;
            assert segs[..n][i] == segs[i];
          } else {
            assert bs[segs[n].block].name == name;
          }
        }
      }
    }
  }

  /** An exception ends the parse: later occurrences are not looked at. */
  lemma {:induction false} CollectErrPrefix(bs: seq<TextBlock>, a: seq<Segment>, b: seq<Segment>)
    requires ValidSegments(bs, b) && ValidSegments(bs, a) && a <= b
    requires Collect(bs, a).Err?
    ensures Collect(bs, b) == Collect(bs, a)
    decreases |b|
  {
    if |b| > |a| {
      var n := |b| - 1;
      assert b == b[..n] + [b[n]];
      assert a <= b[..n];
      CollectSnoc(bs, b[..n], b[n]);
      CollectErrPrefix(bs, a, b[..n]);
    } else {
      assert a == b;
    }
  }

  /**
   * Records are kept in input order: parsing `a` then `c` gives, for every
   * name, the records of `a` followed by those of `c`.
   */
  lemma {:induction false} CollectConcat(bs: seq<TextBlock>, a: seq<Segment>, c: seq<Segment>)
    requires ValidSegments(bs, a) && ValidSegments(bs, c) && ValidSegments(bs, a + c)
    ensures Collect(bs, a + c).Ok? <==> Collect(bs, a).Ok? && Collect(bs, c).Ok?
    ensures Collect(bs, a + c).Ok? ==>
      forall n :: Get(Collect(bs, a + c).value, n) == Get(Collect(bs, a).value, n) + Get(Collect(bs, c).value, n)
    decreases |c|
  {
    if c == [] {
      assert a + c == a;
    } else {
      var n := |c| - 1;
      var s := c[n];
      assert c == c[..n] + [s];
      assert a + c == (a + c[..n]) + [s];
      CollectSnoc(bs, c[..n], s);
      CollectSnoc(bs, a + c[..n], s);
      CollectConcat(bs, a, c[..n]);
      if Collect(bs, a).Err? {
        CollectErrPrefix(bs, a, a + c);
      } else if Collect(bs, c[..n]).Err? {
        assert Collect(bs, a + c[..n]).Err?;
      } else {
        var ac := Collect(bs, a + c[..n]).value;
        var cc := Collect(bs, c[..n]).value;
        var aa := Collect(bs, a).value;
        FinaliseConcat(bs[s.block], Render(s.lines), aa, ac, cc);
      }
    }
  }

  lemma {:induction false} FinaliseConcat(b: TextBlock, text: string, aa: Blocks, ac: Blocks, cc: Blocks)
    requires forall n :: Get(ac, n) == Get(aa, n) + Get(cc, n)
    ensures Finalise(b, text, ac).Ok? <==> Finalise(b, text, cc).Ok?
    ensures Finalise(b, text, ac).Ok? ==>
      forall n :: Get(Finalise(b, text, ac).value, n) == Get(aa, n) + Get(Finalise(b, text, cc).value, n)
  {
    var p := ParsedBlock(b, text);
    if p.Ok? {
      StoreConcat(aa, ac, cc, b.name, p.value.1);
    }
  }

  lemma {:induction false} StoreConcat(aa: Blocks, ac: Blocks, cc: Blocks, name: string, d: Dict)
    requires forall n :: Get(ac, n) == Get(aa, n) + Get(cc, n)
    ensures forall n :: Get(Store(ac, name, d), n) == Get(aa, n) + Get(Store(cc, name, d), n)
  {
    forall n
      ensures Get(Store(ac, name, d), n) == Get(aa, n) + Get(Store(cc, name, d), n)
    {
      if n == name {
        assert Get(aa, n) + (Get(cc, n) + Records(d)) == (Get(aa, n) + Get(cc, n)) + Records(d);
      }
    }
  }

  /** Each name has at most as many records as the occurrences of its blocks. */
  lemma {:induction false} CollectCount(bs: seq<TextBlock>, segs: seq<Segment>, name: string)
    requires ValidSegments(bs, segs)
    ensures Collect(bs, segs).Ok? ==> |Get(Collect(bs, segs).value, name)| <= SegmentsNamed(bs, segs, name)
    decreases |segs|
  {
    if segs != [] {
      var n := |segs| - 1;
      assert segs == segs[..n] + [segs[n]];
      CollectSnoc(bs, segs[..n], segs[n]);
      SegmentsNamedSnoc(bs, segs[..n], segs[n], name);
      CollectCount(bs, segs[..n], name);
    }
  }

  // ---------------------------------------------------------------------------
  // Properties of BlockParser.parse
  // ---------------------------------------------------------------------------

  /** The parse result holds only non-empty lists of non-empty records. */
  lemma {:induction false} ParseLinesShape(bs: seq<TextBlock>, ls: seq<string>)
    ensures ParseLines(bs, ls).Ok? ==> WellShaped(ParseLines(bs, ls).value)
  {
    CollectShape(bs, Segments(bs, ls));
  }

  /** A name has at most as many records as there are lines opening its blocks. */
  lemma {:induction false} ParseLinesCount(bs: seq<TextBlock>, ls: seq<string>, name: string)
    ensures ParseLines(bs, ls).Ok? ==> |Get(ParseLines(bs, ls).value, name)| <= Openers(bs, ls, name)
  {
    CollectCount(bs, Segments(bs, ls), name);
    SegmentsCount(bs, ls, name);
  }

  /** Lines before the first start line have no effect on the result. */
  lemma {:induction false} ParseLinesIgnoreLeading(bs: seq<TextBlock>, pre: seq<string>, ls: seq<string>)
    requires forall i :: 0 <= i < |pre| ==> StartingBlock(bs, pre[i]).None?
    ensures ParseLines(bs, pre + ls) == ParseLines(bs, ls)
  {
    SegmentsIgnoreLeading(bs, pre, ls);
  }

  /** Input in which no line opens a block gives an empty result. */
  lemma {:induction false} ParseLinesNoStart(bs: seq<TextBlock>, ls: seq<string>)
    requires forall i :: 0 <= i < |ls| ==> StartingBlock(bs, ls[i]).None?
    ensures ParseLines(bs, ls) == Ok(map[])
  {
    SegmentsNoStart(bs, ls);
  }

  /** Every key of the result names a block whose start pattern some line matches. */
  lemma {:induction false} ParseLinesKeys(bs: seq<TextBlock>, ls: seq<string>)
    ensures ParseLines(bs, ls).Ok? ==>
      forall n :: n in ParseLines(bs, ls).value ==>
        exists i :: 0 <= i < |ls| && StartingBlock(bs, ls[i]).Some? && bs[StartingBlock(bs, ls[i]).value].name == n
  {
    var segs := Segments(bs, ls);
    CollectKeys(bs, segs);
    SegmentsPartition(bs, ls);
    if ParseLines(bs, ls).Ok? {
      forall n | n in ParseLines(bs, ls).value
        ensures exists i :: 0 <= i < |ls| && StartingBlock(bs, ls[i]).Some? && bs[StartingBlock(bs, ls[i]).value].name == n
      {
        var j :| 0 <= j < |segs| && bs[segs[j].block].name == n;
        assert WellFormedSegment(bs, segs[j]);
        var i := SegmentStart(bs, ls, segs, j);
        assert StartingBlock(bs, ls[i]) == Some(segs[j].block);
      }
    }
  }

  /** Where in the input the `j`-th occurrence starts. */
  lemma {:induction false} SegmentStart(bs: seq<TextBlock>, ls: seq<string>, segs: seq<Segment>, j: nat) returns (i: nat)
    requires Partitioned(bs, ls, segs) && j < |segs|
    ensures i < |ls| && ls[i] == segs[j].lines[0]
  {
    assert WellFormedSegment(bs, segs[j]);
    var f := Flatten(segs);
    var k := FlattenIndex(segs, j);
    assert f[k] == segs[j].lines[0];
    i := |ls| - |f| + k;
    assert ls[|ls| - |f|..][k] == ls[i];
  }

  /** Where in the flattened lines the `j`-th occurrence starts. */
  lemma {:induction false} FlattenIndex(segs: seq<Segment>, j: nat) returns (k: nat)
    requires j < |segs| && segs[j].lines != []
    ensures k < |Flatten(segs)| && Flatten(segs)[k] == segs[j].lines[0]
    decreases |segs|
  {
    var n := |segs| - 1;
    assert segs == segs[..n] + [segs[n]];
    FlattenSnoc(segs[..n], segs[n]);
    if j < n {
      assert segs[..n][j] == segs[j];
      k := FlattenIndex(segs[..n], j);
    } else {
      k := |Flatten(segs[..n])|;
    }
  }

  // ---------------------------------------------------------------------------
  // The parser objects
  // ---------------------------------------------------------------------------

  /**
   * The state `BlockParser.parse` keeps after reading the first `i` lines of
   * `ls`: the open block, its buffer, and the records of the occurrences
   * already closed.
   */
  ghost predicate ParseState(bs: seq<TextBlock>, ls: seq<string>, i: nat, currblock: Option<nat>, textbuffer: string, blocks: Blocks)
    requires i <= |ls|
  {
    OpenState(bs, Segments(bs, ls[..i]), currblock, textbuffer, blocks)
  }

  /**
   * The parser's state for the occurrences `segs`: the last one is open, its
   * lines are in `textbuffer`, and `blocks` holds the records of the others.
   */
  ghost predicate OpenState(bs: seq<TextBlock>, segs: seq<Segment>, currblock: Option<nat>, textbuffer: string, blocks: Blocks)
  {
    && ValidSegments(bs, segs)
    && currblock == (if segs == [] then None else Some(segs[|segs| - 1].block))
    && textbuffer == (if segs == [] then "" else Render(segs[|segs| - 1].lines))
    && Collect(bs, Closed(segs)) == Ok(blocks)
  }

  /** Extending the open occurrence by `line` extends its buffer. */
  lemma {:induction false} OpenStateExtend(bs: seq<TextBlock>, segs: seq<Segment>, c: nat, textbuffer: string, blocks: Blocks, line: string)
    requires segs != [] && OpenState(bs, segs, Some(c), textbuffer, blocks)
    ensures OpenState(bs, Closed(segs) + [Segment(c, segs[|segs| - 1].lines + [line])], Some(c), textbuffer + (line + "\n"), blocks)
  {
    var open := segs[|segs| - 1];
    var ext := Segment(c, open.lines + [line]);
    var segs' := Closed(segs) + [ext];
    assert forall i :: 0 <= i < |segs'| - 1 ==> segs'[i] == segs[i];
    assert segs'[|segs'| - 1] == ext;
    assert ValidSegments(bs, segs');
    RenderSnoc(open.lines, line);
    assert textbuffer + line + "\n" == textbuffer + (line + "\n");
    assert Render(ext.lines) == textbuffer + (line + "\n");
    ClosedSnoc(Closed(segs), ext);
    assert Collect(bs, Closed(segs')) == Ok(blocks);
  }

  lemma {:induction false} ParseStart(bs: seq<TextBlock>, ls: seq<string>)
    ensures ParseState(bs, ls, 0, None, "", map[])
  {
    assert ls[..0] == [];
  }

  /** A line that opens no block, seen while a block is open, extends its buffer. */
  lemma {:induction false} ParseStepExtend(bs: seq<TextBlock>, ls: seq<string>, i: nat, c: nat, textbuffer: string, blocks: Blocks)
    requires i < |ls| && ParseState(bs, ls, i, Some(c), textbuffer, blocks)
    requires StartingBlock(bs, ls[i]).None?
    ensures ParseState(bs, ls, i + 1, Some(c), textbuffer + (ls[i] + "\n"), blocks)
  {
    var segs := Segments(bs, ls[..i]);
    SegmentsPlain(bs, ls, i);
    OpenStateExtend(bs, segs, c, textbuffer, blocks, ls[i]);
    assert Segments(bs, ls[..i + 1]) == Closed(segs) + [Segment(c, segs[|segs| - 1].lines + [ls[i]])];
  }

  /** A line that opens no block, seen while no block is open, is skipped. */
  lemma {:induction false} ParseStepSkip(bs: seq<TextBlock>, ls: seq<string>, i: nat, textbuffer: string, blocks: Blocks)
    requires i < |ls| && ParseState(bs, ls, i, None, textbuffer, blocks)
    requires StartingBlock(bs, ls[i]).None?
    ensures ParseState(bs, ls, i + 1, None, textbuffer, blocks)
  {
    SegmentsPlain(bs, ls, i);
  }

  /** The occurrences after a line that opens no block: the open one, if any, is extended. */
  lemma {:induction false} SegmentsPlain(bs: seq<TextBlock>, ls: seq<string>, i: nat)
    requires i < |ls| && StartingBlock(bs, ls[i]).None?
    ensures var segs := Segments(bs, ls[..i]);
      if segs == [] then Segments(bs, ls[..i + 1]) == []
      else
        var open := segs[|segs| - 1];
        && Segments(bs, ls[..i + 1]) == Closed(segs) + [Segment(open.block, open.lines + [ls[i]])]
        && Closed(Segments(bs, ls[..i + 1])) == Closed(segs)
  {
    assert ls[..i + 1] == ls[..i] + [ls[i]];
    SegmentsSnoc(bs, ls[..i], ls[i]);
    var segs := Segments(bs, ls[..i]);
    if segs != [] {
      var open := segs[|segs| - 1];
      ClosedSnoc(Closed(segs), Segment(open.block, open.lines + [ls[i]]));
    }
  }

  /** A start line seen while no block is open opens its block. */
  lemma {:induction false} ParseStepFirst(bs: seq<TextBlock>, ls: seq<string>, i: nat, blocks: Blocks, k: nat)
    requires i < |ls| && ParseState(bs, ls, i, None, "", blocks)
    requires StartingBlock(bs, ls[i]) == Some(k)
    ensures ParseState(bs, ls, i + 1, Some(k), "" + (ls[i] + "\n"), blocks)
  {
    assert ls[..i + 1] == ls[..i] + [ls[i]];
    SegmentsSnoc(bs, ls[..i], ls[i]);
    RenderSingle(ls[i]);
  }

  /** Finalising the open occurrence, whose buffer is `textbuffer`, finalises them all. */
  lemma {:induction false} OpenStateClose(bs: seq<TextBlock>, segs: seq<Segment>, c: nat, textbuffer: string, blocks: Blocks)
    requires OpenState(bs, segs, Some(c), textbuffer, blocks)
    ensures c < |bs|
    ensures Collect(bs, segs) == Finalise(bs[c], textbuffer, blocks)
  {
    assert Closed(segs) == segs[..|segs| - 1];
  }

  lemma {:induction false} ClosedSnoc(segs: seq<Segment>, s: Segment)
    ensures Closed(segs + [s]) == segs
  {
    assert (segs + [s])[..|segs|] == segs;
  }

  /** The occurrences after a start line: the ones before, then a new one. */
  lemma {:induction false} SegmentsOpen(bs: seq<TextBlock>, ls: seq<string>, i: nat, k: nat)
    requires i < |ls| && StartingBlock(bs, ls[i]) == Some(k)
    ensures Segments(bs, ls[..i + 1]) == Segments(bs, ls[..i]) + [Segment(k, [ls[i]])]
    ensures Closed(Segments(bs, ls[..i + 1])) == Segments(bs, ls[..i])
  {
    assert ls[..i + 1] == ls[..i] + [ls[i]];
    SegmentsSnoc(bs, ls[..i], ls[i]);
    ClosedSnoc(Segments(bs, ls[..i]), Segment(k, [ls[i]]));
  }

  /**
   * A start line seen while a block is open first finalises the open
   * occurrence, whose buffer is `textbuffer`, to `closed`; an exception there
   * is the result of the whole parse.
   */
  lemma {:induction false} ParseStepNext(bs: seq<TextBlock>, ls: seq<string>, i: nat, c: nat, textbuffer: string, blocks: Blocks, k: nat,
                                         closed: Result<Blocks, Error>)
    requires i < |ls| && ParseState(bs, ls, i, Some(c), textbuffer, blocks)
    requires StartingBlock(bs, ls[i]) == Some(k)
    requires c < |bs| && closed == Finalise(bs[c], textbuffer, blocks)
    ensures closed.Err? ==> ParseLines(bs, ls) == closed
    ensures closed.Ok? ==> ParseState(bs, ls, i + 1, Some(k), ls[i] + "\n", closed.value)
  {
    var segs := Segments(bs, ls[..i]);
    OpenStateClose(bs, segs, c, textbuffer, blocks);
    SegmentsOpen(bs, ls, i, k);
    if closed.Err? {
      ParseErr(bs, ls, i);
    } else {
      RenderSingle(ls[i]);
      ClosedSnoc(segs, Segment(k, [ls[i]]));
    }
  }

  /** An exception while finalising the occurrences closed by line `i` ends the parse. */
  lemma {:induction false} ParseErr(bs: seq<TextBlock>, ls: seq<string>, i: nat)
    requires i < |ls| && Collect(bs, Closed(Segments(bs, ls[..i + 1]))).Err?
    ensures ParseLines(bs, ls) == Collect(bs, Closed(Segments(bs, ls[..i + 1])))
  {
    SegmentsStable(bs, ls, i + 1);
    assert ls[..|ls|] == ls;
    CollectErrPrefix(bs, Closed(Segments(bs, ls[..i + 1])), Segments(bs, ls));
  }

  /** The open block, if any, is a block of the list, and it has a non-empty buffer. */
  lemma {:induction false} ParseBuffer(bs: seq<TextBlock>, ls: seq<string>, i: nat, currblock: Option<nat>, textbuffer: string, blocks: Blocks)
    requires i <= |ls| && ParseState(bs, ls, i, currblock, textbuffer, blocks)
    ensures |textbuffer| > 0 <==> currblock.Some?
    ensures currblock.Some? ==> currblock.value < |bs|
  {
    var segs := Segments(bs, ls[..i]);
    if segs != [] {
      RenderEmpty(segs[|segs| - 1].lines);
    }
  }

  /** At the end of the input, without an open block, the records are the result. */
  lemma {:induction false} ParseFinishNone(bs: seq<TextBlock>, ls: seq<string>, blocks: Blocks)
    requires ParseState(bs, ls, |ls|, None, "", blocks)
    ensures ParseLines(bs, ls) == Ok(blocks)
  {
    assert ls[..|ls|] == ls;
  }

  /** At the end of the input the open occurrence is finalised, to `closed`. */
  lemma {:induction false} ParseFinishOpen(bs: seq<TextBlock>, ls: seq<string>, c: nat, textbuffer: string, blocks: Blocks,
                                           closed: Result<Blocks, Error>)
    requires ParseState(bs, ls, |ls|, Some(c), textbuffer, blocks)
    requires c < |bs| && closed == Finalise(bs[c], textbuffer, blocks)
    ensures ParseLines(bs, ls) == closed
  {
    assert ls[..|ls|] == ls;
    OpenStateClose(bs, Segments(bs, ls), c, textbuffer, blocks);
  }

  /**
   * `Parser` and `BlockParser`: the line counter and input text of the base
   * class, and the list of blocks the parser looks for.
   */
  class BlockParser {
    var linenum: nat
    var text: string
    const textblocks: seq<TextBlock>

    constructor (textblocks: seq<TextBlock>)
      ensures this.textblocks == textblocks && linenum == 0 && text == ""
    {
      this.textblocks := textblocks;
      linenum := 0;
      text := "";
    }

    method SetInputText(text: string)
      modifies this`text
      ensures this.text == text
    {
      this.text := text;
    }

    /** All the lines `read_lines(strip)` yields, each one counted in `linenum`. */
    method ReadLines(strip: bool) returns (lines: seq<string>)
      modifies this`linenum
      ensures lines == Lines(text, strip)
      ensures linenum == old(linenum) + |lines|
    {
      var parts := Split(text, '\n');
      lines := [];
      var i := 0;
      while i < |parts|
        invariant 0 <= i <= |parts| == |Lines(text, strip)|
        invariant |lines| == i && forall k :: 0 <= k < i ==> lines[k] == Lines(text, strip)[k]
        invariant linenum == old(linenum) + i
      {
        var line := NextLine(parts, i, strip);
        lines := lines + [line];
        i := i + 1;
      }
    }

    /**
     * One step of the generator `read_lines(strip)`: the `i`-th piece of the
     * text, stripped when asked, is counted and yielded.
     */
    method NextLine(parts: seq<string>, i: nat, strip: bool) returns (line: string)
      requires parts == Split(text, '\n') && i < |parts|
      modifies this`linenum
      ensures line == Lines(text, strip)[i]
      ensures linenum == old(linenum) + 1
    {
      line := parts[i];
      if strip {
        line := Strip(line);
      }
      linenum := linenum + 1;
    }

    /** The first block, in list order, whose start pattern matches `line`. */
    method FindTextblock(line: string) returns (r: Option<nat>)
      ensures r == StartingBlock(textblocks, line)
    {
      var i := 0;
      while i < |textblocks|
        invariant 0 <= i <= |textblocks|
        invariant forall j :: 0 <= j < i ==> !MatchesStartPattern(textblocks[j], line)
      {
        if MatchesStartPattern(textblocks[i], line) {
          StartingBlockFirst(textblocks, line, i);
          return Some(i);
        }
        i := i + 1;
      }
      return None;
    }

    /**
     * `BlockParser.parse(text)`. The lines are read one at a time, as the
     * generator `read_lines` yields them, so after an exception `linenum`
     * counts only the lines read so far.
     */
    method Parse(text: string) returns (r: Result<Blocks, Error>)
      modifies this
      ensures this.text == text
      ensures r == ParseText(textblocks, text)
      ensures r.Ok? ==> linenum == old(linenum) + |Lines(text, true)|
      ensures old(linenum) < linenum <= old(linenum) + |Lines(text, true)|
    {
      var textbuffer := "";
      var blocks: Blocks := map[];
      var currblock: Option<nat> := None;
      SetInputText(text);
      var parts := Split(this.text, '\n');
      ghost var ls := Lines(text, true);
      ParseStart(textblocks, ls);
      var i := 0;
      while i < |parts|
        invariant 0 <= i <= |parts| == |ls|
        invariant this.text == text
        invariant linenum == old(linenum) + i
        invariant ParseState(textblocks, ls, i, currblock, textbuffer, blocks)
      {
        var line := NextLine(parts, i, true);
        var step := FeedLine(line, currblock, textbuffer, blocks, ls, i);
        if step.Err? {
          return Err(step.error);
        }
        currblock, textbuffer, blocks := step.value.0, step.value.1, step.value.2;
        i := i + 1;
      }
      assert ls[..i] == ls[..|ls|];
      r := FeedEnd(currblock, textbuffer, blocks, ls);
    }

    /**
     * The end of `BlockParser.parse`, after all the lines `ls` were read: a
     * non-empty buffer is finalised with its block.
     */
    method FeedEnd(currblock: Option<nat>, textbuffer: string, blocks: Blocks, ghost ls: seq<string>) returns (r: Result<Blocks, Error>)
      requires ParseState(textblocks, ls, |ls|, currblock, textbuffer, blocks)
      ensures r == ParseLines(textblocks, ls)
    {
      ParseBuffer(textblocks, ls, |ls|, currblock, textbuffer, blocks);
      if |textbuffer| > 0 {
        var closed := CloseBlock(textblocks[currblock.value], textbuffer, blocks);
        ParseFinishOpen(textblocks, ls, currblock.value, textbuffer, blocks, closed);
        return closed;
      } else {
        ParseFinishNone(textblocks, ls, blocks);
      }
      return Ok(blocks);
    }

    /**
     * One pass of the loop of `BlockParser.parse`, for `line`, the `i`-th line
     * of `ls`: the open block, its buffer and the records afterwards, or the
     * exception a finalised occurrence raised.
     */
    method FeedLine(line: string, currblock: Option<nat>, textbuffer: string, blocks: Blocks, ghost ls: seq<string>, ghost i: nat)
      returns (r: Result<(Option<nat>, string, Blocks), Error>)
      requires i < |ls| && line == ls[i]
      requires ParseState(textblocks, ls, i, currblock, textbuffer, blocks)
      ensures r.Err? ==> ParseLines(textblocks, ls) == Err(r.error)
      ensures r.Ok? ==> ParseState(textblocks, ls, i + 1, r.value.0, r.value.1, r.value.2)
    {
      var textblock := FindTextblock(line);
      if textblock.Some? && currblock.Some? {
        ParseBuffer(textblocks, ls, i, currblock, textbuffer, blocks);
        var closed := CloseBlock(textblocks[currblock.value], textbuffer, blocks);
        ParseStepNext(textblocks, ls, i, currblock.value, textbuffer, blocks, textblock.value, closed);
        if closed.Err? {
          return Err(closed.error);
        }
        return Ok((textblock, line + "\n", closed.value));
      } else if textblock.Some? {
        ParseBuffer(textblocks, ls, i, currblock, textbuffer, blocks);
        ParseStepFirst(textblocks, ls, i, blocks, textblock.value);
        return Ok((textblock, textbuffer + (line + "\n"), blocks));
      } else if currblock.Some? {
        ParseStepExtend(textblocks, ls, i, currblock.value, textbuffer, blocks);
        return Ok((currblock, textbuffer + (line + "\n"), blocks));
      } else {
        ParseStepSkip(textblocks, ls, i, textbuffer, blocks);
        return Ok((currblock, textbuffer, blocks));
      }
    }
  }

  /**
   * The step `BlockParser.parse` repeats when an occurrence of `b` ends: the
   * buffer is parsed by the block and the dictionary is saved under its name.
   */
  method CloseBlock(b: TextBlock, textbuffer: string, blocks: Blocks) returns (r: Result<Blocks, Error>)
    ensures r == Finalise(b, textbuffer, blocks)
  {
    var parsed := ParseBlock(b, textbuffer);
    if parsed.Err? {
      return Err(parsed.error);
    }
    var saved := SaveMatch(blocks, b.name, parsed.value.1);
    return Ok(saved);
  }

  /**
   * The record-saving step `BlockParser.parse` repeats after each call to
   * `TextBlock.parse`: a non-empty dictionary starts or extends the list of
   * the block's name.
   */
  method SaveMatch(blocks: Blocks, name: string, match_: Dict) returns (r: Blocks)
    ensures r == Store(blocks, name, match_)
  {
    r := blocks;
    if |match_| > 0 {
      if name !in r {
        assert Get(blocks, name) + [match_] == [match_];
        r := r[name := [match_]];
      } else {
        r := r[name := r[name] + [match_]];
      }
    }
  }

  lemma {:induction false} StartingBlockFirst(bs: seq<TextBlock>, line: string, i: nat)
    requires i < |bs| && MatchesStartPattern(bs[i], line)
    requires forall j :: 0 <= j < i ==> !MatchesStartPattern(bs[j], line)
    ensures StartingBlock(bs, line) == Some(i)
  {
    match StartingBlock(bs, line)
    case None =>
    case Some(k) =>
  }
}
