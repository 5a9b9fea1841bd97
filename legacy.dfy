/**
 * The first engine, the top-level txtblocks.py: field extractors
 * (`TextLine`), block definitions (`TextBlock`) whose records are keyed by
 * extractor name, and the `BlockParser` state machine in which an open block
 * is closed only by a repeat of its own start line.
 *
 * Blocks are identified by their position in the parser's list of text
 * blocks; a parse outcome is either the value returned or the exception
 * raised (`Result`).
 */
module LegacyTxtBlocks {
  import opened Wrappers
  import opened Strings
  import opened Re
  import opened Seqs

  /** A `groupdict()`: group name to captured text (None: the group did not take part). */
  type Dict = map<string, Option<string>>

  /** What `TextBlock.parse` returns: extractor name to the groupdict it last produced. */
  type Data = map<string, Dict>

  /** What `BlockParser.parse` returns: block name to the records found for it. */
  type Blocks = map<string, seq<Data>>

  /** The exception raised when a pattern has groups but none of them is named. */
  type Error = UnnamedGroupsError

  // ---------------------------------------------------------------------------
  // Field extractors
  // ---------------------------------------------------------------------------

  /** A field extractor: a name and a pattern matched at position 0 of a line. */
  datatype TextLine = TextLine(name: string, regex: Pattern)

  /** The text of the exception `TextLine.parse` raises. */
  function UnnamedMessage(name: string): string
  {
    "Some regexes in " + name + " have no name. Use ?P<myregexname>"
  }

  /**
   * `TextLine.parse`: the groupdict of the anchored match, `{}` without a
   * match, and an exception when the match has groups but no named group.
   */
  function ParseLine(t: TextLine, text: string): (r: Result<Dict, Error>)
    ensures t.regex.matchStart(text).None? ==> r == Ok(map[])
    ensures r.Err? <==> t.regex.matchStart(text).Some? && OnlyUnnamedGroups(t.regex.matchStart(text).value)
    ensures r.Err? ==> r.error == UnnamedGroups(t.name, UnnamedMessage(t.name))
    ensures t.regex.matchStart(text).Some? && r.Ok? ==> r.value == t.regex.matchStart(text).value.groupdict
  {
    match t.regex.matchStart(text)
    case None => Ok(map[])
    case Some(m) =>
      if m.groupCount > 0 && |m.groupdict| == 0 then Err(UnnamedGroups(t.name, UnnamedMessage(t.name)))
      else Ok(m.groupdict)
  }

  /**
   * The documented example: an extractor `deviceid` whose pattern captures the
   * rest of a `Device ID: ` line returns that capture, and `{}` on a line its
   * pattern does not match.
   */
  lemma {:induction false} DeviceIdExample(p: Pattern)
    requires p.matchStart("Device ID: switch1.lab.example.com")
             == Some(Match(1, map["deviceid" := Some("switch1.lab.example.com")]))
    requires p.matchStart("Some random string").None?
    ensures ParseLine(TextLine("deviceid", p), "Device ID: switch1.lab.example.com")
            == Ok(map["deviceid" := Some("switch1.lab.example.com")])
    ensures ParseLine(TextLine("deviceid", p), "Some random string") == Ok(map[])
  {
    var d := map["deviceid" := Some("switch1.lab.example.com")];
    assert "deviceid" in d;
    assert |d| == 1;
  }

  // ---------------------------------------------------------------------------
  // Text blocks
  // ---------------------------------------------------------------------------

  /**
   * A block definition as `TextBlock.__init__` stores it. An empty `endregex`
   * argument is kept as the empty string in the source, here as `None`.
   */
  datatype TextBlock = TextBlock(
    name: string,
    textelements: seq<TextLine>,
    startregex: Pattern,
    endregex: Option<Pattern>)

  /** `matches_start_pattern`: the start pattern matches at position 0 of `text`. */
  predicate MatchesStartPattern(b: TextBlock, text: string)
  {
    b.startregex.matchStart(text).Some?
  }

  /**
   * `matches_end_pattern`: the end pattern matches at position 0 of `text`.
   * Without an end pattern the source calls `.match` on a string and fails.
   */
  predicate MatchesEndPattern(b: TextBlock, text: string)
    requires b.endregex.Some?
  {
    b.endregex.value.matchStart(text).Some?
  }

  /** One run of one extractor on one line. */
  datatype Probe = Probe(line: string, element: TextLine)

  /** The probes of one line, one per extractor, in extractor order. */
  function Row(line: string, es: seq<TextLine>): (r: seq<Probe>)
    ensures |r| == |es|
    ensures forall j :: 0 <= j < |es| ==> r[j] == Probe(line, es[j])
  {
    seq(|es|, j requires 0 <= j < |es| => Probe(line, es[j]))
  }

  /** All probes of a buffer: line-major, extractor-minor. */
  function Probes(lines: seq<string>, es: seq<TextLine>): seq<Probe>
    decreases |lines|
  {
    if lines == [] then []
    else Probes(lines[..|lines| - 1], es) + Row(lines[|lines| - 1], es)
  }

  function ProbeResult(p: Probe): Result<Dict, Error>
  {
    ParseLine(p.element, p.line)
  }

  /** The groupdict a probe contributes, `{}` when it raises. */
  function ProbeDict(p: Probe): Dict
  {
    match ProbeResult(p)
    case Ok(m) => m
    case Err(_) => map[]
  }

  /**
   * The dictionary `TextBlock.parse` accumulates over a sequence of probes:
   * each non-empty groupdict is stored under its extractor's name, replacing
   * what was there, and the first exception aborts.
   */
  function Extract(ps: seq<Probe>): Result<Data, Error>
    decreases |ps|
  {
    if ps == [] then Ok(map[])
    else
      var p := ps[|ps| - 1];
      match Extract(ps[..|ps| - 1])
      case Err(e) => Err(e)
      case Ok(data) =>
        match ProbeResult(p)
        case Err(e) => Err(e)
        case Ok(m) => Ok(if |m| > 0 then data[p.element.name := m] else data)
  }

  /** `TextBlock.parse`: the dictionary over the buffer's `'\n'`-separated lines, or the exception raised. */
  function ParsedBlock(b: TextBlock, text: string): Result<Data, Error>
  {
    Extract(Probes(Split(text, '\n'), b.textelements))
  }

  lemma {:induction false} ExtractSnoc(ps: seq<Probe>, p: Probe)
    ensures Extract(ps + [p]) ==
      match Extract(ps)
      case Err(e) => Err(e)
      case Ok(data) =>
        match ProbeResult(p)
        case Err(e) => Err(e)
        case Ok(m) => Ok(if |m| > 0 then data[p.element.name := m] else data)
  {
    assert (ps + [p])[..|ps|] == ps;
  }

  lemma {:induction false} ExtractSnocOk(ps: seq<Probe>, p: Probe, data: Data, m: Dict)
    requires Extract(ps) == Ok(data) && ProbeResult(p) == Ok(m)
    ensures Extract(ps + [p]) == Ok(if |m| > 0 then data[p.element.name := m] else data)
  {
    ExtractSnoc(ps, p);
  }

  lemma {:induction false} ExtractSnocErr(ps: seq<Probe>, p: Probe)
    requires Extract(ps).Ok? && ProbeResult(p).Err?
    ensures Extract(ps + [p]) == Err(ProbeResult(p).error)
  {
    ExtractSnoc(ps, p);
  }

  /** Once a prefix of the probes raises, so does every extension, with the same exception. */
  lemma {:induction false} ExtractErrPrefix(ps: seq<Probe>, qs: seq<Probe>)
    requires ps <= qs && Extract(ps).Err?
    ensures Extract(qs) == Extract(ps)
    decreases |qs|
  {
    if |qs| > |ps| {
      assert ps <= qs[..|qs| - 1];
      ExtractErrPrefix(ps, qs[..|qs| - 1]);
    } else {
      assert ps == qs;
    }
  }

  /** One step that does not raise: a non-empty groupdict of the last probe replaces its extractor's entry. */
  lemma {:induction false} ExtractStepOk(ps: seq<Probe>)
    requires ps != [] && Extract(ps).Ok?
    ensures Extract(ps[..|ps| - 1]).Ok? && ProbeResult(ps[|ps| - 1]).Ok?
    ensures var p := ps[|ps| - 1];
      Extract(ps).value ==
        if |ProbeDict(p)| > 0 then Extract(ps[..|ps| - 1]).value[p.element.name := ProbeDict(p)]
        else Extract(ps[..|ps| - 1]).value
  {
  }

  /** A dictionary that was built without an exception ran every probe without error. */
  lemma {:induction false} ExtractOkAll(ps: seq<Probe>)
    requires Extract(ps).Ok?
    ensures forall i :: 0 <= i < |ps| ==> ProbeResult(ps[i]).Ok?
    decreases |ps|
  {
    if ps != [] {
      var n := |ps| - 1;
      ExtractStepOk(ps);
      ExtractOkAll(ps[..n]);
      assert forall i :: 0 <= i < n ==> ps[i] == ps[..n][i];
    }
  }

  /** Some probe of `ps` ran an extractor named `k` that returned a non-empty groupdict. */
  predicate Produced(ps: seq<Probe>, k: string)
  {
    exists i :: 0 <= i < |ps| && ps[i].element.name == k && |ProbeDict(ps[i])| > 0
  }

  lemma {:induction false} ProducedLast(ps: seq<Probe>, k: string)
    requires ps != []
    ensures Produced(ps, k) <==>
      Produced(ps[..|ps| - 1], k) || (ps[|ps| - 1].element.name == k && |ProbeDict(ps[|ps| - 1])| > 0)
  {
    var n := |ps| - 1;
    var front := ps[..n];
    assert forall i :: 0 <= i < n ==> front[i] == ps[i];
    if Produced(ps, k) && !(ps[n].element.name == k && |ProbeDict(ps[n])| > 0) {
      var i :| 0 <= i < |ps| && ps[i].element.name == k && |ProbeDict(ps[i])| > 0;
      assert front[i] == ps[i];
    }
  }

  /**
   * The keys of the dictionary are exactly the names of the extractors that
   * matched some line with a non-empty groupdict; the others are absent.
   */
  lemma {:induction false} ExtractKeys(ps: seq<Probe>)
    requires Extract(ps).Ok?
    ensures forall k :: k in Extract(ps).value <==> Produced(ps, k)
    decreases |ps|
  {
    if ps != [] {
      var n := |ps| - 1;
      ExtractStepOk(ps);
      ExtractKeys(ps[..n]);
      forall k ensures k in Extract(ps).value <==> Produced(ps, k) {
        ProducedLast(ps, k);
      }
    }
  }

  /**
   * Each entry holds the whole groupdict of the last line on which an
   * extractor of that name matched with a non-empty groupdict.
   */
  lemma {:induction false} ExtractLastWins(ps: seq<Probe>, k: string, i: nat)
    requires Extract(ps).Ok?
    requires i < |ps| && ps[i].element.name == k && |ProbeDict(ps[i])| > 0
    requires forall j :: i < j < |ps| && ps[j].element.name == k ==> |ProbeDict(ps[j])| == 0
    ensures k in Extract(ps).value && Extract(ps).value[k] == ProbeDict(ps[i])
    decreases |ps|
  {
    var n := |ps| - 1;
    var front := ps[..n];
    ExtractStepOk(ps);
    if i < n {
      NotProducedAfterFront(ps, front, k, i);
      assert front[i] == ps[i];
      ExtractLastWins(front, k, i);
    }
  }

  /** An extractor name not produced after probe `i` is not produced after it in `front`, the probes before the last, nor by the last. */
  lemma {:induction false} NotProducedAfterFront(ps: seq<Probe>, front: seq<Probe>, k: string, i: nat)
    requires i < |ps| - 1 && front == ps[..|ps| - 1]
    requires forall j :: i < j < |ps| && ps[j].element.name == k ==> |ProbeDict(ps[j])| == 0
    ensures forall j :: i < j < |front| && front[j].element.name == k ==> |ProbeDict(front[j])| == 0
    ensures ps[|ps| - 1].element.name == k ==> |ProbeDict(ps[|ps| - 1])| == 0
  {
    forall j | i < j < |front| && front[j].element.name == k ensures |ProbeDict(front[j])| == 0 {
      assert front[j] == ps[j];
    }
  }

  /** A raising `TextBlock.parse` carries the exception of the first probe that raises. */
  lemma {:induction false} ExtractFirstErr(ps: seq<Probe>)
    requires Extract(ps).Err?
    ensures exists i :: 0 <= i < |ps| && ProbeResult(ps[i]) == Err(Extract(ps).error)
                        && forall j :: 0 <= j < i ==> ProbeResult(ps[j]).Ok?
    decreases |ps|
  {
    var n := |ps| - 1;
    var front := ps[..n];
    if Extract(front).Err? {
      ExtractFirstErr(front);
      var i :| 0 <= i < n && ProbeResult(front[i]) == Err(Extract(front).error)
               && forall j :: 0 <= j < i ==> ProbeResult(front[j]).Ok?;
      assert front[i] == ps[i];
      forall j | 0 <= j < i ensures ProbeResult(ps[j]).Ok? {
        assert front[j] == ps[j];
      }
    } else {
      ExtractOkAll(front);
      forall j | 0 <= j < n ensures ProbeResult(ps[j]).Ok? {
        assert front[j] == ps[j];
      }
    }
  }

  /** `TextBlock.parse` raises exactly when some extractor raises on some line. */
  lemma {:induction false} ExtractErr(ps: seq<Probe>)
    ensures Extract(ps).Err? <==> exists i :: 0 <= i < |ps| && ProbeResult(ps[i]).Err?
  {
    if Extract(ps).Err? {
      ExtractFirstErr(ps);
    } else {
      ExtractOkAll(ps);
    }
  }

  lemma {:induction false} ProbesNoElements(lines: seq<string>)
    ensures Probes(lines, []) == []
    decreases |lines|
  {
    if lines != [] {
      ProbesNoElements(lines[..|lines| - 1]);
    }
  }

  /** A block without extractors parses every buffer to `{}`. */
  lemma {:induction false} ParsedBlockNoElements(b: TextBlock, text: string)
    requires b.textelements == []
    ensures ParsedBlock(b, text) == Ok(map[])
  {
    ProbesNoElements(Split(text, '\n'));
  }

  /** Every probe runs without error and finds no named group. */
  predicate NothingMatches(ps: seq<Probe>)
  {
    forall i :: 0 <= i < |ps| ==> ProbeResult(ps[i]).Ok? && |ProbeDict(ps[i])| == 0
  }

  /** Probes that all return an empty groupdict build the empty dictionary. */
  lemma {:induction false} ExtractAllEmpty(ps: seq<Probe>)
    requires NothingMatches(ps)
    ensures Extract(ps) == Ok(map[])
    decreases |ps|
  {
    if ps != [] {
      var n := |ps| - 1;
      assert forall i :: 0 <= i < n ==> ps[..n][i] == ps[i];
      ExtractAllEmpty(ps[..n]);
    }
  }

  /** When no extractor matches anything (and none raises), the dictionary is empty. */
  lemma {:induction false} ParsedBlockNoMatches(b: TextBlock, text: string)
    requires NothingMatches(Probes(Split(text, '\n'), b.textelements))
    ensures ParsedBlock(b, text) == Ok(map[])
  {
    ExtractAllEmpty(Probes(Split(text, '\n'), b.textelements));
  }

  /** Prefixes of a buffer's lines give prefixes of its probes. */
  lemma {:induction false} ProbesPrefix(lines: seq<string>, es: seq<TextLine>, i: nat)
    requires i <= |lines|
    ensures Probes(lines[..i], es) <= Probes(lines, es)
    decreases |lines|
  {
    if i < |lines| {
      var front := lines[..|lines| - 1];
      assert front[..i] == lines[..i];
      ProbesPrefix(front, es, i);
    } else {
      assert lines[..i] == lines;
    }
  }

  /** The probes of a buffer one line longer. */
  lemma {:induction false} ProbesSnoc(lines: seq<string>, es: seq<TextLine>, i: nat)
    requires i < |lines|
    ensures Probes(lines[..i + 1], es) == Probes(lines[..i], es) + Row(lines[i], es)
  {
    var upto := lines[..i + 1];
    assert upto[..i] == lines[..i] && upto[i] == lines[i];
  }

  /** The probes run up to extractor `j` of line `i` are a prefix of all probes. */
  lemma {:induction false} ProbesRowPrefix(lines: seq<string>, es: seq<TextLine>, i: nat, j: nat)
    requires i < |lines| && j < |es|
    ensures Probes(lines[..i], es) + Row(lines[i], es[..j + 1]) <= Probes(lines, es)
  {
    var done := Probes(lines[..i], es);
    var row := Row(lines[i], es);
    assert Row(lines[i], es[..j + 1]) == row[..j + 1];
    PrefixAppend(done, row, j + 1);
    ProbesSnoc(lines, es, i);
    ProbesPrefix(lines, es, i + 1);
    PrefixTrans(done + row[..j + 1], done + row, Probes(lines, es));
  }

  /** Running one more extractor on the current line. */
  lemma {:induction false} RowSnoc(done: seq<Probe>, line: string, es: seq<TextLine>, j: nat)
    requires j < |es|
    ensures done + Row(line, es[..j + 1]) == (done + Row(line, es[..j])) + [Probe(line, es[j])]
  {
    assert Row(line, es[..j + 1]) == Row(line, es[..j]) + [Probe(line, es[j])];
  }

  /** `TextBlock.parse`, as the nested loop over lines and extractors. */
  method ParseBlock(b: TextBlock, text: string) returns (r: Result<Data, Error>)
    ensures r == ParsedBlock(b, text)
  {
    var data: Data := map[];
    var lines := Split(text, '\n');
    var es := b.textelements;
    var i := 0;
    while i < |lines|
      invariant 0 <= i <= |lines|
      invariant Extract(Probes(lines[..i], es)) == Ok(data)
    {
      ghost var done := Probes(lines[..i], es);
      assert es[..0] == [];
      assert done + Row(lines[i], []) == done;
      var j := 0;
      assert Extract(done + Row(lines[i], es[..j])) == Ok(data);
      while j < |es|
        invariant 0 <= j <= |es|
        invariant Extract(done + Row(lines[i], es[..j])) == Ok(data)
      {
        ghost var before := done + Row(lines[i], es[..j]);
        ghost var p := Probe(lines[i], es[j]);
        RowSnoc(done, lines[i], es, j);
        var match_ := ParseLine(es[j], lines[i]);
        assert match_ == ProbeResult(p);
        if match_.Err? {
          ExtractSnocErr(before, p);
          ProbesRowPrefix(lines, es, i, j);
          ExtractErrPrefix(before + [p], Probes(lines, es));
          assert lines[..|lines|] == lines;
          return Err(match_.error);
        }
        ExtractSnocOk(before, p, data, match_.value);
        if |match_.value| > 0 {
          data := data[es[j].name := match_.value];
        }
        j := j + 1;
        assert Extract(done + Row(lines[i], es[..j])) == Ok(data);
      }
      assert es[..|es|] == es;
      ProbesSnoc(lines, es, i);
      i := i + 1;
    }
    assert lines[..|lines|] == lines;
    return Ok(data);
  }

  // ---------------------------------------------------------------------------
  // Block parser
  // ---------------------------------------------------------------------------

  /**
   * The block a line opens when no block is open: the first, in list order,
   * whose start pattern matches it, and None when no block does.
   */
  function StartingBlock(bs: seq<TextBlock>, line: string): (r: Option<nat>)
    ensures r.Some? ==> r.value < |bs| && MatchesStartPattern(bs[r.value], line)
    ensures r.Some? ==> forall j :: 0 <= j < r.value ==> !MatchesStartPattern(bs[j], line)
    ensures r.None? <==> forall j :: 0 <= j < |bs| ==> !MatchesStartPattern(bs[j], line)
  {
    if bs == [] then None
    else if MatchesStartPattern(bs[0], line) then Some(0)
    else
      match StartingBlock(bs[1..], line)
      case None => None
      case Some(k) => Some(k + 1)
  }

  lemma {:induction false} StartingBlockFirst(bs: seq<TextBlock>, line: string, i: nat)
    requires i < |bs| && MatchesStartPattern(bs[i], line)
    requires forall j :: 0 <= j < i ==> !MatchesStartPattern(bs[j], line)
    ensures StartingBlock(bs, line) == Some(i)
  {
    match StartingBlock(bs, line)
    case None =>
    case Some(k) =>
  }

  /** The lines of the open occurrence of a block, starting with the line that opened it. */
  datatype Segment = Segment(block: nat, lines: seq<string>)

  /**
   * A finished occurrence: its lines, each buffered with a trailing `'\n'`,
   * and the line that ended it, buffered without one.
   */
  datatype Occurrence = Occurrence(block: nat, lines: seq<string>, closer: string)

  /** The buffer handed to `TextBlock.parse` for an occurrence. */
  function Buffer(o: Occurrence): string
  {
    Render(o.lines) + o.closer
  }

  /** The occurrences closed by a repeated start line so far, and the open one. */
  datatype ScanState = ScanState(done: seq<Occurrence>, open: Option<Segment>)

  predicate ValidOccurrences(bs: seq<TextBlock>, occs: seq<Occurrence>)
  {
    forall i :: 0 <= i < |occs| ==> occs[i].block < |bs|
  }

  predicate ValidScan(bs: seq<TextBlock>, st: ScanState)
  {
    && ValidOccurrences(bs, st.done)
    && (st.open.Some? ==> st.open.value.block < |bs| && st.open.value.lines != [])
  }

  /**
   * How `BlockParser.parse` reads its input lines: with no block open, a line
   * opens the first block whose start pattern it matches and is otherwise
   * dropped; with a block open, a line matching that block's own start pattern
   * closes the occurrence, and any other line, even one starting another
   * block, extends it.
   */
  function Scan(bs: seq<TextBlock>, ls: seq<string>): (st: ScanState)
    ensures ValidScan(bs, st)
    ensures ls == [] ==> st == ScanState([], None)
    decreases |ls|
  {
    if ls == [] then ScanState([], None) else Step(bs, Scan(bs, ls[..|ls| - 1]), ls[|ls| - 1])
  }

  /** The state after one more line is read. */
  function Step(bs: seq<TextBlock>, st: ScanState, line: string): (st': ScanState)
    requires ValidScan(bs, st)
    ensures ValidScan(bs, st')
  {
    match st.open
    case Some(s) =>
      if MatchesStartPattern(bs[s.block], line) then ScanState(st.done + [Occurrence(s.block, s.lines, line)], None)
      else ScanState(st.done, Some(Segment(s.block, s.lines + [line])))
    case None =>
      match StartingBlock(bs, line)
      case Some(k) => ScanState(st.done, Some(Segment(k, [line])))
      case None => st
  }

  /**
   * The occurrences `BlockParser.parse` hands to `TextBlock.parse`, in order:
   * the closed ones, then the one still open at the end of the input, whose
   * buffer gets the last line read once more.
   */
  function Occurrences(bs: seq<TextBlock>, ls: seq<string>): (occs: seq<Occurrence>)
    ensures ValidOccurrences(bs, occs)
  {
    var st := Scan(bs, ls);
    match st.open
    case None => st.done
    case Some(s) => st.done + [Occurrence(s.block, s.lines, ls[|ls| - 1])]
  }

  /** The records list of `name` (empty when there is none yet). */
  function Get(blocks: Blocks, name: string): seq<Data>
  {
    if name in blocks then blocks[name] else []
  }

  /** The records one dictionary contributes: none when it is empty. */
  function Records(d: Data): seq<Data>
  {
    if |d| > 0 then [d] else []
  }

  /**
   * Saving the dictionary of an occurrence: the list of `name` is created if
   * needed, whatever the dictionary, and a non-empty dictionary is appended.
   */
  function Store(blocks: Blocks, name: string, d: Data): (r: Blocks)
    ensures name in r
    ensures Get(r, name) == Get(blocks, name) + Records(d)
    ensures forall n :: n != name ==> Get(r, n) == Get(blocks, n)
  {
    blocks[name := Get(blocks, name) + Records(d)]
  }

  /** Saving adds exactly the key `name`. */
  lemma {:induction false} StoreKeys(blocks: Blocks, name: string, d: Data)
    ensures forall n :: n in Store(blocks, name, d) <==> n in blocks || n == name
  {
  }

  /** Finalising one occurrence of `b` whose buffer is `text`. */
  function Finalise(b: TextBlock, text: string, blocks: Blocks): (r: Result<Blocks, Error>)
    ensures r.Err? <==> ParsedBlock(b, text).Err?
    ensures r.Ok? ==> b.name in r.value
    ensures r.Ok? ==> forall n :: n != b.name ==> Get(r.value, n) == Get(blocks, n)
    ensures r.Ok? ==> Get(r.value, b.name) == Get(blocks, b.name) + Records(ParsedBlock(b, text).value)
  {
    match ParsedBlock(b, text)
    case Err(e) => Err(e)
    case Ok(data) => Ok(Store(blocks, b.name, data))
  }

  /**
   * The result of finalising the occurrences in order, each with its block,
   * the first exception aborting.
   */
  function Collect(bs: seq<TextBlock>, occs: seq<Occurrence>): (r: Result<Blocks, Error>)
    requires ValidOccurrences(bs, occs)
    decreases |occs|
  {
    if occs == [] then Ok(map[])
    else
      var o := occs[|occs| - 1];
      assert ValidOccurrences(bs, occs[..|occs| - 1]);
      match Collect(bs, occs[..|occs| - 1])
      case Err(e) => Err(e)
      case Ok(blocks) => Finalise(bs[o.block], Buffer(o), blocks)
  }

  /** What `BlockParser.parse` returns for the lines read from its input. */
  function ParseLines(bs: seq<TextBlock>, ls: seq<string>): Result<Blocks, Error>
  {
    Collect(bs, Occurrences(bs, ls))
  }

  /** What `BlockParser.parse` returns for the input string `text`. */
  function ParseText(bs: seq<TextBlock>, text: string): Result<Blocks, Error>
  {
    ParseLines(bs, Lines(text, true))
  }

  // ---------------------------------------------------------------------------
  // Properties of the scan
  // ---------------------------------------------------------------------------

  lemma {:induction false} ScanSnoc(bs: seq<TextBlock>, ls: seq<string>, line: string)
    ensures Scan(bs, ls + [line]) == Step(bs, Scan(bs, ls), line)
  {
    assert (ls + [line])[..|ls|] == ls;
  }

  lemma {:induction false} ScanAt(bs: seq<TextBlock>, ls: seq<string>, i: nat)
    requires i < |ls|
    ensures Scan(bs, ls[..i + 1]) == Step(bs, Scan(bs, ls[..i]), ls[i])
  {
    assert ls[..i + 1] == ls[..i] + [ls[i]];
    ScanSnoc(bs, ls[..i], ls[i]);
  }

  /**
   * With a block open, a line matching that block's start pattern closes the
   * occurrence, with the line as its closer, and leaves no block open, even
   * when the line also starts a block.
   */
  lemma {:induction false} ScanClose(bs: seq<TextBlock>, ls: seq<string>, line: string)
    requires Scan(bs, ls).open.Some?
    requires MatchesStartPattern(bs[Scan(bs, ls).open.value.block], line)
    ensures var st := Scan(bs, ls); var s := st.open.value;
      Scan(bs, ls + [line]) == ScanState(st.done + [Occurrence(s.block, s.lines, line)], None)
  {
    ScanSnoc(bs, ls, line);
  }

  /**
   * With a block open, only that block's own start pattern is consulted: any
   * other line, including a start line of another block, extends the
   * occurrence.
   */
  lemma {:induction false} ScanOwnStartOnly(bs: seq<TextBlock>, ls: seq<string>, line: string)
    requires Scan(bs, ls).open.Some?
    requires !MatchesStartPattern(bs[Scan(bs, ls).open.value.block], line)
    ensures var st := Scan(bs, ls); var s := st.open.value;
      Scan(bs, ls + [line]) == ScanState(st.done, Some(Segment(s.block, s.lines + [line])))
  {
    ScanSnoc(bs, ls, line);
  }

  /** An occurrence opened by its first line and not ended by any of the others. */
  predicate WellFormedSegment(bs: seq<TextBlock>, s: Segment)
  {
    && s.block < |bs|
    && s.lines != []
    && StartingBlock(bs, s.lines[0]) == Some(s.block)
    && forall j :: 1 <= j < |s.lines| ==> !MatchesStartPattern(bs[s.block], s.lines[j])
  }

  /** A closed occurrence: well formed, and ended by a repeat of its block's start pattern. */
  predicate WellFormedClosed(bs: seq<TextBlock>, o: Occurrence)
  {
    WellFormedSegment(bs, Segment(o.block, o.lines)) && MatchesStartPattern(bs[o.block], o.closer)
  }

  predicate AllClosed(bs: seq<TextBlock>, occs: seq<Occurrence>)
  {
    forall i :: 0 <= i < |occs| ==> WellFormedClosed(bs, occs[i])
  }

  /**
   * Every occurrence starts with a line opening its block (the first block
   * matching it), contains no further line matching its own start pattern,
   * and, once closed, was closed by a line matching that pattern. The open
   * occurrence ends with the last line read.
   */
  lemma {:induction false} ScanWellFormed(bs: seq<TextBlock>, ls: seq<string>)
    ensures AllClosed(bs, Scan(bs, ls).done)
    ensures Scan(bs, ls).open.Some? ==>
      var s := Scan(bs, ls).open.value;
      WellFormedSegment(bs, s) && s.lines[|s.lines| - 1] == ls[|ls| - 1]
    decreases |ls|
  {
    if ls != [] {
      var n := |ls| - 1;
      ScanWellFormed(bs, ls[..n]);
      StepWellFormed(bs, Scan(bs, ls[..n]), ls[n]);
    }
  }

  lemma {:induction false} StepWellFormed(bs: seq<TextBlock>, st: ScanState, line: string)
    requires ValidScan(bs, st) && AllClosed(bs, st.done)
    requires st.open.Some? ==> WellFormedSegment(bs, st.open.value)
    ensures AllClosed(bs, Step(bs, st, line).done)
    ensures Step(bs, st, line).open.Some? ==>
      var s := Step(bs, st, line).open.value;
      WellFormedSegment(bs, s) && s.lines[|s.lines| - 1] == line
  {
    match st.open
    case Some(s) =>
      if MatchesStartPattern(bs[s.block], line) {
        AllClosedSnoc(bs, st.done, Occurrence(s.block, s.lines, line));
      } else {
        var ext := Segment(s.block, s.lines + [line]);
        forall j | 1 <= j < |ext.lines| ensures !MatchesStartPattern(bs[s.block], ext.lines[j]) {
          if j < |s.lines| {
            assert ext.lines[j] == s.lines[j];
          }
        }
      }
    case None =>
  }

  lemma {:induction false} AllClosedSnoc(bs: seq<TextBlock>, occs: seq<Occurrence>, o: Occurrence)
    requires AllClosed(bs, occs) && WellFormedClosed(bs, o)
    ensures AllClosed(bs, occs + [o])
  {
    var all := occs + [o];
    forall i | 0 <= i < |all| ensures WellFormedClosed(bs, all[i]) {
      if i < |occs| {
        assert all[i] == occs[i];
      }
    }
  }

  /**
   * At the end of the input, the buffer of the occurrence still open holds the
   * last line twice: once with its `'\n'` and once more without.
   */
  lemma {:induction false} OccurrencesLastLineTwice(bs: seq<TextBlock>, ls: seq<string>)
    requires Scan(bs, ls).open.Some?
    ensures var occs := Occurrences(bs, ls); var last := ls[|ls| - 1];
      && occs != []
      && Buffer(occs[|occs| - 1]) == Render(Scan(bs, ls).open.value.lines[..|Scan(bs, ls).open.value.lines| - 1]) + last + "\n" + last
  {
    ScanWellFormed(bs, ls);
    var s := Scan(bs, ls).open.value;
    var m := |s.lines| - 1;
    assert s.lines == s.lines[..m] + [s.lines[m]];
    RenderSnoc(s.lines[..m], s.lines[m]);
  }

  /** Lines that start no block, read with no block open, are dropped. */
  lemma {:induction false} ScanSkipAll(bs: seq<TextBlock>, pre: seq<string>)
    requires forall i :: 0 <= i < |pre| ==> StartingBlock(bs, pre[i]).None?
    ensures Scan(bs, pre) == ScanState([], None)
    decreases |pre|
  {
    if pre != [] {
      var n := |pre| - 1;
      assert forall i :: 0 <= i < n ==> pre[..n][i] == pre[i];
      ScanSkipAll(bs, pre[..n]);
    }
  }

  /** Lines before the first start line do not change the scan. */
  lemma {:induction false} ScanIgnoreLeading(bs: seq<TextBlock>, pre: seq<string>, ls: seq<string>)
    requires forall i :: 0 <= i < |pre| ==> StartingBlock(bs, pre[i]).None?
    ensures Scan(bs, pre + ls) == Scan(bs, ls)
    decreases |ls|
  {
    if ls == [] {
      assert pre + ls == pre;
      ScanSkipAll(bs, pre);
    } else {
      var n := |ls| - 1;
      ScanIgnoreLeading(bs, pre, ls[..n]);
      assert (pre + ls)[..|pre| + n] == pre + ls[..n];
    }
  }

  /** Lines before the first start line do not change the occurrences. */
  lemma {:induction false} OccurrencesIgnoreLeading(bs: seq<TextBlock>, pre: seq<string>, ls: seq<string>)
    requires forall i :: 0 <= i < |pre| ==> StartingBlock(bs, pre[i]).None?
    ensures Occurrences(bs, pre + ls) == Occurrences(bs, ls)
  {
    ScanIgnoreLeading(bs, pre, ls);
    if Scan(bs, ls).open.Some? {
      assert (pre + ls)[|pre + ls| - 1] == ls[|ls| - 1];
    }
  }

  /** Occurrences, once closed, stay closed: the closed ones only grow. */
  lemma {:induction false} ScanDoneGrows(bs: seq<TextBlock>, ls: seq<string>, i: nat)
    requires i <= |ls|
    ensures Scan(bs, ls[..i]).done <= Scan(bs, ls).done
    decreases |ls| - i
  {
    if i < |ls| {
      ScanAt(bs, ls, i);
      ScanDoneGrows(bs, ls, i + 1);
    } else {
      assert ls[..i] == ls;
    }
  }

  /** The occurrences closed after `i` lines come first among all occurrences. */
  lemma {:induction false} ScanDonePrefix(bs: seq<TextBlock>, ls: seq<string>, i: nat)
    requires i <= |ls|
    ensures Scan(bs, ls[..i]).done <= Occurrences(bs, ls)
  {
    ScanDoneGrows(bs, ls, i);
  }

  // ---------------------------------------------------------------------------
  // Properties of the collected records
  // ---------------------------------------------------------------------------

  lemma {:induction false} CollectSnoc(bs: seq<TextBlock>, occs: seq<Occurrence>, o: Occurrence)
    requires ValidOccurrences(bs, occs + [o])
    ensures ValidOccurrences(bs, occs) && o.block < |bs|
    ensures Collect(bs, occs + [o]) ==
      match Collect(bs, occs)
      case Err(e) => Err(e)
      case Ok(blocks) => Finalise(bs[o.block], Buffer(o), blocks)
  {
    assert (occs + [o])[..|occs|] == occs;
    assert (occs + [o])[|occs|] == o;
  }

  /** The last step of `Collect`: the last occurrence is finalised after the others. */
  lemma {:induction false} CollectLast(bs: seq<TextBlock>, occs: seq<Occurrence>)
    requires ValidOccurrences(bs, occs) && occs != []
    ensures ValidOccurrences(bs, occs[..|occs| - 1]) && occs[|occs| - 1].block < |bs|
    ensures Collect(bs, occs) ==
      match Collect(bs, occs[..|occs| - 1])
      case Err(e) => Err(e)
      case Ok(blocks) => Finalise(bs[occs[|occs| - 1].block], Buffer(occs[|occs| - 1]), blocks)
  {
    assert ValidOccurrences(bs, occs[..|occs| - 1]);
  }

  /** Once a prefix of the occurrences raises, the whole parse raises the same exception. */
  lemma {:induction false} CollectErrPrefix(bs: seq<TextBlock>, a: seq<Occurrence>, b: seq<Occurrence>)
    requires ValidOccurrences(bs, b) && a <= b
    requires ValidOccurrences(bs, a) && Collect(bs, a).Err?
    ensures Collect(bs, b) == Collect(bs, a)
    decreases |b|
  {
    if |a| < |b| {
      PrefixFront(a, b);
      CollectErrLast(bs, b);
      CollectErrPrefix(bs, a, b[..|b| - 1]);
    } else {
      assert a == b;
    }
  }

  /** An exception before the last occurrence is the result. */
  lemma {:induction false} CollectErrLast(bs: seq<TextBlock>, occs: seq<Occurrence>)
    requires ValidOccurrences(bs, occs) && occs != []
    ensures ValidOccurrences(bs, occs[..|occs| - 1])
    ensures Collect(bs, occs[..|occs| - 1]).Err? ==> Collect(bs, occs) == Collect(bs, occs[..|occs| - 1])
  {
    CollectLast(bs, occs);
  }

  /** The number of occurrences of blocks named `name`. */
  function Named(bs: seq<TextBlock>, occs: seq<Occurrence>, name: string): nat
    requires ValidOccurrences(bs, occs)
    decreases |occs|
  {
    if occs == [] then 0
    else
      assert ValidOccurrences(bs, occs[..|occs| - 1]);
      Named(bs, occs[..|occs| - 1], name) + if bs[occs[|occs| - 1].block].name == name then 1 else 0
  }

  /** Finalising an occurrence of `b` adds exactly the key of `b`'s name. */
  lemma {:induction false} FinaliseKeys(b: TextBlock, text: string, blocks: Blocks)
    requires Finalise(b, text, blocks).Ok?
    ensures forall n :: n in Finalise(b, text, blocks).value <==> n in blocks || n == b.name
  {
    StoreKeys(blocks, b.name, ParsedBlock(b, text).value);
  }

  /** Some occurrence in `occs` is of a block named `n`. */
  predicate HasOccurrence(bs: seq<TextBlock>, occs: seq<Occurrence>, n: string)
    requires ValidOccurrences(bs, occs)
  {
    exists i :: 0 <= i < |occs| && bs[occs[i].block].name == n
  }

  lemma {:induction false} HasOccurrenceLast(bs: seq<TextBlock>, occs: seq<Occurrence>, n: string)
    requires ValidOccurrences(bs, occs) && occs != []
    ensures ValidOccurrences(bs, occs[..|occs| - 1])
    ensures HasOccurrence(bs, occs, n) <==>
      HasOccurrence(bs, occs[..|occs| - 1], n) || bs[occs[|occs| - 1].block].name == n
  {
    var k := |occs| - 1;
    var front := occs[..k];
    assert forall i :: 0 <= i < k ==> front[i] == occs[i];
    if HasOccurrence(bs, occs, n) && bs[occs[k].block].name != n {
      var i :| 0 <= i < |occs| && bs[occs[i].block].name == n;
      assert bs[front[i].block].name == n;
    }
  }

  /**
   * Every close creates the key of its block: the keys of the result are
   * exactly the names of the blocks that had an occurrence, even those whose
   * every buffer parsed to `{}`.
   */
  lemma {:induction false} CollectKeys(bs: seq<TextBlock>, occs: seq<Occurrence>)
    requires ValidOccurrences(bs, occs) && Collect(bs, occs).Ok?
    ensures forall n :: n in Collect(bs, occs).value <==> HasOccurrence(bs, occs, n)
    decreases |occs|
  {
    if occs != [] {
      var k := |occs| - 1;
      var front := occs[..k];
      var o := occs[k];
      CollectLast(bs, occs);
      CollectKeys(bs, front);
      FinaliseKeys(bs[o.block], Buffer(o), Collect(bs, front).value);
      forall n ensures n in Collect(bs, occs).value <==> HasOccurrence(bs, occs, n) {
        HasOccurrenceLast(bs, occs, n);
      }
    }
  }

  /** Every record in the result is a non-empty dictionary. */
  predicate WellShaped(blocks: Blocks)
  {
    forall n :: n in blocks ==> forall k :: 0 <= k < |blocks[n]| ==> |blocks[n][k]| > 0
  }

  lemma {:induction false} FinaliseShape(b: TextBlock, text: string, blocks: Blocks)
    requires WellShaped(blocks)
    ensures Finalise(b, text, blocks).Ok? ==> WellShaped(Finalise(b, text, blocks).value)
  {
    var r := Finalise(b, text, blocks);
    if r.Ok? {
      FinaliseKeys(b, text, blocks);
      forall n | n in r.value
        ensures forall k :: 0 <= k < |r.value[n]| ==> |r.value[n][k]| > 0
      {
        assert Get(r.value, n) == r.value[n];
      }
    }
  }

  /** Only non-empty dictionaries are recorded; a list of the result may be empty. */
  lemma {:induction false} CollectShape(bs: seq<TextBlock>, occs: seq<Occurrence>)
    requires ValidOccurrences(bs, occs) && Collect(bs, occs).Ok?
    ensures WellShaped(Collect(bs, occs).value)
    decreases |occs|
  {
    if occs != [] {
      var k := |occs| - 1;
      var front := occs[..k];
      var o := occs[k];
      CollectLast(bs, occs);
      CollectShape(bs, front);
      FinaliseShape(bs[o.block], Buffer(o), Collect(bs, front).value);
    }
  }

  lemma {:induction false} FinaliseCount(b: TextBlock, text: string, blocks: Blocks, name: string)
    requires Finalise(b, text, blocks).Ok?
    ensures |Get(Finalise(b, text, blocks).value, name)| <= |Get(blocks, name)| + if b.name == name then 1 else 0
  {
  }

  /** Each list holds at most one record per occurrence of a block of that name. */
  lemma {:induction false} CollectCount(bs: seq<TextBlock>, occs: seq<Occurrence>, name: string)
    requires ValidOccurrences(bs, occs) && Collect(bs, occs).Ok?
    ensures |Get(Collect(bs, occs).value, name)| <= Named(bs, occs, name)
    decreases |occs|
  {
    if occs != [] {
      var k := |occs| - 1;
      var front := occs[..k];
      var o := occs[k];
      CollectLast(bs, occs);
      CollectCount(bs, front, name);
      FinaliseCount(bs[o.block], Buffer(o), Collect(bs, front).value, name);
    }
  }

  /** Records appear in the order their occurrences were closed. */
  lemma {:induction false} CollectOrder(bs: seq<TextBlock>, occs: seq<Occurrence>, o: Occurrence)
    requires ValidOccurrences(bs, occs + [o]) && Collect(bs, occs + [o]).Ok?
    ensures Collect(bs, occs).Ok?
    ensures var name := bs[o.block].name;
      Get(Collect(bs, occs + [o]).value, name)
        == Get(Collect(bs, occs).value, name) + Records(ParsedBlock(bs[o.block], Buffer(o)).value)
  {
    CollectSnoc(bs, occs, o);
  }

  lemma {:induction false} ParseLinesKeys(bs: seq<TextBlock>, ls: seq<string>)
    requires ParseLines(bs, ls).Ok?
    ensures forall n :: n in ParseLines(bs, ls).value <==> HasOccurrence(bs, Occurrences(bs, ls), n)
  {
    CollectKeys(bs, Occurrences(bs, ls));
  }

  lemma {:induction false} ParseLinesShape(bs: seq<TextBlock>, ls: seq<string>)
    requires ParseLines(bs, ls).Ok?
    ensures WellShaped(ParseLines(bs, ls).value)
  {
    CollectShape(bs, Occurrences(bs, ls));
  }

  lemma {:induction false} ParseLinesCount(bs: seq<TextBlock>, ls: seq<string>, name: string)
    requires ParseLines(bs, ls).Ok?
    ensures |Get(ParseLines(bs, ls).value, name)| <= Named(bs, Occurrences(bs, ls), name)
  {
    CollectCount(bs, Occurrences(bs, ls), name);
  }

  lemma {:induction false} ParseLinesIgnoreLeading(bs: seq<TextBlock>, pre: seq<string>, ls: seq<string>)
    requires forall i :: 0 <= i < |pre| ==> StartingBlock(bs, pre[i]).None?
    ensures ParseLines(bs, pre + ls) == ParseLines(bs, ls)
  {
    OccurrencesIgnoreLeading(bs, pre, ls);
  }

  // ---------------------------------------------------------------------------
  // The parser objects
  // ---------------------------------------------------------------------------

  /**
   * The state `BlockParser.parse` keeps after reading the first `i` lines of
   * `ls`: the open block and its `inblock` flag, its buffer, and the records
   * of the occurrences already closed.
   */
  ghost predicate ParseState(bs: seq<TextBlock>, ls: seq<string>, i: nat, currblock: Option<nat>, inblock: bool,
                             buffer: string, blocks: Blocks)
    requires i <= |ls|
  {
    OpenState(bs, Scan(bs, ls[..i]), currblock, inblock, buffer, blocks)
  }

  /**
   * The parser's state for the scan state `st`: `inblock` is set exactly when
   * a block is open, the open occurrence's lines are in `buffer`, and
   * `blocks` holds the records of the closed ones.
   */
  ghost predicate OpenState(bs: seq<TextBlock>, st: ScanState, currblock: Option<nat>, inblock: bool, buffer: string, blocks: Blocks)
  {
    && ValidScan(bs, st)
    && inblock == currblock.Some?
    && currblock == (if st.open.Some? then Some(st.open.value.block) else None)
    && buffer == (if st.open.Some? then Render(st.open.value.lines) else "")
    && Collect(bs, st.done) == Ok(blocks)
  }

  lemma {:induction false} ParseStart(bs: seq<TextBlock>, ls: seq<string>)
    ensures ParseState(bs, ls, 0, None, false, "", map[])
  {
    assert ls[..0] == [];
  }

  /** With a block open, a line not matching its start pattern extends the buffer. */
  lemma {:induction false} OpenStateExtend(bs: seq<TextBlock>, st: ScanState, c: nat, buffer: string, blocks: Blocks, line: string)
    requires OpenState(bs, st, Some(c), true, buffer, blocks)
    requires c < |bs| && !MatchesStartPattern(bs[c], line)
    ensures OpenState(bs, Step(bs, st, line), Some(c), true, buffer + (line + "\n"), blocks)
  {
    RenderSnoc(st.open.value.lines, line);
    assert buffer + line + "\n" == buffer + (line + "\n");
  }

  /** With no block open, a start line opens its block. */
  lemma {:induction false} OpenStateOpen(bs: seq<TextBlock>, st: ScanState, buffer: string, blocks: Blocks, line: string, k: nat)
    requires OpenState(bs, st, None, false, buffer, blocks)
    requires StartingBlock(bs, line) == Some(k)
    ensures OpenState(bs, Step(bs, st, line), Some(k), true, buffer + (line + "\n"), blocks)
  {
    RenderSingle(line);
  }

  /** With no block open, any other line is dropped. */
  lemma {:induction false} OpenStateSkip(bs: seq<TextBlock>, st: ScanState, buffer: string, blocks: Blocks, line: string)
    requires OpenState(bs, st, None, false, buffer, blocks)
    requires StartingBlock(bs, line).None?
    ensures OpenState(bs, Step(bs, st, line), None, false, buffer, blocks)
  {
  }

  /**
   * With a block open, a line matching its start pattern ends the buffer and
   * finalises the occurrence, to `closed`; afterwards no block is open.
   */
  lemma {:induction false} OpenStateClose(bs: seq<TextBlock>, st: ScanState, c: nat, buffer: string, blocks: Blocks, line: string,
                                          closed: Result<Blocks, Error>)
    requires OpenState(bs, st, Some(c), true, buffer, blocks)
    requires c < |bs| && MatchesStartPattern(bs[c], line)
    requires closed == Finalise(bs[c], buffer + line, blocks)
    ensures Collect(bs, Step(bs, st, line).done) == closed
    ensures closed.Ok? ==> OpenState(bs, Step(bs, st, line), None, false, "", closed.value)
  {
    var s := st.open.value;
    CollectSnoc(bs, st.done, Occurrence(s.block, s.lines, line));
  }

  /** An exception while finalising the occurrences closed by line `i` ends the parse. */
  lemma {:induction false} ParseErr(bs: seq<TextBlock>, ls: seq<string>, i: nat)
    requires i < |ls| && Collect(bs, Scan(bs, ls[..i + 1]).done).Err?
    ensures ParseLines(bs, ls) == Collect(bs, Scan(bs, ls[..i + 1]).done)
  {
    ScanDonePrefix(bs, ls, i + 1);
    CollectErrPrefix(bs, Scan(bs, ls[..i + 1]).done, Occurrences(bs, ls));
  }

  /** At the end of the input, without an open block, the records are the result. */
  lemma {:induction false} ParseFinishNone(bs: seq<TextBlock>, ls: seq<string>, buffer: string, blocks: Blocks)
    requires ParseState(bs, ls, |ls|, None, false, buffer, blocks)
    ensures ParseLines(bs, ls) == Ok(blocks)
  {
    assert ls[..|ls|] == ls;
  }

  /**
   * At the end of the input the open occurrence gets the last line once more
   * and is finalised, to `closed`.
   */
  lemma {:induction false} ParseFinishOpen(bs: seq<TextBlock>, ls: seq<string>, c: nat, buffer: string, blocks: Blocks,
                                           closed: Result<Blocks, Error>)
    requires ParseState(bs, ls, |ls|, Some(c), true, buffer, blocks)
    ensures ls != [] && c < |bs|
    ensures closed == Finalise(bs[c], buffer + ls[|ls| - 1], blocks) ==> ParseLines(bs, ls) == closed
  {
    assert ls[..|ls|] == ls;
    var st := Scan(bs, ls);
    var s := st.open.value;
    CollectSnoc(bs, st.done, Occurrence(s.block, s.lines, ls[|ls| - 1]));
  }

  /**
   * The step `BlockParser.parse` takes when an occurrence of `b` ends: the
   * list of the block's name is created if needed, the buffer is parsed, and
   * a non-empty dictionary is appended.
   */
  method CloseBlock(b: TextBlock, buffer: string, blocks: Blocks) returns (r: Result<Blocks, Error>)
    ensures r == Finalise(b, buffer, blocks)
  {
    var blocks' := blocks;
    if b.name !in blocks' {
      blocks' := blocks'[b.name := []];
    }
    assert blocks' == blocks[b.name := Get(blocks, b.name)];
    var result := ParseBlock(b, buffer);
    if result.Err? {
      return Err(result.error);
    }
    if |result.value| > 0 {
      blocks' := blocks'[b.name := blocks'[b.name] + [result.value]];
    }
    if |result.value| == 0 {
      assert Get(blocks, b.name) + Records(result.value) == Get(blocks, b.name);
    }
    assert blocks' == Store(blocks, b.name, result.value);
    return Ok(blocks');
  }

  /**
   * `Parser` and `BlockParser`: the line counter and input string of the
   * base class, and the list of blocks the parser looks for.
   */
  class BlockParser {
    var linenum: nat
    var inputstr: string
    const textblocks: seq<TextBlock>

    constructor (text: string, textblocks: seq<TextBlock>)
      ensures inputstr == text && this.textblocks == textblocks && linenum == 0
    {
      inputstr := text;
      linenum := 0;
      this.textblocks := textblocks;
    }

    method SetInputstr(inputstr: string)
      modifies this`inputstr
      ensures this.inputstr == inputstr
    {
      this.inputstr := inputstr;
    }

    /** All the lines `read_lines(strip)` yields, each one counted in `linenum`. */
    method ReadLines(strip: bool) returns (lines: seq<string>)
      modifies this`linenum
      ensures lines == Lines(inputstr, strip)
      ensures linenum == old(linenum) + |lines|
    {
      var parts := Split(inputstr, '\n');
      lines := [];
      var i := 0;
      while i < |parts|
        invariant 0 <= i <= |parts| == |Lines(inputstr, strip)|
        invariant |lines| == i && forall k :: 0 <= k < i ==> lines[k] == Lines(inputstr, strip)[k]
        invariant linenum == old(linenum) + i
      {
        var line := NextLine(parts, i, strip);
        lines := lines + [line];
        i := i + 1;
      }
    }

    /**
     * One step of the generator `read_lines(strip)`: the `i`-th piece of the
     * input string, stripped when asked, is counted and yielded.
     */
    method NextLine(parts: seq<string>, i: nat, strip: bool) returns (line: string)
      requires parts == Split(inputstr, '\n') && i < |parts|
      modifies this`linenum
      ensures line == Lines(inputstr, strip)[i]
      ensures linenum == old(linenum) + 1
    {
      line := parts[i];
      if strip {
        line := Strip(line);
      }
      linenum := linenum + 1;
    }

    /**
     * `BlockParser.parse()`. The lines are read one at a time, as the
     * generator `read_lines` yields them, so after an exception `linenum`
     * counts only the lines read so far.
     */
    method Parse() returns (r: Result<Blocks, Error>)
      modifies this`linenum
      ensures r == ParseText(textblocks, inputstr)
      ensures r.Ok? ==> linenum == old(linenum) + |Lines(inputstr, true)|
      ensures old(linenum) < linenum <= old(linenum) + |Lines(inputstr, true)|
    {
      var buffer := "";
      var blocks: Blocks := map[];
      var inblock := false;
      var currblock: Option<nat> := None;
      var parts := Split(inputstr, '\n');
      ghost var ls := Lines(inputstr, true);
      ParseStart(textblocks, ls);
      var line := "";
      var i := 0;
      while i < |parts|
        invariant 0 <= i <= |parts| == |ls|
        invariant linenum == old(linenum) + i
        invariant 0 < i ==> line == ls[i - 1]
        invariant ParseState(textblocks, ls, i, currblock, inblock, buffer, blocks)
      {
        line := NextLine(parts, i, true);
        var step := FeedLine(line, currblock, inblock, buffer, blocks, ls, i);
        if step.Err? {
          return Err(step.error);
        }
        currblock, inblock, buffer, blocks := step.value.0, step.value.1, step.value.2, step.value.3;
        i := i + 1;
      }
      assert ls[..i] == ls[..|ls|];
      r := FeedEnd(line, currblock, inblock, buffer, blocks, ls);
    }

    /**
     * The end of `BlockParser.parse`, after all the lines `ls` were read, the
     * last being `line`: an open occurrence gets `line` once more and is
     * finalised.
     */
    method FeedEnd(line: string, currblock: Option<nat>, inblock: bool, buffer: string, blocks: Blocks, ghost ls: seq<string>)
      returns (r: Result<Blocks, Error>)
      requires ParseState(textblocks, ls, |ls|, currblock, inblock, buffer, blocks)
      requires ls != [] ==> line == ls[|ls| - 1]
      ensures r == ParseLines(textblocks, ls)
    {
      if inblock {
        var c := currblock.value;
        ParseFinishOpen(textblocks, ls, c, buffer, blocks, Finalise(textblocks[c], buffer + line, blocks));
        var closing := buffer + line;
        r := CloseBlock(textblocks[c], closing, blocks);
      } else {
        ParseFinishNone(textblocks, ls, buffer, blocks);
        r := Ok(blocks);
      }
    }

    /**
     * One pass of the loop of `BlockParser.parse`, for `line`, the `i`-th line
     * of `ls`: the open block, the `inblock` flag, the buffer and the records
     * afterwards, or the exception a finalised occurrence raised.
     */
    method FeedLine(line: string, currblock: Option<nat>, inblock: bool, buffer: string, blocks: Blocks,
                    ghost ls: seq<string>, ghost i: nat)
      returns (r: Result<(Option<nat>, bool, string, Blocks), Error>)
      requires i < |ls| && line == ls[i]
      requires ParseState(textblocks, ls, i, currblock, inblock, buffer, blocks)
      ensures r.Err? ==> ParseLines(textblocks, ls) == Err(r.error)
      ensures r.Ok? ==> ParseState(textblocks, ls, i + 1, r.value.0, r.value.1, r.value.2, r.value.3)
    {
      ghost var st := Scan(textblocks, ls[..i]);
      ScanAt(textblocks, ls, i);
      if currblock.Some? {
        var c := currblock.value;
        if MatchesStartPattern(textblocks[c], line) && inblock {
          var closing := buffer + line;
          var closed := CloseBlock(textblocks[c], closing, blocks);
          OpenStateClose(textblocks, st, c, buffer, blocks, line, closed);
          if closed.Err? {
            ParseErr(textblocks, ls, i);
            return Err(closed.error);
          }
          return Ok((None, false, "", closed.value));
        }
        // `inblock` holds whenever a block is open, so the source's `elif inblock` is taken.
        OpenStateExtend(textblocks, st, c, buffer, blocks, line);
        return Ok((currblock, inblock, buffer + (line + "\n"), blocks));
      }
      var k := 0;
      while k < |textblocks|
        invariant 0 <= k <= |textblocks|
        invariant forall j :: 0 <= j < k ==> !MatchesStartPattern(textblocks[j], line)
      {
        if MatchesStartPattern(textblocks[k], line) {
          StartingBlockFirst(textblocks, line, k);
          OpenStateOpen(textblocks, st, buffer, blocks, line, k);
          return Ok((Some(k), true, buffer + (line + "\n"), blocks));
        }
        k := k + 1;
      }
      OpenStateSkip(textblocks, st, buffer, blocks, line);
      return Ok((currblock, inblock, buffer, blocks));
    }
  }
}
