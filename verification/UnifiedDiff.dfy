/** Replay of a unified diff on a list of lines (scripts/tok_trace_reader.py), checked against a
    declarative reading of the format: POSIX.1 (IEEE Std 1003.1), utility diff,
    section "Diff -u or -U Output Format". */
module UnifiedDiff {
  import opened Text

  datatype ReplayError =
    | InvalidHunkHeader | ContextMismatch | RemovalMismatch | InvalidHunkLine | IndexError

  datatype Result<+T> = Ok(value: T) | Err(error: ReplayError)

  // ---------- Python indexing ----------

  /** The position a slice bound denotes in a list of n elements. */
  function SliceBound(n: nat, i: int): (r: nat)
    ensures r <= n
  {
    if i < 0 then if n + i < 0 then 0 else n + i
    else if i > n then n else i
  }

  /** `s[lo:hi]`, bounds of any sign. */
  function Slice<T>(s: seq<T>, lo: int, hi: int): seq<T> {
    var a, b := SliceBound(|s|, lo), SliceBound(|s|, hi);
    if a <= b then s[a..b] else []
  }

  /** `i >= len(base) or base[i] != expected`; a read below -len(base) raises. */
  function Expect(base: seq<string>, i: int, expected: string, error: ReplayError): Result<()> {
    if i >= |base| then Err(error)
    else if i < -|base| then Err(IndexError)
    else if base[if i < 0 then |base| + i else i] != expected then Err(error)
    else Ok(())
  }

  // ---------- Hunk headers ----------

  datatype Header = Header(oldStart: nat, newStart: nat)

  /** Length of the longest digit prefix of s. */
  function DigitPrefix(s: string): (n: nat)
    ensures n <= |s|
    ensures forall i :: 0 <= i < n ==> IsDigit(s[i])
    ensures n < |s| ==> !IsDigit(s[n])
  {
    if s == [] || !IsDigit(s[0]) then 0 else 1 + DigitPrefix(s[1..])
  }

  /** The optional `,\d+`. */
  function DropCount(s: string): string {
    if s != [] && s[0] == ',' && DigitPrefix(s[1..]) > 0 then s[1..][DigitPrefix(s[1..])..] else s
  }

  /** A pattern: literal text, a captured number, an optional count that is not captured. */
  datatype Pattern = End | Text(text: string, rest: Pattern) | Number(rest: Pattern) | Count(rest: Pattern)

  /** The captured numbers, if the pattern matches at the front of s. */
  function Match(s: string, p: Pattern): Option<seq<nat>>
    decreases p, |s|
  {
    match p
    case End => Some([])
    case Text(text, rest) => if StartsWith(s, text) then Match(s[|text|..], rest) else None
    case Count(rest) => Match(DropCount(s), rest)
    case Number(rest) =>
      var n := DigitPrefix(s);
      if n == 0 then None
      else
        match Match(s[n..], rest)
        case None => None
        case Some(numbers) => Some([DecimalValue(s[..n])] + numbers)
  }

  /** `^@@ -(\d+)(?:,\d+)? \+(\d+)(?:,\d+)? @@` */
  const NEW_RANGE := Text(" +", Number(Count(Text(" @@", End))))
  const HUNK_HEADER := Text("@@ -", Number(Count(NEW_RANGE)))

  function ParseHeader(line: string): Option<Header> {
    match Match(line, HUNK_HEADER)
    case None => None
    case Some(numbers) => if |numbers| == 2 then Some(Header(numbers[0], numbers[1])) else None
  }

  // ---------- The specification of replay: one step per diff line ----------

  datatype Line = Context(text: string) | Delete(text: string) | Insert(text: string) | Marker

  function ParseLine(line: string): Option<Line> {
    if line == "\n" || line == "\r\n" then Some(Context(line))
    else if StartsWith(line, " ") then Some(Context(line[1..]))
    else if StartsWith(line, "-") then Some(Delete(line[1..]))
    else if StartsWith(line, "+") then Some(Insert(line[1..]))
    else if StartsWith(line, "\\") then Some(Marker)
    else None
  }

  datatype Progress = Progress(pos: int, out: seq<string>)

  function ApplyLine(base: seq<string>, p: Progress, line: Line): Result<Progress> {
    match line
    case Context(text) =>
      (match Expect(base, p.pos, text, ContextMismatch)
       case Err(e) => Err(e)
       case Ok(_) => Ok(Progress(p.pos + 1, p.out + [text])))
    case Delete(text) =>
      (match Expect(base, p.pos, text, RemovalMismatch)
       case Err(e) => Err(e)
       case Ok(_) => Ok(Progress(p.pos + 1, p.out)))
    case Insert(text) => Ok(Progress(p.pos, p.out + [text]))
    case Marker => Ok(p)
  }

  function ApplyHunkLine(base: seq<string>, p: Progress, line: string): Result<Progress> {
    match ParseLine(line)
    case None => Err(InvalidHunkLine)
    case Some(l) => ApplyLine(base, p, l)
  }

  function EnterHunk(base: seq<string>, p: Progress, oldStart: nat): Progress {
    Progress(oldStart - 1, p.out + Slice(base, p.pos, oldStart - 1))
  }

  datatype Cursor = Cursor(inHunk: bool, at: Progress)

  function Step(base: seq<string>, c: Cursor, line: string): Result<Cursor> {
    if StartsWith(line, "@@ ") then
      match ParseHeader(line)
      case None => Err(InvalidHunkHeader)
      case Some(h) => Ok(Cursor(true, EnterHunk(base, c.at, h.oldStart)))
    else if !c.inHunk then Ok(c)
    else
      match ApplyHunkLine(base, c.at, line)
      case Err(e) => Err(e)
      case Ok(p) => Ok(Cursor(true, p))
  }

  function Run(base: seq<string>, lines: seq<string>): Result<Cursor> {
    if lines == [] then Ok(Cursor(false, Progress(0, [])))
    else Then(base, Run(base, lines[..|lines| - 1]), lines[|lines| - 1])
  }

  function Then(base: seq<string>, r: Result<Cursor>, line: string): Result<Cursor> {
    match r
    case Err(e) => r
    case Ok(c) => Step(base, c, line)
  }

  function Finish(base: seq<string>, p: Progress): seq<string> {
    p.out + base[SliceBound(|base|, p.pos)..]
  }

  function Replay(base: seq<string>, lines: seq<string>): Result<seq<string>> {
    match Run(base, lines)
    case Err(e) => Err(e)
    case Ok(c) => Ok(Finish(base, c.at))
  }

  /** The same run, continued from a cursor, one line at a time from the front. */
  function RunFrom(base: seq<string>, c: Cursor, lines: seq<string>): Result<Cursor>
    decreases |lines|
  {
    if lines == [] then Ok(c)
    else
      match Step(base, c, lines[0])
      case Err(e) => Err(e)
      case Ok(next) => RunFrom(base, next, lines[1..])
  }

  lemma {:induction false} RunFromSnoc(base: seq<string>, c: Cursor, lines: seq<string>, line: string)
    ensures RunFrom(base, c, lines + [line]) == Then(base, RunFrom(base, c, lines), line)
    decreases |lines|
  {
    if lines == [] {
      assert [] + [line] == [line] && [line][1..] == [];
    } else {
      assert (lines + [line])[1..] == lines[1..] + [line];
      var next := Step(base, c, lines[0]);
      if next.Ok? {
        RunFromSnoc(base, next.value, lines[1..], line);
      }
    }
  }

  lemma {:induction false} RunIsRunFrom(base: seq<string>, lines: seq<string>)
    ensures Run(base, lines) == RunFrom(base, Cursor(false, Progress(0, [])), lines)
    decreases |lines|
  {
    if lines != [] {
      var n := |lines| - 1;
      RunIsRunFrom(base, lines[..n]);
      RunFromSnoc(base, Cursor(false, Progress(0, [])), lines[..n], lines[n]);
      assert lines[..n] + [lines[n]] == lines;
    }
  }

  lemma DropNext<T>(s: seq<T>, i: nat)
    requires i < |s|
    ensures s[i..][0] == s[i] && s[i..][1..] == s[i + 1..]
  {
  }

  lemma FileHeaderIsNoHunk(line: string)
    requires StartsWith(line, "--- ") || StartsWith(line, "+++ ")
    ensures !StartsWith(line, "@@ ")
  {
    assert line[0] != '@';
  }

  // ---------- Which lines mean the same ----------

  predicate BareNewline(line: string) {
    line == "\n" || line == "\r\n"
  }

  /** A hunk refuses a line exactly if it is no bare newline and has no sign in front. */
  lemma RefusedIff(line: string)
    ensures ParseLine(line).None? <==>
            !BareNewline(line) && (line == "" || (line[0] != ' ' && line[0] != '-' && line[0] != '+' && line[0] != '\\'))
  {
    SignInFront(line, ' ');
    SignInFront(line, '-');
    SignInFront(line, '+');
    SignInFront(line, '\\');
  }

  lemma SignInFront(line: string, sign: char)
    ensures StartsWith(line, [sign]) <==> line != "" && line[0] == sign
  {
  }

  /** The error of a line that stops replay tells what the line is. */
  lemma ErrorTellsLine(base: seq<string>, p: Progress, line: string)
    requires ApplyHunkLine(base, p, line).Err?
    ensures match ApplyHunkLine(base, p, line).error
            case InvalidHunkLine => !BareNewline(line) && (line == "" || line[0] !in [' ', '-', '+', '\\'])
            case RemovalMismatch => line != "" && line[0] == '-'
            case ContextMismatch => BareNewline(line) || (line != "" && line[0] == ' ')
            case IndexError => p.pos < -|base|
            case InvalidHunkHeader => false
  {
    RefusedIff(line);
  }

  /** Two lines that take every cursor to the same place may stand for each other. */
  ghost predicate Alike(base: seq<string>, line: string, other: string) {
    forall c: Cursor :: Step(base, c, line) == Step(base, c, other)
  }

  lemma RunSnoc(base: seq<string>, lines: seq<string>, line: string)
    ensures Run(base, lines + [line]) == Then(base, Run(base, lines), line)
  {
    assert (lines + [line])[..|lines|] == lines;
  }

  /** One line more keeps two runs equal. */
  lemma RunsStayEqual(base: seq<string>, a: seq<string>, b: seq<string>, line: string, longA: seq<string>, longB: seq<string>)
    requires Run(base, a) == Run(base, b) && longA == a + [line] && longB == b + [line]
    ensures Run(base, longA) == Run(base, longB)
  {
    RunSnoc(base, a, line);
    RunSnoc(base, b, line);
  }

  /** The last line replaced. */
  lemma AlikeLast(base: seq<string>, front: seq<string>, last: string, line: string, a: seq<string>, b: seq<string>)
    requires Alike(base, last, line) && a == front + [last] && b == front + [line]
    ensures Run(base, b) == Run(base, a)
  {
    RunSnoc(base, front, last);
    RunSnoc(base, front, line);
  }

  lemma {:induction false} AlikeRun(base: seq<string>, diff: seq<string>, k: nat, line: string)
    requires k < |diff| && Alike(base, diff[k], line)
    ensures Run(base, diff[k := line]) == Run(base, diff)
    decreases |diff|
  {
    var n := |diff| - 1;
    var front := diff[..n];
    assert diff == front + [diff[n]];
    if k < n {
      AlikeRun(base, front, k, line);
      assert diff[k := line] == front[k := line] + [diff[n]];
      RunsStayEqual(base, front[k := line], front, diff[n], diff[k := line], diff);
    } else {
      assert diff[k := line] == front + [line];
      AlikeLast(base, front, diff[n], line, diff, diff[k := line]);
    }
  }

  lemma NewlineIsBlankLine(base: seq<string>, line: string)
    requires BareNewline(line)
    ensures Alike(base, line, " " + line)
  {
    var written := " " + line;
    assert written[0] == ' ' && written[1..] == line && |written| > |line|;
    assert !StartsWith(line, "@@ ") && !StartsWith(written, "@@ ");
    assert !BareNewline(written) && ParseLine(written) == ParseLine(line);
  }

  /** A bare newline is the empty context line that lost its blank: writing the blank changes nothing. */
  lemma BareNewlineIsContext(base: seq<string>, diff: seq<string>, k: nat)
    requires k < |diff| && BareNewline(diff[k])
    ensures Replay(base, diff[k := " " + diff[k]]) == Replay(base, diff)
  {
    NewlineIsBlankLine(base, diff[k]);
    AlikeRun(base, diff, k, " " + diff[k]);
  }

  /** A line that every cursor stays at. */
  ghost predicate Idle(base: seq<string>, line: string) {
    forall c: Cursor :: Step(base, c, line) == Ok(c)
  }

  lemma {:induction false} IdleRun(base: seq<string>, left: seq<string>, line: string, right: seq<string>)
    requires Idle(base, line)
    ensures Run(base, left + [line] + right) == Run(base, left + right)
    decreases |right|
  {
    if right == [] {
      RunSnoc(base, left, line);
      assert left + [line] + right == left + [line] && left + right == left;
    } else {
      var n := |right| - 1;
      IdleRun(base, left, line, right[..n]);
      assert left + [line] + right == left + [line] + right[..n] + [right[n]];
      assert left + right == left + right[..n] + [right[n]];
      RunsStayEqual(base, left + [line] + right[..n], left + right[..n], right[n], left + [line] + right, left + right);
    }
  }

  /** A note such as "No newline at end of file" may be left out. */
  lemma MarkerIgnored(base: seq<string>, left: seq<string>, line: string, right: seq<string>)
    requires StartsWith(line, "\\")
    ensures Replay(base, left + [line] + right) == Replay(base, left + right)
  {
    assert line[0] == '\\' && !StartsWith(line, "@@ ");
    assert ParseLine(line) == Some(Marker);
    IdleRun(base, left, line, right);
  }

  predicate NoHunkIn(lines: seq<string>) {
    forall i :: 0 <= i < |lines| ==> !StartsWith(lines[i], "@@ ")
  }

  lemma {:induction false} NothingBeforeHunks(base: seq<string>, lines: seq<string>)
    requires NoHunkIn(lines)
    ensures Run(base, lines) == Ok(Cursor(false, Progress(0, [])))
  {
    if lines != [] {
      NothingBeforeHunks(base, lines[..|lines| - 1]);
    }
  }

  /** Whatever stands in front of the first header, file headers among it, may be left out. */
  lemma PreambleIgnored(base: seq<string>, front: seq<string>, diff: seq<string>)
    requires NoHunkIn(front)
    ensures Replay(base, front + diff) == Replay(base, diff)
  {
    PreambleRun(base, front, diff);
  }

  lemma {:induction false} PreambleRun(base: seq<string>, front: seq<string>, diff: seq<string>)
    requires NoHunkIn(front)
    ensures Run(base, front + diff) == Run(base, diff)
    decreases |diff|
  {
    if diff == [] {
      assert front + diff == front;
      NothingBeforeHunks(base, front);
    } else {
      var n := |diff| - 1;
      PreambleRun(base, front, diff[..n]);
      assert front + diff == front + diff[..n] + [diff[n]] && diff == diff[..n] + [diff[n]];
      RunsStayEqual(base, front + diff[..n], diff[..n], diff[n], front + diff, diff);
    }
  }

  // ---------- The loops ----------

  /** One pass of the inner loop's body. */
  method ReplayHunkLine(base: seq<string>, baseIndex: int, output: seq<string>, hunkLine: string)
    returns (r: Result<Progress>)
    ensures r == ApplyHunkLine(base, Progress(baseIndex, output), hunkLine)
  {
    if hunkLine == "\n" || hunkLine == "\r\n" || StartsWith(hunkLine, " ") {
      var expected := if hunkLine == "\n" || hunkLine == "\r\n" then hunkLine else hunkLine[1..];
      var check := Expect(base, baseIndex, expected, ContextMismatch);
      if check.Err? {
        return Err(check.error);
      }
      return Ok(Progress(baseIndex + 1, output + [expected]));
    } else if StartsWith(hunkLine, "-") {
      var check := Expect(base, baseIndex, hunkLine[1..], RemovalMismatch);
      if check.Err? {
        return Err(check.error);
      }
      return Ok(Progress(baseIndex + 1, output));
    } else if StartsWith(hunkLine, "+") {
      return Ok(Progress(baseIndex, output + [hunkLine[1..]]));
    } else if StartsWith(hunkLine, "\\") {
      return Ok(Progress(baseIndex, output));
    }
    return Err(InvalidHunkLine);
  }

  /** The inner loop: the lines of one hunk, up to the next header or the end of the diff. */
  method ReplayHunk(base: seq<string>, diff: seq<string>, start: nat, at: Progress)
    returns (index: nat, r: Result<Progress>)
    requires start <= |diff|
    ensures start <= index <= |diff| && (r.Ok? && index < |diff| ==> StartsWith(diff[index], "@@ "))
    ensures RunFrom(base, Cursor(true, at), diff[start..])
            == if r.Ok? then RunFrom(base, Cursor(true, r.value), diff[index..]) else Err(r.error)
  {
    var baseIndex, output := at.pos, at.out;
    index := start;
    while index < |diff| && !StartsWith(diff[index], "@@ ")
      invariant start <= index <= |diff|
      invariant RunFrom(base, Cursor(true, at), diff[start..])
                == RunFrom(base, Cursor(true, Progress(baseIndex, output)), diff[index..])
    {
      var after := ReplayHunkLine(base, baseIndex, output, diff[index]);
      DropNext(diff, index);
      index := index + 1;
      if after.Err? {
        return index, Err(after.error);
      }
      baseIndex, output := after.value.pos, after.value.out;
    }
    return index, Ok(Progress(baseIndex, output));
  }

  /** The outer loop: the lines before the first hunk, and the hunk headers. */
  method ApplyUnifiedDiff(base: seq<string>, diff: seq<string>) returns (r: Result<seq<string>>)
    ensures r == Replay(base, diff)
  {
    RunIsRunFrom(base, diff);
    var output: seq<string> := [];
    var baseIndex, index := 0, 0;
    ghost var inHunk := false;
    while index < |diff|
      invariant 0 <= index <= |diff|
      invariant Run(base, diff) == RunFrom(base, Cursor(inHunk, Progress(baseIndex, output)), diff[index..])
      invariant inHunk && index < |diff| ==> StartsWith(diff[index], "@@ ")
    {
      var line := diff[index];
      DropNext(diff, index);
      index := index + 1;
      if StartsWith(line, "--- ") || StartsWith(line, "+++ ") {
        FileHeaderIsNoHunk(line);
        continue;
      }
      if !StartsWith(line, "@@ ") {
        continue;
      }
      var header := ParseHeader(line);
      if header.None? {
        return Err(InvalidHunkHeader);
      }
      var hunkStart := header.value.oldStart - 1;
      output := output + Slice(base, baseIndex, hunkStart);
      var after;
      index, after := ReplayHunk(base, diff, index, Progress(hunkStart, output));
      if after.Err? {
        return Err(after.error);
      }
      baseIndex, output, inHunk := after.value.pos, after.value.out, true;
    }
    return Ok(output + base[SliceBound(|base|, baseIndex)..]);
  }

  // ---------- The hunks a diff consists of ----------

  datatype Hunk = Hunk(oldStart: nat, newStart: nat, body: seq<Line>)

  function Old(body: seq<Line>): seq<string> {
    if body == [] then []
    else
      var l := body[|body| - 1];
      Old(body[..|body| - 1]) + if l.Context? || l.Delete? then [l.text] else []
  }

  function New(body: seq<Line>): seq<string> {
    if body == [] then []
    else
      var l := body[|body| - 1];
      New(body[..|body| - 1]) + if l.Context? || l.Insert? then [l.text] else []
  }

  /** Lines in front of the first header are ignored; None if a header or a hunk line is malformed. */
  function ParsePatch(lines: seq<string>): Option<seq<Hunk>> {
    ParseFrom([], lines)
  }

  function ParseFrom(hs: seq<Hunk>, lines: seq<string>): Option<seq<Hunk>>
    decreases |lines|
  {
    if lines == [] then Some(hs)
    else
      ParseThen(ParseFrom(hs, lines[..|lines| - 1]), lines[|lines| - 1])
  }

  function ParseThen(r: Option<seq<Hunk>>, line: string): Option<seq<Hunk>> {
    match r
    case None => None
    case Some(hs) => ParseNext(hs, line)
  }

  function ParseNext(hs: seq<Hunk>, line: string): Option<seq<Hunk>> {
    if StartsWith(line, "@@ ") then
      match ParseHeader(line)
      case None => None
      case Some(h) => Some(hs + [Hunk(h.oldStart, h.newStart, [])])
    else if hs == [] then Some(hs)
    else
      match ParseLine(line)
      case None => None
      case Some(l) => Some(AddLine(hs, l))
  }

  lemma ParseSnoc(hs: seq<Hunk>, lines: seq<string>, line: string)
    ensures ParseFrom(hs, lines + [line]) == ParseThen(ParseFrom(hs, lines), line)
  {
    assert (lines + [line])[..|lines|] == lines;
  }

  lemma {:induction false} ParseConcat(hs: seq<Hunk>, left: seq<string>, right: seq<string>)
    requires ParseFrom(hs, left).Some?
    ensures ParseFrom(hs, left + right) == ParseFrom(ParseFrom(hs, left).value, right)
    decreases |right|
  {
    if right == [] {
      assert left + right == left;
    } else {
      var init, last := right[..|right| - 1], right[|right| - 1];
      assert right == init + [last];
      ParseConcat(hs, left, init);
      ConcatAssociative(left, init, [last]);
      ParseSnoc(hs, left + init, last);
      ParseSnoc(ParseFrom(hs, left).value, init, last);
    }
  }

  function AddLine(hs: seq<Hunk>, l: Line): seq<Hunk>
    requires hs != []
  {
    var last := hs[|hs| - 1];
    hs[..|hs| - 1] + [last.(body := last.body + [l])]
  }

  function ApplyBody(base: seq<string>, p: Progress, body: seq<Line>): Result<Progress> {
    if body == [] then Ok(p)
    else
      match ApplyBody(base, p, body[..|body| - 1])
      case Err(e) => Err(e)
      case Ok(q) => ApplyLine(base, q, body[|body| - 1])
  }

  function ApplyHunks(base: seq<string>, hs: seq<Hunk>): Result<Progress> {
    if hs == [] then Ok(Progress(0, []))
    else
      var h := hs[|hs| - 1];
      match ApplyHunks(base, hs[..|hs| - 1])
      case Err(e) => Err(e)
      case Ok(p) => ApplyBody(base, EnterHunk(base, p, h.oldStart), h.body)
  }

  function ReplayHunks(base: seq<string>, hs: seq<Hunk>): Result<seq<string>> {
    match ApplyHunks(base, hs)
    case Err(e) => Err(e)
    case Ok(p) => Ok(Finish(base, p))
  }

  /** The cursor after the hunks hs, and after one more line. */
  predicate AtHunks(base: seq<string>, hs: seq<Hunk>, r: Result<Cursor>) {
    match ApplyHunks(base, hs)
    case Err(e) => r == Err(e)
    case Ok(p) => r == Ok(Cursor(hs != [], p))
  }

  lemma NextHeader(base: seq<string>, hs: seq<Hunk>, h: Header)
    ensures var r := ApplyHunks(base, hs);
            ApplyHunks(base, hs + [Hunk(h.oldStart, h.newStart, [])])
            == if r.Err? then r else Ok(EnterHunk(base, r.value, h.oldStart))
  {
    assert (hs + [Hunk(h.oldStart, h.newStart, [])])[..|hs|] == hs;
  }

  lemma NextLine(base: seq<string>, hs: seq<Hunk>, l: Line)
    requires hs != []
    ensures var r := ApplyHunks(base, hs);
            ApplyHunks(base, AddLine(hs, l)) == if r.Err? then r else ApplyLine(base, r.value, l)
  {
    var before, h := hs[..|hs| - 1], hs[|hs| - 1];
    assert AddLine(hs, l)[..|hs| - 1] == before;
    assert (h.body + [l])[..|h.body|] == h.body;
  }

  lemma NextMatches(base: seq<string>, hs: seq<Hunk>, r: Result<Cursor>, line: string)
    requires AtHunks(base, hs, r)
    ensures match ParseNext(hs, line)
            case None => Then(base, r, line).Err?
            case Some(more) => AtHunks(base, more, Then(base, r, line))
  {
    if StartsWith(line, "@@ ") {
      if ParseHeader(line).Some? {
        NextHeader(base, hs, ParseHeader(line).value);
      }
    } else if hs != [] && ParseLine(line).Some? {
      NextLine(base, hs, ParseLine(line).value);
    }
  }

  lemma {:induction false} RunMatchesParse(base: seq<string>, lines: seq<string>)
    ensures match ParsePatch(lines)
            case None => Run(base, lines).Err?
            case Some(hs) => AtHunks(base, hs, Run(base, lines))
  {
    if lines != [] {
      var before := lines[..|lines| - 1];
      RunMatchesParse(base, before);
      if ParsePatch(before).Some? {
        NextMatches(base, ParsePatch(before).value, Run(base, before), lines[|lines| - 1]);
      }
    }
  }

  /** Replaying lines is replaying the hunks they spell; a diff that is not a patch is refused. */
  lemma ReplayMatchesParse(base: seq<string>, lines: seq<string>)
    ensures match ParsePatch(lines)
            case None => Replay(base, lines).Err?
            case Some(hs) => Replay(base, lines) == ReplayHunks(base, hs)
  {
    RunMatchesParse(base, lines);
  }

  // ---------- What a patch means ----------

  /** Lines before the old range: an empty range names the line it follows. */
  function OldPos(h: Hunk): int {
    if Old(h.body) == [] then h.oldStart else h.oldStart - 1
  }

  function NewPos(h: Hunk): int {
    if New(h.body) == [] then h.newStart else h.newStart - 1
  }

  function OldEnd(hs: seq<Hunk>): int {
    if hs == [] then 0 else OldPos(hs[|hs| - 1]) + |Old(hs[|hs| - 1].body)|
  }

  /** Insertions minus deletions. */
  function Growth(hs: seq<Hunk>): int {
    if hs == [] then 0
    else Growth(hs[..|hs| - 1]) + |New(hs[|hs| - 1].body)| - |Old(hs[|hs| - 1].body)|
  }

  function NewEnd(hs: seq<Hunk>): int {
    OldEnd(hs) + Growth(hs)
  }

  /** The hunk's lines sit at p in base and at q in out, after equal gaps from a and b. */
  predicate Fits(base: seq<string>, out: seq<string>, a: nat, b: nat, p: int, q: int, h: Hunk) {
    && a <= p && p + |Old(h.body)| <= |base| && b <= q && q + |New(h.body)| <= |out|
    && base[a..p] == out[b..q]
    && base[p..p + |Old(h.body)|] == Old(h.body)
    && out[q..q + |New(h.body)|] == New(h.body)
  }

  /** Up to the last hunk, base is gaps interleaved with old lines and out the same gaps with new lines. */
  predicate PatchedPrefix(base: seq<string>, out: seq<string>, hs: seq<Hunk>)
    ensures PatchedPrefix(base, out, hs) ==> 0 <= OldEnd(hs) <= |base| && 0 <= NewEnd(hs) <= |out|
  {
    hs == [] ||
    (var before, h := hs[..|hs| - 1], hs[|hs| - 1];
     && PatchedPrefix(base, out, before)
     && Fits(base, out, OldEnd(before), NewEnd(before), OldPos(h), OldPos(h) + Growth(before), h))
  }

  predicate Patches(base: seq<string>, out: seq<string>, hs: seq<Hunk>) {
    PatchedPrefix(base, out, hs) && base[OldEnd(hs)..] == out[NewEnd(hs)..]
  }

  /** Every hunk consumes a base line and starts after the one before it ended. */
  predicate Ordered(hs: seq<Hunk>) {
    hs == [] ||
    (var before, h := hs[..|hs| - 1], hs[|hs| - 1];
     Ordered(before) && Old(h.body) != [] && OldEnd(before) <= h.oldStart - 1)
  }

  // ---------- Replay of ordered hunks computes exactly that meaning ----------

  lemma {:induction false} ApplyBodyExact(base: seq<string>, p: Progress, body: seq<Line>)
    requires 0 <= p.pos <= |base|
    ensures ApplyBody(base, p, body).Ok? <==>
            p.pos + |Old(body)| <= |base| && base[p.pos..p.pos + |Old(body)|] == Old(body)
    ensures ApplyBody(base, p, body).Ok? ==>
              ApplyBody(base, p, body).value == Progress(p.pos + |Old(body)|, p.out + New(body))
  {
    if body != [] {
      var n := |body| - 1;
      ApplyBodyExact(base, p, body[..n]);
      var a, b := p.pos + |Old(body[..n])|, p.pos + |Old(body)|;
      if b <= |base| {
        if a < b {
          assert base[p.pos..b] == base[p.pos..a] + [base[a]];
        }
        if base[p.pos..b] == Old(body) {
          assert base[p.pos..a] == Old(body)[..|Old(body[..n])|] == Old(body[..n]);
        }
      }
    }
  }

  lemma EnterInside(base: seq<string>, p: Progress, oldStart: nat)
    requires 0 <= p.pos <= oldStart - 1 <= |base|
    ensures EnterHunk(base, p, oldStart) == Progress(oldStart - 1, p.out + base[p.pos..oldStart - 1])
  {
  }

  lemma HunkStartsInside(base: seq<string>, p: Progress, h: Hunk)
    requires h.oldStart >= 1 && Old(h.body) != []
    requires ApplyBody(base, EnterHunk(base, p, h.oldStart), h.body).Ok?
    ensures h.oldStart - 1 <= |base|
  {
    if h.oldStart - 1 > |base| {
      ApplyBodyBeyond(base, EnterHunk(base, p, h.oldStart), h.body);
    }
  }

  lemma ApplyHunkFits(base: seq<string>, p: Progress, h: Hunk)
    requires 0 <= p.pos <= h.oldStart - 1 && Old(h.body) != []
    requires ApplyBody(base, EnterHunk(base, p, h.oldStart), h.body).Ok?
    ensures var r := ApplyBody(base, EnterHunk(base, p, h.oldStart), h.body).value;
            && r.pos == h.oldStart - 1 + |Old(h.body)| && p.out <= r.out
            && |r.out| - |p.out| == r.pos - p.pos + |New(h.body)| - |Old(h.body)|
            && Fits(base, r.out, p.pos, |p.out|, h.oldStart - 1, |r.out| - |New(h.body)|, h)
  {
    HunkStartsInside(base, p, h);
    EnterInside(base, p, h.oldStart);
    var gap := base[p.pos..h.oldStart - 1];
    ApplyBodyExact(base, Progress(h.oldStart - 1, p.out + gap), h.body);
    var out := p.out + gap + New(h.body);
    assert out[|p.out|..|p.out| + |gap|] == gap;
    assert out[|p.out| + |gap|..] == New(h.body);
  }

  lemma AfterHunk(base: seq<string>, before: seq<Hunk>, h: Hunk, p: Progress)
    requires Old(h.body) != [] && OldEnd(before) <= h.oldStart - 1
    requires p.pos == OldEnd(before) && |p.out| == NewEnd(before) && PatchedPrefix(base, p.out, before)
    requires ApplyBody(base, EnterHunk(base, p, h.oldStart), h.body).Ok?
    ensures var r := ApplyBody(base, EnterHunk(base, p, h.oldStart), h.body).value;
            && r.pos == OldEnd(before + [h]) && |r.out| == NewEnd(before + [h])
            && PatchedPrefix(base, r.out, before + [h])
  {
    ApplyHunkFits(base, p, h);
    var r := ApplyBody(base, EnterHunk(base, p, h.oldStart), h.body).value;
    PrefixGrows(base, p.out, r.out, before);
    PrefixSnocAt(base, r.out, before, h, p.pos, |p.out|, h.oldStart - 1, |r.out| - |New(h.body)|);
  }

  lemma PrefixSnocAt(base: seq<string>, out: seq<string>, before: seq<Hunk>, h: Hunk, a: nat, b: nat, p: int, q: int)
    requires PatchedPrefix(base, out, before) && Fits(base, out, a, b, p, q, h)
    requires a == OldEnd(before) && b == NewEnd(before) && p == OldPos(h) && q == p + Growth(before)
    ensures PatchedPrefix(base, out, before + [h])
    ensures OldEnd(before + [h]) == p + |Old(h.body)|
    ensures NewEnd(before + [h]) == q + |New(h.body)|
  {
    PrefixSnoc(base, out, before, h);
  }

  lemma {:induction false} ApplyHunksOrdered(base: seq<string>, hs: seq<Hunk>)
    requires Ordered(hs)
    ensures ApplyHunks(base, hs).Ok? ==>
              var p := ApplyHunks(base, hs).value;
              p.pos == OldEnd(hs) && |p.out| == NewEnd(hs) && PatchedPrefix(base, p.out, hs)
  {
    if hs != [] && ApplyHunks(base, hs).Ok? {
      var before, h := hs[..|hs| - 1], hs[|hs| - 1];
      assert hs == before + [h];
      ApplyHunksOrdered(base, before);
      AfterHunk(base, before, h, ApplyHunks(base, before).value);
    }
  }

  lemma {:induction false} ApplyBodyBeyond(base: seq<string>, p: Progress, body: seq<Line>)
    requires p.pos >= |base|
    ensures ApplyBody(base, p, body).Ok? ==> Old(body) == [] && ApplyBody(base, p, body).value.pos == p.pos
  {
    if body != [] {
      ApplyBodyBeyond(base, p, body[..|body| - 1]);
    }
  }

  lemma PrefixSnoc(base: seq<string>, out: seq<string>, before: seq<Hunk>, h: Hunk)
    requires PatchedPrefix(base, out, before)
    requires Fits(base, out, OldEnd(before), NewEnd(before), OldPos(h), OldPos(h) + Growth(before), h)
    ensures PatchedPrefix(base, out, before + [h])
    ensures OldEnd(before + [h]) == OldPos(h) + |Old(h.body)|
    ensures Growth(before + [h]) == Growth(before) + |New(h.body)| - |Old(h.body)|
  {
    assert (before + [h])[..|before|] == before;
  }

  lemma {:induction false} PrefixGrows(base: seq<string>, out: seq<string>, longer: seq<string>, hs: seq<Hunk>)
    requires PatchedPrefix(base, out, hs) && out <= longer
    ensures PatchedPrefix(base, longer, hs)
  {
    if hs != [] {
      var before, h := hs[..|hs| - 1], hs[|hs| - 1];
      PrefixGrows(base, out, longer, before);
      FitsGrows(base, out, longer, OldEnd(before), NewEnd(before), OldPos(h), OldPos(h) + Growth(before), h);
    }
  }

  lemma FitsGrows(base: seq<string>, out: seq<string>, longer: seq<string>,
                  a: nat, b: nat, p: int, q: int, h: Hunk)
    requires Fits(base, out, a, b, p, q, h) && out <= longer
    ensures Fits(base, longer, a, b, p, q, h)
  {
    assert longer[b..q] == out[b..q];
    assert longer[q..q + |New(h.body)|] == out[q..q + |New(h.body)|];
  }

  lemma TakeThenSlice<T>(s: seq<T>, b: nat, q: nat)
    requires b <= q <= |s|
    ensures s[..b] + s[b..q] == s[..q]
  {
  }

  lemma FitsApplies(base: seq<string>, out: seq<string>, a: nat, b: nat, p: nat, q: nat, h: Hunk)
    requires Fits(base, out, a, b, p, q, h) && p == h.oldStart - 1
    ensures ApplyBody(base, EnterHunk(base, Progress(a, out[..b]), h.oldStart), h.body)
            == Ok(Progress(p + |Old(h.body)|, out[..q + |New(h.body)|]))
  {
    EnterInside(base, Progress(a, out[..b]), h.oldStart);
    TakeThenSlice(out, b, q);
    ApplyBodyExact(base, Progress(p, out[..q]), h.body);
    TakeThenSlice(out, q, q + |New(h.body)|);
  }

  lemma {:induction false} ApplyHunksComplete(base: seq<string>, out: seq<string>, hs: seq<Hunk>)
    requires Ordered(hs) && PatchedPrefix(base, out, hs)
    ensures ApplyHunks(base, hs) == Ok(Progress(OldEnd(hs), out[..NewEnd(hs)]))
  {
    if hs != [] {
      var before, h := hs[..|hs| - 1], hs[|hs| - 1];
      ApplyHunksComplete(base, out, before);
      FitsApplies(base, out, OldEnd(before), NewEnd(before), OldPos(h), OldPos(h) + Growth(before), h);
      assert NewEnd(hs) == OldPos(h) + Growth(before) + |New(h.body)|;
    }
  }

  /** Replay of ordered hunks succeeds with out exactly when out is the patched base. */
  lemma ReplayExact(base: seq<string>, hs: seq<Hunk>, out: seq<string>)
    requires Ordered(hs)
    ensures ReplayHunks(base, hs) == Ok(out) <==> Patches(base, out, hs)
  {
    if ReplayHunks(base, hs) == Ok(out) {
      ApplyHunksOrdered(base, hs);
      var p := ApplyHunks(base, hs).value;
      PrefixGrows(base, p.out, out, hs);
      assert out[NewEnd(hs)..] == base[OldEnd(hs)..];
    }
    if Patches(base, out, hs) {
      ApplyHunksComplete(base, out, hs);
      assert out[..NewEnd(hs)] + out[NewEnd(hs)..] == out;
    }
  }

  /** The whole diff: base and output differ by the hunks' lines and nothing else. */
  lemma SuccessfulReplayDecomposes(base: seq<string>, lines: seq<string>, out: seq<string>)
    requires ParsePatch(lines).Some? && Ordered(ParsePatch(lines).value)
    ensures Replay(base, lines) == Ok(out) <==> Patches(base, out, ParsePatch(lines).value)
    ensures Replay(base, lines) == Ok(out) ==> |out| == |base| + Growth(ParsePatch(lines).value)
  {
    ReplayMatchesParse(base, lines);
    ReplayExact(base, ParsePatch(lines).value, out);
  }

  // ---------- Undoing a patch ----------

  function SwapLine(l: Line): Line {
    match l
    case Delete(text) => Insert(text)
    case Insert(text) => Delete(text)
    case _ => l
  }

  function SwapBody(body: seq<Line>): (r: seq<Line>)
    ensures Old(r) == New(body) && New(r) == Old(body)
  {
    if body == [] then []
    else
      var r := SwapBody(body[..|body| - 1]) + [SwapLine(body[|body| - 1])];
      assert r[..|r| - 1] == SwapBody(body[..|body| - 1]);
      r
  }

  function Swap(h: Hunk): Hunk {
    Hunk(h.newStart, h.oldStart, SwapBody(h.body))
  }

  function SwapAll(hs: seq<Hunk>): (r: seq<Hunk>)
    ensures |r| == |hs|
  {
    if hs == [] then [] else SwapAll(hs[..|hs| - 1]) + [Swap(hs[|hs| - 1])]
  }

  /** The `+` starts of the headers are the positions the replayed lines end up at. */
  predicate NewStartsAgree(hs: seq<Hunk>) {
    hs == [] ||
    (var before, h := hs[..|hs| - 1], hs[|hs| - 1];
     NewStartsAgree(before) && NewPos(h) == OldPos(h) + Growth(before))
  }

  lemma {:induction false} SwapShape(hs: seq<Hunk>)
    requires NewStartsAgree(hs)
    ensures Growth(SwapAll(hs)) == -Growth(hs)
    ensures OldEnd(SwapAll(hs)) == NewEnd(hs)
    ensures NewStartsAgree(SwapAll(hs))
  {
    if hs != [] {
      SwapShape(hs[..|hs| - 1]);
      assert SwapAll(hs)[..|hs| - 1] == SwapAll(hs[..|hs| - 1]);
    }
  }

  lemma {:induction false} SwapPatchedPrefix(base: seq<string>, out: seq<string>, hs: seq<Hunk>)
    requires NewStartsAgree(hs) && PatchedPrefix(base, out, hs)
    ensures PatchedPrefix(out, base, SwapAll(hs))
  {
    if hs != [] {
      var before, h := hs[..|hs| - 1], hs[|hs| - 1];
      SwapPatchedPrefix(base, out, before);
      SwapShape(before);
      FitsSwapped(base, out, OldEnd(before), NewEnd(before), OldPos(h), NewPos(h), h);
      var swapped := SwapAll(before);
      assert OldEnd(swapped) == NewEnd(before) && NewEnd(swapped) == OldEnd(before);
      assert OldPos(Swap(h)) == NewPos(h);
      PrefixSnoc(out, base, swapped, Swap(h));
      assert SwapAll(hs) == swapped + [Swap(h)];
    }
  }

  lemma FitsSwapped(base: seq<string>, out: seq<string>, a: nat, b: nat, p: int, q: int, h: Hunk)
    requires Fits(base, out, a, b, p, q, h)
    ensures Fits(out, base, b, a, q, p, Swap(h))
  {
  }

  lemma {:induction false} SwapOrdered(base: seq<string>, out: seq<string>, hs: seq<Hunk>)
    requires NewStartsAgree(hs) && PatchedPrefix(base, out, hs)
    requires forall h <- hs :: New(h.body) != []
    ensures Ordered(SwapAll(hs))
  {
    if hs != [] {
      SwapOrdered(base, out, hs[..|hs| - 1]);
      SwapShape(hs[..|hs| - 1]);
      assert SwapAll(hs)[..|hs| - 1] == SwapAll(hs[..|hs| - 1]);
      assert hs[|hs| - 1] in hs;
    }
  }

  /** Exchanging the two sides of every hunk undoes the patch. */
  lemma SwappedReplayRestoresBase(base: seq<string>, hs: seq<Hunk>, out: seq<string>)
    requires Ordered(hs) && NewStartsAgree(hs)
    requires forall h <- hs :: New(h.body) != []
    requires ReplayHunks(base, hs) == Ok(out)
    ensures ReplayHunks(out, SwapAll(hs)) == Ok(base)
  {
    ReplayExact(base, hs, out);
    SwapPatchedPrefix(base, out, hs);
    SwapShape(hs);
    SwapOrdered(base, out, hs);
    ReplayExact(out, SwapAll(hs), base);
  }

  // ---------- Where replay leaves the format ----------

  lemma ReplayOne(base: seq<string>, h: Hunk)
    ensures ApplyHunks(base, [h]) == ApplyBody(base, EnterHunk(base, Progress(0, []), h.oldStart), h.body)
    ensures OldEnd([h]) == OldPos(h) + |Old(h.body)| && Growth([h]) == |New(h.body)| - |Old(h.body)|
  {
    assert [h][..0] == [];
  }

  lemma {:induction false} ApplyBodyInsertsOnly(base: seq<string>, p: Progress, body: seq<Line>)
    requires Old(body) == []
    ensures ApplyBody(base, p, body) == Ok(Progress(p.pos, p.out + New(body)))
  {
    if body == [] {
      assert p.out + New(body) == p.out;
    } else {
      var before, l := body[..|body| - 1], body[|body| - 1];
      assert Old(before) == [] && !l.Context? && !l.Delete?;
      ApplyBodyInsertsOnly(base, p, before);
      if l.Insert? {
        assert p.out + New(body) == p.out + New(before) + [l.text];
      } else {
        assert New(body) == New(before);
      }
    }
  }

  /** An insertion means: after the first oldStart lines. Replay puts it before the last of those. */
  lemma InsertionMeaning(base: seq<string>, out: seq<string>, h: Hunk)
    requires Old(h.body) == []
    ensures Patches(base, out, [h]) <==>
            h.oldStart <= |base| && out == base[..h.oldStart] + New(h.body) + base[h.oldStart..]
  {
    var s, t := h.oldStart, h.oldStart + |New(h.body)|;
    assert [h][..0] == [];
    ReplayOne(base, h);
    if Patches(base, out, [h]) {
      assert out == out[..s] + out[s..t] + out[t..];
    }
    if s <= |base| && out == base[..s] + New(h.body) + base[s..] {
      assert out[..s] == base[..s] && out[s..t] == New(h.body) && out[t..] == base[s..];
      PrefixSnoc(base, out, [], h);
    }
  }

  lemma InsertionReplay(base: seq<string>, h: Hunk)
    requires Old(h.body) == []
    ensures var k := SliceBound(|base|, h.oldStart - 1);
            ReplayHunks(base, [h]) == Ok(base[..k] + New(h.body) + base[k..])
  {
    var p := EnterHunk(base, Progress(0, []), h.oldStart);
    assert p.out == base[..SliceBound(|base|, h.oldStart - 1)];
    ReplayOne(base, h);
    ApplyBodyInsertsOnly(base, p, h.body);
  }

  /** A pure insertion and a base on which replay puts the new lines in the wrong place. */
  lemma MisplacedInsertion(h: Hunk) returns (base: seq<string>, out: seq<string>)
    requires Old(h.body) == [] && New(h.body) != []
    ensures Patches(base, out, [h]) && ReplayHunks(base, [h]) != Ok(out)
  {
    var s, x := h.oldStart, New(h.body)[0] + "x";
    base := seq(if s == 0 then 2 else s, _ => x);
    out := base[..s] + New(h.body) + base[s..];
    InsertionMeaning(base, out, h);
    InsertionReplay(base, h);
    var k := if s == 0 then 0 else s - 1;
    assert out[k] != ReplayHunks(base, [h]).value[k];
  }
}
