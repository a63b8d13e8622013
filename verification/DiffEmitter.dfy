/** The diff emitter of the result cache (src/tok/compression/__init__.py, _compute_diff_lines): the
    layout difflib.unified_diff gives an edit script, with three lines of context. The matcher that
    finds the script is a parameter; any correct script is allowed. */
module DiffEmitter {
  import opened Text
  import opened UnifiedDiff
  import opened DiffCounts

  // ---------- Printing hunks ----------

  /** A range of a header: a count of one is left out. */
  function FormatRange(start: nat, count: nat): string {
    if count == 1 then Decimal(start) else Decimal(start) + ("," + Decimal(count))
  }

  function FormatHeader(h: Hunk): string {
    "@@ -" + (FormatRange(h.oldStart, |Old(h.body)|) + (" +" + (FormatRange(h.newStart, |New(h.body)|) + " @@")))
  }

  function RenderLine(l: Line): string {
    match l
    case Context(text) => " " + text
    case Delete(text) => "-" + text
    case Insert(text) => "+" + text
    case Marker => "\\ No newline at end of file"
  }

  function RenderBody(body: seq<Line>): seq<string> {
    if body == [] then [] else RenderBody(body[..|body| - 1]) + [RenderLine(body[|body| - 1])]
  }

  function RenderHunks(hs: seq<Hunk>): seq<string> {
    if hs == [] then ["--- old", "+++ new"]
    else
      var h := hs[|hs| - 1];
      RenderHunks(hs[..|hs| - 1]) + [FormatHeader(h)] + RenderBody(h.body)
  }

  lemma DropPrefix(prefix: string, rest: string)
    ensures StartsWith(prefix + rest, prefix) && (prefix + rest)[|prefix|..] == rest
  {
  }

  lemma DigitsThen(digits: string, rest: string)
    requires forall i :: 0 <= i < |digits| ==> IsDigit(digits[i])
    requires rest != [] && !IsDigit(rest[0])
    ensures DigitPrefix(digits + rest) == |digits|
    ensures (digits + rest)[..|digits|] == digits && (digits + rest)[|digits|..] == rest
  {
    var s, n := digits + rest, DigitPrefix(digits + rest);
    assert s[|digits|] == rest[0];
    assert forall i :: 0 <= i < |digits| ==> IsDigit(s[i]);
  }

  lemma MatchFormattedRange(start: nat, count: nat, rest: string, p: Pattern)
    requires rest != [] && rest[0] == ' ' && Match(rest, p).Some?
    ensures Match(FormatRange(start, count) + rest, Number(Count(p))) == Some([start] + Match(rest, p).value)
  {
    DecimalRoundTrip(start);
    if count == 1 {
      DigitsThen(Decimal(start), rest);
      assert Match(rest, Count(p)) == Match(rest, p);
    } else {
      var tail := Decimal(count) + rest;
      assert DropCount("," + tail) == rest by {
        DigitsThen(Decimal(count), rest);
        DropPrefix(",", tail);
      }
      DigitsThen(Decimal(start), "," + tail);
      assert Match("," + tail, Count(p)) == Match(rest, p);
      ConcatAssociative(",", Decimal(count), rest);
      ConcatAssociative(Decimal(start), "," + Decimal(count), rest);
    }
  }

  lemma MatchText(text: string, rest: string, p: Pattern)
    ensures Match(text + rest, Pattern.Text(text, p)) == Match(rest, p)
  {
    DropPrefix(text, rest);
  }

  /** The part of a header from the new range on. */
  lemma MatchNewRange(start: nat, count: nat)
    ensures Match(" +" + (FormatRange(start, count) + " @@"), NEW_RANGE) == Some([start])
  {
    MatchText(" @@", "", End);
    assert " @@" + "" == " @@";
    MatchFormattedRange(start, count, " @@", Pattern.Text(" @@", End));
    MatchText(" +", FormatRange(start, count) + " @@", Number(Count(Pattern.Text(" @@", End))));
    assert [start] + [] == [start];
  }

  lemma MatchHeader(oldRange: string, oldStart: nat, count: nat, rest: string, newStart: nat)
    requires oldRange == FormatRange(oldStart, count)
    requires rest != [] && rest[0] == ' ' && Match(rest, NEW_RANGE) == Some([newStart])
    ensures Match("@@ -" + (oldRange + rest), HUNK_HEADER) == Some([oldStart] + [newStart])
  {
    MatchFormattedRange(oldStart, count, rest, NEW_RANGE);
    MatchText("@@ -", oldRange + rest, Number(Count(NEW_RANGE)));
  }

  lemma HeaderRoundTrip(h: Hunk)
    ensures ParseHeader(FormatHeader(h)) == Some(Header(h.oldStart, h.newStart))
    ensures StartsWith(FormatHeader(h), "@@ ")
  {
    var oldRange, newRange := FormatRange(h.oldStart, |Old(h.body)|), FormatRange(h.newStart, |New(h.body)|);
    MatchNewRange(h.newStart, |New(h.body)|);
    MatchHeader(oldRange, h.oldStart, |Old(h.body)|, " +" + (newRange + " @@"), h.newStart);
    assert Match(FormatHeader(h), HUNK_HEADER) == Some([h.oldStart] + [h.newStart]);
    StartsAtMarker(oldRange + (" +" + (newRange + " @@")));
  }

  lemma StartsAtMarker(rest: string)
    ensures StartsWith("@@ -" + rest, "@@ ")
  {
  }

  lemma LineRoundTrip(l: Line)
    ensures ParseLine(RenderLine(l)) == Some(l) && !StartsWith(RenderLine(l), "@@ ")
  {
    var s := RenderLine(l);
    assert s[0] != '\n' && s[0] != '\r' && s[0] != '@';
    match l
    case Context(text) => DropPrefix(" ", text);
    case Delete(text) => DropPrefix("-", text);
    case Insert(text) => DropPrefix("+", text);
    case Marker => assert s[..1] == "\\";
  }

  lemma {:induction false} BodyRoundTrip(before: seq<Hunk>, h: Hunk, body: seq<Line>)
    ensures ParseFrom(before + [h.(body := [])], RenderBody(body)) == Some(before + [h.(body := body)])
  {
    if body != [] {
      var shorter, l := body[..|body| - 1], body[|body| - 1];
      assert shorter + [l] == body;
      BodyRoundTrip(before, h, shorter);
      LineRoundTrip(l);
      ParseSnoc(before + [h.(body := [])], RenderBody(shorter), RenderLine(l));
      AddLineToLast(before, h, shorter, l);
    }
  }

  lemma AddLineToLast(before: seq<Hunk>, h: Hunk, body: seq<Line>, l: Line)
    ensures AddLine(before + [h.(body := body)], l) == before + [h.(body := body + [l])]
  {
  }

  lemma FileHeadersIgnored()
    ensures ParseFrom([], ["--- old", "+++ new"]) == Some([])
  {
    assert "--- old"[0] != '@' && "+++ new"[0] != '@';
    ParseSnoc([], [], "--- old");
    ParseSnoc([], [] + ["--- old"], "+++ new");
    assert [] + ["--- old"] + ["+++ new"] == ["--- old", "+++ new"];
  }

  /** Reading back the printed hunks gives the hunks. */
  lemma {:induction false} PatchRoundTrip(hs: seq<Hunk>)
    ensures ParsePatch(RenderHunks(hs)) == Some(hs)
  {
    if hs == [] {
      FileHeadersIgnored();
    } else {
      var before, h := hs[..|hs| - 1], hs[|hs| - 1];
      assert before + [h] == hs;
      PatchRoundTrip(before);
      HeaderRoundTrip(h);
      ParseSnoc([], RenderHunks(before), FormatHeader(h));
      ParseConcat([], RenderHunks(before) + [FormatHeader(h)], RenderBody(h.body));
      BodyRoundTrip(before, h, h.body);
    }
  }

  // ---------- Printed headers announce the lines behind them ----------

  lemma ReadFormattedRange(start: nat, count: nat, rest: string)
    requires rest != "" && rest[0] == ' '
    ensures ReadRange(FormatRange(start, count) + rest) == Some((Range(start, count), rest))
  {
    DecimalRoundTrip(start);
    if count == 1 {
      DigitsThen(Decimal(start), rest);
    } else {
      var tail := Decimal(count) + rest;
      DecimalRoundTrip(count);
      DigitsThen(Decimal(count), rest);
      DigitsThen(Decimal(start), "," + tail);
      DropPrefix(",", tail);
      ConcatAssociative(",", Decimal(count), rest);
      ConcatAssociative(Decimal(start), "," + Decimal(count), rest);
    }
  }

  /** A reader that takes the counts finds those of the hunk's old and new lines. */
  lemma HeaderCounts(h: Hunk)
    ensures ReadHeader(FormatHeader(h))
            == Some((Range(h.oldStart, |Old(h.body)|), Range(h.newStart, |New(h.body)|)))
  {
    var newRange := FormatRange(h.newStart, |New(h.body)|);
    var rest := newRange + " @@";
    var behind := " +" + rest;
    DropPrefix("@@ -", FormatRange(h.oldStart, |Old(h.body)|) + behind);
    ReadFormattedRange(h.oldStart, |Old(h.body)|, behind);
    DropPrefix(" +", rest);
    ReadFormattedRange(h.newStart, |New(h.body)|, " @@");
  }

  lemma LineMarks(l: Line)
    ensures !IsHeader(RenderLine(l))
    ensures Marked(RenderLine(l), '-') <==> l.Context? || l.Delete?
    ensures Marked(RenderLine(l), '+') <==> l.Context? || l.Insert?
  {
    var s := RenderLine(l);
    assert s[0] == match l case Context(_) => ' ' case Delete(_) => '-' case Insert(_) => '+' case Marker => '\\';
    LineRoundTrip(l);
  }

  lemma {:induction false} BodyCounts(body: seq<Line>)
    ensures NoHeader(RenderBody(body))
    ensures LinesAhead(RenderBody(body), '-') == |Old(body)| && LinesAhead(RenderBody(body), '+') == |New(body)|
  {
    if body != [] {
      var shorter, l := body[..|body| - 1], body[|body| - 1];
      BodyCounts(shorter);
      LineMarks(l);
      AheadSnoc(RenderBody(shorter), RenderLine(l), '-');
      AheadSnoc(RenderBody(shorter), RenderLine(l), '+');
    }
  }

  lemma FileHeadersAnnounceNothing()
    ensures Announced(["--- old", "+++ new"])
  {
    assert "--- old"[0] != '@' && "+++ new"[0] != '@';
  }

  /** In printed hunks every header announces exactly the old and new lines behind it. */
  lemma {:induction false} HunksAnnounced(hs: seq<Hunk>)
    ensures Announced(RenderHunks(hs))
  {
    if hs == [] {
      FileHeadersAnnounceNothing();
    } else {
      var before, h := hs[..|hs| - 1], hs[|hs| - 1];
      HunksAnnounced(before);
      HeaderCounts(h);
      HeaderRoundTrip(h);
      BodyCounts(h.body);
      AnnouncedMore(RenderHunks(before), FormatHeader(h), RenderBody(h.body));
      ConcatAssociative(RenderHunks(before), [FormatHeader(h)], RenderBody(h.body));
    }
  }

  /** Printing the two sides exchanged gives a diff that undoes the one that was replayed. */
  lemma SwappedDiffRestoresBase(base: seq<string>, lines: seq<string>, out: seq<string>)
    requires ParsePatch(lines).Some?
    requires var hs := ParsePatch(lines).value;
             Ordered(hs) && NewStartsAgree(hs) && forall h <- hs :: New(h.body) != []
    requires Replay(base, lines) == Ok(out)
    ensures Replay(out, RenderHunks(SwapAll(ParsePatch(lines).value))) == Ok(base)
  {
    var hs := ParsePatch(lines).value;
    ReplayMatchesParse(base, lines);
    SwappedReplayRestoresBase(base, hs, out);
    PatchRoundTrip(SwapAll(hs));
    ReplayMatchesParse(out, RenderHunks(SwapAll(hs)));
  }

  // ---------- Edit scripts ----------

  datatype Tag = Equal | Replace | Remove | Add

  datatype Opcode = Opcode(tag: Tag, i1: nat, i2: nat, j1: nat, j2: nat)

  predicate ValidOp(src: seq<string>, dst: seq<string>, op: Opcode) {
    && op.i1 <= op.i2 <= |src| && op.j1 <= op.j2 <= |dst|
    && match op.tag
       case Equal => op.i1 < op.i2 && src[op.i1..op.i2] == dst[op.j1..op.j2]
       case Replace => op.i1 < op.i2 && op.j1 < op.j2
       case Remove => op.i1 < op.i2 && op.j1 == op.j2
       case Add => op.i1 == op.i2 && op.j1 < op.j2
  }

  /** The operations lead from (a, b) to (c, d) without a hole. */
  predicate Chain(src: seq<string>, dst: seq<string>, ops: seq<Opcode>, a: nat, b: nat, c: nat, d: nat) {
    if ops == [] then a == c && b == d
    else
      var op := ops[|ops| - 1];
      Chain(src, dst, ops[..|ops| - 1], a, b, op.i1, op.j1) && ValidOp(src, dst, op) && op.i2 == c && op.j2 == d
  }

  predicate CorrectOpcodes(src: seq<string>, dst: seq<string>, codes: seq<Opcode>) {
    Chain(src, dst, codes, 0, 0, |src|, |dst|)
  }

  // ---------- Grouping with three lines of context ----------

  const CONTEXT := 3

  function Head(op: Opcode): Opcode {
    op.(i2 := if op.i2 < op.i1 + CONTEXT then op.i2 else op.i1 + CONTEXT,
        j2 := if op.j2 < op.j1 + CONTEXT then op.j2 else op.j1 + CONTEXT)
  }

  function Tail(op: Opcode): Opcode {
    op.(i1 := if op.i2 < op.i1 + CONTEXT then op.i1 else op.i2 - CONTEXT,
        j1 := if op.j2 < op.j1 + CONTEXT then op.j1 else op.j2 - CONTEXT)
  }

  function TrimFirst(codes: seq<Opcode>): (r: seq<Opcode>)
    ensures |r| == |codes|
  {
    if codes != [] && codes[0].tag.Equal? then codes[0 := Tail(codes[0])] else codes
  }

  function TrimLast(codes: seq<Opcode>): (r: seq<Opcode>)
    ensures |r| == |codes|
  {
    if codes != [] && codes[|codes| - 1].tag.Equal?
    then codes[|codes| - 1 := Head(codes[|codes| - 1])] else codes
  }

  predicate NonEmptyAll(groups: seq<seq<Opcode>>) {
    forall i :: 0 <= i < |groups| ==> groups[i] != []
  }

  datatype Grouping = Grouping(done: seq<seq<Opcode>>, cur: seq<Opcode>)

  /** A long equal run ends the current group and starts the next one. */
  function GroupStep(g: Grouping, op: Opcode): Grouping {
    if op.tag.Equal? && op.i2 - op.i1 > 2 * CONTEXT
    then Grouping(g.done + [g.cur + [Head(op)]], [Tail(op)])
    else Grouping(g.done, g.cur + [op])
  }

  function GroupFold(codes: seq<Opcode>): (r: Grouping)
    ensures NonEmptyAll(r.done)
    ensures codes != [] ==> r.cur != []
  {
    if codes == [] then Grouping([], []) else GroupStep(GroupFold(codes[..|codes| - 1]), codes[|codes| - 1])
  }

  function Groups(codes: seq<Opcode>): (r: seq<seq<Opcode>>)
    ensures NonEmptyAll(r)
  {
    var g := GroupFold(TrimLast(TrimFirst(codes)));
    if g.cur == [] || (|g.cur| == 1 && g.cur[0].tag.Equal?) then g.done else g.done + [g.cur]
  }

  function Contexts(s: seq<string>): seq<Line> {
    seq(|s|, i requires 0 <= i < |s| => Context(s[i]))
  }

  function Deletes(s: seq<string>): seq<Line> {
    seq(|s|, i requires 0 <= i < |s| => Delete(s[i]))
  }

  function Inserts(s: seq<string>): seq<Line> {
    seq(|s|, i requires 0 <= i < |s| => Insert(s[i]))
  }

  function OpBody(src: seq<string>, dst: seq<string>, op: Opcode): seq<Line> {
    var from, to := Slice(src, op.i1, op.i2), Slice(dst, op.j1, op.j2);
    match op.tag
    case Equal => Contexts(from)
    case Replace => Deletes(from) + Inserts(to)
    case Remove => Deletes(from)
    case Add => Inserts(to)
  }

  function GroupBody(src: seq<string>, dst: seq<string>, group: seq<Opcode>): seq<Line> {
    if group == [] then []
    else GroupBody(src, dst, group[..|group| - 1]) + OpBody(src, dst, group[|group| - 1])
  }

  /** The start a header shows for lines a to b: one-based, or the line before an empty range. */
  function ShownStart(a: nat, b: nat): nat {
    if a == b then a else a + 1
  }

  function HunkOf(src: seq<string>, dst: seq<string>, group: seq<Opcode>): Hunk
    requires group != []
  {
    var first, last := group[0], group[|group| - 1];
    Hunk(ShownStart(first.i1, last.i2), ShownStart(first.j1, last.j2), GroupBody(src, dst, group))
  }

  function HunksOf(src: seq<string>, dst: seq<string>, groups: seq<seq<Opcode>>): seq<Hunk>
    requires NonEmptyAll(groups)
  {
    if groups == [] then []
    else HunksOf(src, dst, groups[..|groups| - 1]) + [HunkOf(src, dst, groups[|groups| - 1])]
  }

  // ---------- A group is a hunk between its end points ----------

  lemma OldNewSnoc(body: seq<Line>, l: Line)
    ensures Old(body + [l]) == Old(body) + if l.Context? || l.Delete? then [l.text] else []
    ensures New(body + [l]) == New(body) + if l.Context? || l.Insert? then [l.text] else []
  {
    assert (body + [l])[..|body|] == body;
  }

  lemma {:induction false} OldNewConcat(left: seq<Line>, right: seq<Line>)
    ensures Old(left + right) == Old(left) + Old(right) && New(left + right) == New(left) + New(right)
  {
    if right == [] {
      assert left + right == left;
    } else {
      var init, l := right[..|right| - 1], right[|right| - 1];
      OldNewConcat(left, init);
      OldNewSnoc(left + init, l);
      assert left + right == left + init + [l];
    }
  }

  lemma {:induction false} ContextLines(s: seq<string>)
    ensures Old(Contexts(s)) == s && New(Contexts(s)) == s
  {
    if s != [] {
      var t := s[..|s| - 1];
      ContextLines(t);
      assert Contexts(s)[..|t|] == Contexts(t) && t + [s[|t|]] == s;
    }
  }

  lemma {:induction false} DeletedLines(s: seq<string>)
    ensures Old(Deletes(s)) == s && New(Deletes(s)) == []
  {
    if s != [] {
      var t := s[..|s| - 1];
      DeletedLines(t);
      assert Deletes(s)[..|t|] == Deletes(t) && t + [s[|t|]] == s;
    }
  }

  lemma {:induction false} InsertedLines(s: seq<string>)
    ensures Old(Inserts(s)) == [] && New(Inserts(s)) == s
  {
    if s != [] {
      var t := s[..|s| - 1];
      InsertedLines(t);
      assert Inserts(s)[..|t|] == Inserts(t) && t + [s[|t|]] == s;
    }
  }

  lemma OpContents(src: seq<string>, dst: seq<string>, op: Opcode)
    requires ValidOp(src, dst, op)
    ensures Old(OpBody(src, dst, op)) == src[op.i1..op.i2] && New(OpBody(src, dst, op)) == dst[op.j1..op.j2]
  {
    ContextLines(src[op.i1..op.i2]);
    DeletedLines(src[op.i1..op.i2]);
    InsertedLines(dst[op.j1..op.j2]);
    OldNewConcat(Deletes(src[op.i1..op.i2]), Inserts(dst[op.j1..op.j2]));
  }

  lemma {:induction false} ChainBounds(src: seq<string>, dst: seq<string>, ops: seq<Opcode>, a: nat, b: nat, c: nat, d: nat)
    requires Chain(src, dst, ops, a, b, c, d)
    ensures a <= c && b <= d && (ops != [] ==> c <= |src| && d <= |dst| && ops[0].i1 == a && ops[0].j1 == b)
    ensures forall op <- ops :: ValidOp(src, dst, op) && op.i2 <= c
  {
    if ops != [] {
      var before, op := ops[..|ops| - 1], ops[|ops| - 1];
      ChainBounds(src, dst, before, a, b, op.i1, op.j1);
      assert forall x <- ops :: x in before || x == op;
    }
  }

  lemma {:induction false} GroupContents(src: seq<string>, dst: seq<string>, g: seq<Opcode>, a: nat, b: nat, c: nat, d: nat)
    requires Chain(src, dst, g, a, b, c, d) && c <= |src| && d <= |dst|
    ensures a <= c && b <= d
    ensures Old(GroupBody(src, dst, g)) == src[a..c] && New(GroupBody(src, dst, g)) == dst[b..d]
  {
    if g != [] {
      var before, op := g[..|g| - 1], g[|g| - 1];
      GroupContents(src, dst, before, a, b, op.i1, op.j1);
      OpContents(src, dst, op);
      OldNewConcat(GroupBody(src, dst, before), OpBody(src, dst, op));
      SplitRange(src, a, op.i1, c);
      SplitRange(dst, b, op.j1, d);
    }
  }

  lemma SplitRange<T>(s: seq<T>, a: nat, m: nat, c: nat)
    requires a <= m <= c <= |s|
    ensures s[a..m] + s[m..c] == s[a..c]
  {
  }

  lemma HunkOfChain(src: seq<string>, dst: seq<string>, g: seq<Opcode>, a: nat, b: nat, c: nat, d: nat)
    requires g != [] && Chain(src, dst, g, a, b, c, d)
    ensures a <= c <= |src| && b <= d <= |dst|
    ensures var h := HunkOf(src, dst, g);
            OldPos(h) == a && NewPos(h) == b && Old(h.body) == src[a..c] && New(h.body) == dst[b..d]
  {
    ChainBounds(src, dst, g, a, b, c, d);
    GroupContents(src, dst, g, a, b, c, d);
  }

  // ---------- The groups together rewrite src into new ----------

  /** src from a to c and new from b to d are the same lines. */
  predicate SameLines(src: seq<string>, dst: seq<string>, a: nat, b: nat, c: nat, d: nat) {
    a <= c <= |src| && b <= d <= |dst| && src[a..c] == dst[b..d]
  }

  lemma SameLinesJoin(src: seq<string>, dst: seq<string>, a: nat, b: nat, c: nat, d: nat, e: nat, f: nat)
    requires SameLines(src, dst, a, b, c, d) && SameLines(src, dst, c, d, e, f)
    ensures SameLines(src, dst, a, b, e, f)
  {
    assert src[a..e] == src[a..c] + src[c..e] && dst[b..f] == dst[b..d] + dst[d..f];
  }

  lemma EqualOpSplits(src: seq<string>, dst: seq<string>, op: Opcode)
    requires ValidOp(src, dst, op) && op.tag.Equal?
    ensures ValidOp(src, dst, Head(op)) && ValidOp(src, dst, Tail(op))
    ensures SameLines(src, dst, op.i1, op.j1, Tail(op).i1, Tail(op).j1)
    ensures SameLines(src, dst, Head(op).i2, Head(op).j2, op.i2, op.j2)
    ensures op.i2 - op.i1 > 2 * CONTEXT ==>
              SameLines(src, dst, Head(op).i2, Head(op).j2, Tail(op).i1, Tail(op).j1)
  {
    var n := op.i2 - op.i1;
    assert |src[op.i1..op.i2]| == |dst[op.j1..op.j2]| == n;
    var head, tail := Head(op).i2 - op.i1, Tail(op).i1 - op.i1;
    EqualPart(src, dst, op, 0, head);
    EqualPart(src, dst, op, head, n);
    EqualPart(src, dst, op, 0, tail);
    EqualPart(src, dst, op, tail, n);
    if n > 2 * CONTEXT {
      EqualPart(src, dst, op, head, tail);
    }
  }

  lemma SliceOfSlice<T>(s: seq<T>, a: nat, b: nat, x: nat, y: nat)
    requires a <= b <= |s| && x <= y <= b - a
    ensures s[a + x..a + y] == s[a..b][x..y]
  {
    var inner := s[a..b];
    forall i | 0 <= i < y - x ensures s[a + x..a + y][i] == inner[x..y][i] {
      assert inner[x + i] == s[a + x + i];
    }
  }

  lemma EqualPart(src: seq<string>, dst: seq<string>, op: Opcode, x: nat, y: nat)
    requires ValidOp(src, dst, op) && op.tag.Equal? && x <= y <= op.i2 - op.i1
    ensures SameLines(src, dst, op.i1 + x, op.j1 + x, op.i1 + y, op.j1 + y)
  {
    var same, same' := src[op.i1..op.i2], dst[op.j1..op.j2];
    assert |same| == |same'| && same[x..y] == same'[x..y];
    SliceOfSlice(src, op.i1, op.i2, x, y);
    SliceOfSlice(dst, op.j1, op.j2, x, y);
  }

  /** Finished hunks rewrite a prefix, gaps between hunks are equal, every finished hunk has src lines. */
  predicate Progressing(src: seq<string>, dst: seq<string>, hs: seq<Hunk>, p: nat, q: nat) {
    PatchedPrefix(src, dst, hs) && NewStartsAgree(hs) && Ordered(hs)
    && SameLines(src, dst, OldEnd(hs), NewEnd(hs), p, q)
  }

  lemma FitsBetween(src: seq<string>, dst: seq<string>, a: nat, b: nat, p: nat, q: nat, c: nat, d: nat, h: Hunk)
    requires SameLines(src, dst, a, b, p, q) && p <= c <= |src| && q <= d <= |dst|
    requires Old(h.body) == src[p..c] && New(h.body) == dst[q..d]
    ensures Fits(src, dst, a, b, p, q, h)
  {
  }

  lemma AddHunk(src: seq<string>, dst: seq<string>, hs: seq<Hunk>, g: seq<Opcode>, p: nat, q: nat, c: nat, d: nat)
    requires Progressing(src, dst, hs, p, q) && g != [] && Chain(src, dst, g, p, q, c, d)
    ensures c <= |src| && d <= |dst|
    ensures var r := hs + [HunkOf(src, dst, g)];
            && PatchedPrefix(src, dst, r) && NewStartsAgree(r) && OldEnd(r) == c && NewEnd(r) == d
            && (p < c ==> Ordered(r))
  {
    var h := HunkOf(src, dst, g);
    var r := hs + [h];
    assert r[..|hs|] == hs;
    HunkOfChain(src, dst, g, p, q, c, d);
    assert q - p == Growth(hs) by {
      assert |src[OldEnd(hs)..p]| == |dst[NewEnd(hs)..q]|;
    }
    FitsBetween(src, dst, OldEnd(hs), NewEnd(hs), p, q, c, d, h);
    PrefixSnoc(src, dst, hs, h);
  }

  predicate GroupingFits(src: seq<string>, dst: seq<string>, g: Grouping, a: nat, c: nat, d: nat) {
    && NonEmptyAll(g.done) && g.cur != [] && Chain(src, dst, g.cur, g.cur[0].i1, g.cur[0].j1, c, d)
    && Progressing(src, dst, HunksOf(src, dst, g.done), g.cur[0].i1, g.cur[0].j1)
    && if g.done == [] then g.cur[0].i1 == a else g.cur[0].i1 < c
  }

  lemma {:induction false} GroupFoldFits(src: seq<string>, dst: seq<string>, ops: seq<Opcode>, a: nat, b: nat, c: nat, d: nat)
    requires ops != [] && Chain(src, dst, ops, a, b, c, d) && SameLines(src, dst, 0, 0, a, b)
    ensures GroupingFits(src, dst, GroupFold(ops), a, c, d)
  {
    var before, op := ops[..|ops| - 1], ops[|ops| - 1];
    var g0 := GroupFold(before);
    if before == [] {
      assert g0 == Grouping([], []);
      assert Progressing(src, dst, HunksOf(src, dst, []), op.i1, op.j1);
    } else {
      GroupFoldFits(src, dst, before, a, b, op.i1, op.j1);
    }
    if op.tag.Equal? && op.i2 - op.i1 > 2 * CONTEXT {
      SplitGroup(src, dst, g0, op, a, b);
    } else {
      ExtendGroup(src, dst, g0, op, a, b);
    }
  }

  /** Before an operation: nothing grouped yet, or a grouping that fits up to the operation. */
  predicate Ready(src: seq<string>, dst: seq<string>, g: Grouping, op: Opcode, a: nat, b: nat) {
    && ValidOp(src, dst, op)
    && if g.cur == [] then g.done == [] && op.i1 == a && op.j1 == b && Progressing(src, dst, [], a, b)
       else GroupingFits(src, dst, g, a, op.i1, op.j1)
  }

  lemma ExtendGroup(src: seq<string>, dst: seq<string>, g: Grouping, op: Opcode, a: nat, b: nat)
    requires Ready(src, dst, g, op, a, b)
    ensures GroupingFits(src, dst, Grouping(g.done, g.cur + [op]), a, op.i2, op.j2)
  {
    var longer := g.cur + [op];
    ChainSnoc(src, dst, g.cur, op, longer[0].i1, longer[0].j1);
  }

  lemma NonEmptySnoc(groups: seq<seq<Opcode>>, g: seq<Opcode>)
    requires NonEmptyAll(groups) && g != []
    ensures NonEmptyAll(groups + [g])
  {
  }

  lemma SplitGroup(src: seq<string>, dst: seq<string>, g: Grouping, op: Opcode, a: nat, b: nat)
    requires Ready(src, dst, g, op, a, b) && op.tag.Equal? && op.i2 - op.i1 > 2 * CONTEXT
    ensures GroupingFits(src, dst, Grouping(g.done + [g.cur + [Head(op)]], [Tail(op)]), a, op.i2, op.j2)
  {
    var closed := g.cur + [Head(op)];
    EqualOpSplits(src, dst, op);
    ChainSnoc(src, dst, g.cur, Head(op), closed[0].i1, closed[0].j1);
    if g.cur != [] {
      ChainBounds(src, dst, g.cur, g.cur[0].i1, g.cur[0].j1, op.i1, op.j1);
    }
    CloseGroup(src, dst, g.done, closed, Head(op).i2, Head(op).j2);
    NonEmptySnoc(g.done, closed);
    assert Progressing(src, dst, HunksOf(src, dst, g.done + [closed]), Tail(op).i1, Tail(op).j1);
    ChainSnoc(src, dst, [], Tail(op), Tail(op).i1, Tail(op).j1);
    assert [] + [Tail(op)] == [Tail(op)];
  }

  lemma ChainSnoc(src: seq<string>, dst: seq<string>, ops: seq<Opcode>, op: Opcode, a: nat, b: nat)
    requires Chain(src, dst, ops, a, b, op.i1, op.j1) && ValidOp(src, dst, op)
    ensures Chain(src, dst, ops + [op], a, b, op.i2, op.j2)
  {
    assert (ops + [op])[..|ops|] == ops;
  }

  lemma CloseGroup(src: seq<string>, dst: seq<string>, done: seq<seq<Opcode>>, g: seq<Opcode>, c: nat, d: nat)
    requires NonEmptyAll(done) && g != [] && Chain(src, dst, g, g[0].i1, g[0].j1, c, d)
    requires Progressing(src, dst, HunksOf(src, dst, done), g[0].i1, g[0].j1)
    ensures c <= |src| && d <= |dst|
    ensures var r := HunksOf(src, dst, done + [g]);
            && r == HunksOf(src, dst, done) + [HunkOf(src, dst, g)]
            && PatchedPrefix(src, dst, r) && NewStartsAgree(r) && OldEnd(r) == c && NewEnd(r) == d
            && (g[0].i1 < c ==> Ordered(r))
  {
    AddHunk(src, dst, HunksOf(src, dst, done), g, g[0].i1, g[0].j1, c, d);
    assert (done + [g])[..|done|] == done;
  }

  // ---------- Trimming keeps the ends equal ----------

  lemma {:induction false} ChainFrom(src: seq<string>, dst: seq<string>, ops: seq<Opcode>, first: Opcode, a: nat, b: nat, c: nat, d: nat)
    requires ops != [] && Chain(src, dst, ops, a, b, c, d)
    requires ValidOp(src, dst, first) && first.i2 == ops[0].i2 && first.j2 == ops[0].j2
    ensures Chain(src, dst, ops[0 := first], first.i1, first.j1, c, d)
  {
    var r := ops[0 := first];
    if |ops| == 1 {
      assert r[..0] == [];
    } else {
      var before, op := ops[..|ops| - 1], ops[|ops| - 1];
      ChainFrom(src, dst, before, first, a, b, op.i1, op.j1);
      assert r[..|r| - 1] == before[0 := first];
    }
  }

  lemma TrimFirstFits(src: seq<string>, dst: seq<string>, codes: seq<Opcode>)
    requires codes != [] && CorrectOpcodes(src, dst, codes)
    ensures var t := TrimFirst(codes);
            && Chain(src, dst, t, t[0].i1, t[0].j1, |src|, |dst|)
            && SameLines(src, dst, 0, 0, t[0].i1, t[0].j1)
            && (t[0].i1 > 0 ==> t[0].tag.Equal?)
  {
    ChainBounds(src, dst, codes, 0, 0, |src|, |dst|);
    assert codes[0] in codes;
    if codes[0].tag.Equal? {
      EqualOpSplits(src, dst, codes[0]);
      ChainFrom(src, dst, codes, Tail(codes[0]), 0, 0, |src|, |dst|);
    }
  }

  lemma TrimLastFits(src: seq<string>, dst: seq<string>, codes: seq<Opcode>, a: nat, b: nat)
    requires codes != [] && Chain(src, dst, codes, a, b, |src|, |dst|)
    ensures var t := TrimLast(codes); var last := t[|t| - 1];
            && Chain(src, dst, t, a, b, last.i2, last.j2)
            && SameLines(src, dst, last.i2, last.j2, |src|, |dst|)
            && (last.i2 < |src| ==> last.tag.Equal?)
            && t[0].i1 == codes[0].i1 && t[0].tag == codes[0].tag
  {
    var last := codes[|codes| - 1];
    if last.tag.Equal? {
      EqualOpSplits(src, dst, last);
      assert TrimLast(codes) == codes[..|codes| - 1] + [Head(last)];
      ChainSnoc(src, dst, codes[..|codes| - 1], Head(last), a, b);
    }
  }

  // ---------- The round trip ----------

  function DiffHunks(src: seq<string>, dst: seq<string>, codes: seq<Opcode>): seq<Hunk> {
    HunksOf(src, dst, Groups(codes))
  }

  /** _compute_diff_lines: None when there is nothing to show. */
  function ComputeDiffLines(src: seq<string>, dst: seq<string>, codes: seq<Opcode>): Option<seq<string>> {
    if Groups(codes) == [] then None else Some(RenderHunks(DiffHunks(src, dst, codes)))
  }

  lemma FinalGroup(src: seq<string>, dst: seq<string>, g: Grouping, c: nat, d: nat)
    requires g.cur != [] && GroupingFits(src, dst, g, g.cur[0].i1, c, d)
    requires SameLines(src, dst, c, d, |src|, |dst|)
    requires !(|g.cur| == 1 && g.cur[0].tag.Equal?)
    ensures var hs := HunksOf(src, dst, g.done + [g.cur]);
            && Patches(src, dst, hs) && NewStartsAgree(hs)
            && (g.cur[0].i1 < c ==> Ordered(hs))
  {
    SameTail(src, dst, c, d);
    CloseGroup(src, dst, g.done, g.cur, c, d);
  }

  lemma SameTail(src: seq<string>, dst: seq<string>, c: nat, d: nat)
    requires SameLines(src, dst, c, d, |src|, |dst|)
    ensures src[c..] == dst[d..]
  {
    assert src[c..] == src[c..|src|] && dst[d..] == dst[d..|dst|];
  }

  lemma DroppedGroup(src: seq<string>, dst: seq<string>, g: Grouping, c: nat, d: nat)
    requires g.cur != [] && GroupingFits(src, dst, g, g.cur[0].i1, c, d)
    requires SameLines(src, dst, c, d, |src|, |dst|)
    requires |g.cur| == 1 && g.cur[0].tag.Equal?
    ensures var hs := HunksOf(src, dst, g.done); Patches(src, dst, hs) && NewStartsAgree(hs) && Ordered(hs)
  {
    var hs, op := HunksOf(src, dst, g.done), g.cur[0];
    EqualPart(src, dst, op, 0, op.i2 - op.i1);
    SameLinesJoin(src, dst, OldEnd(hs), NewEnd(hs), op.i1, op.j1, c, d);
    SameLinesJoin(src, dst, OldEnd(hs), NewEnd(hs), c, d, |src|, |dst|);
    SameTail(src, dst, OldEnd(hs), NewEnd(hs));
  }

  /** The trimmed script of a correct one, and the ends it reaches. */
  predicate Trimmed(src: seq<string>, dst: seq<string>, ops: seq<Opcode>) {
    && ops != []
    && var first, last := ops[0], ops[|ops| - 1];
       && Chain(src, dst, ops, first.i1, first.j1, last.i2, last.j2)
       && SameLines(src, dst, 0, 0, first.i1, first.j1)
       && SameLines(src, dst, last.i2, last.j2, |src|, |dst|)
       && (first.i1 > 0 ==> first.tag.Equal?) && (last.i2 < |src| ==> last.tag.Equal?)
  }

  lemma TrimFits(src: seq<string>, dst: seq<string>, codes: seq<Opcode>)
    requires codes != [] && CorrectOpcodes(src, dst, codes)
    ensures Trimmed(src, dst, TrimLast(TrimFirst(codes)))
  {
    var first := TrimFirst(codes);
    TrimFirstFits(src, dst, codes);
    TrimLastFits(src, dst, first, first[0].i1, first[0].j1);
    var ops := TrimLast(first);
    ChainBounds(src, dst, ops, first[0].i1, first[0].j1, ops[|ops| - 1].i2, ops[|ops| - 1].j2);
  }

  /** A group without old lines is the only one, and old has no lines. */
  lemma EmptyOldSide(src: seq<string>, dst: seq<string>, ops: seq<Opcode>)
    requires Trimmed(src, dst, ops) && ops[|ops| - 1].i2 <= ops[0].i1
    ensures src == [] && ops[0].i1 == 0
  {
    var first, last := ops[0], ops[|ops| - 1];
    ChainBounds(src, dst, ops, first.i1, first.j1, last.i2, last.j2);
    assert ValidOp(src, dst, first) && ValidOp(src, dst, last);
  }

  /** What the hunks of a script are for: each consumes a line unless src has none. */
  predicate Patching(src: seq<string>, dst: seq<string>, hs: seq<Hunk>) {
    && Patches(src, dst, hs) && NewStartsAgree(hs)
    && (Ordered(hs) || (src == [] && |hs| == 1 && Old(hs[0].body) == []))
  }

  lemma OnlyGroup(src: seq<string>, dst: seq<string>, g: Grouping, c: nat, d: nat)
    requires GroupingFits(src, dst, g, 0, c, d) && c == 0 && src == []
    ensures g.done == []
    ensures var hs := HunksOf(src, dst, g.done + [g.cur]); |hs| == 1 && Old(hs[0].body) == []
  {
    HunkOfChain(src, dst, g.cur, g.cur[0].i1, g.cur[0].j1, c, d);
    assert ([] + [g.cur])[..0] == [];
  }

  lemma LastGroup(src: seq<string>, dst: seq<string>, ops: seq<Opcode>, g: Grouping, c: nat, d: nat)
    requires Trimmed(src, dst, ops) && c == ops[|ops| - 1].i2 && d == ops[|ops| - 1].j2
    requires g.cur != [] && GroupingFits(src, dst, g, ops[0].i1, c, d)
    requires !(|g.cur| == 1 && g.cur[0].tag.Equal?)
    ensures Patching(src, dst, HunksOf(src, dst, g.done + [g.cur]))
  {
    FinalGroup(src, dst, g, c, d);
    if g.cur[0].i1 >= c {
      EmptyOldSide(src, dst, ops);
      OnlyGroup(src, dst, g, c, d);
    }
  }

  /** The hunks of a correct script patch src into dst; each consumes a line unless src has none. */
  lemma DiffHunksPatch(src: seq<string>, dst: seq<string>, codes: seq<Opcode>)
    requires CorrectOpcodes(src, dst, codes)
    ensures Patching(src, dst, DiffHunks(src, dst, codes))
  {
    if codes != [] {
      var ops := TrimLast(TrimFirst(codes));
      TrimFits(src, dst, codes);
      var first, last := ops[0], ops[|ops| - 1];
      GroupFoldFits(src, dst, ops, first.i1, first.j1, last.i2, last.j2);
      var g := GroupFold(ops);
      if |g.cur| == 1 && g.cur[0].tag.Equal? {
        DroppedGroup(src, dst, g, last.i2, last.j2);
      } else {
        LastGroup(src, dst, ops, g, last.i2, last.j2);
      }
    }
  }

  /** Emitting a diff and replaying it on the old lines gives the new lines, whatever the lines are, and
      each header announces the lines that follow it. */
  lemma DeltaRoundTrip(src: seq<string>, dst: seq<string>, codes: seq<Opcode>)
    requires CorrectOpcodes(src, dst, codes)
    ensures match ComputeDiffLines(src, dst, codes)
            case None => src == dst
            case Some(lines) => Replay(src, lines) == Ok(dst) && Announced(lines)
  {
    var hs := DiffHunks(src, dst, codes);
    HunksAnnounced(hs);
    DiffHunksPatch(src, dst, codes);
    if Groups(codes) != [] {
      PatchRoundTrip(hs);
      ReplayMatchesParse(src, RenderHunks(hs));
      if Ordered(hs) {
        ReplayExact(src, hs, dst);
      } else {
        assert hs == [hs[0]];
        InsertionMeaning(src, dst, hs[0]);
        InsertionReplay(src, hs[0]);
        assert src[..0] + New(hs[0].body) + src[0..] == New(hs[0].body);
      }
    }
  }

  lemma {:induction false} HunksStart(hs: seq<Hunk>)
    ensures var lines := RenderHunks(hs);
            && |lines| >= 2 && lines[0] == "--- old" && lines[1] == "+++ new"
            && (hs != [] ==> |lines| > 2 && IsHeader(lines[2]))
  {
    if hs != [] {
      var before, h := hs[..|hs| - 1], hs[|hs| - 1];
      HunksStart(before);
      HeaderRoundTrip(h);
      if before == [] {
        assert RenderHunks(hs) == ["--- old", "+++ new"] + [FormatHeader(h)] + RenderBody(h.body);
      }
    }
  }

  /** A diff names the two sides and then starts with a hunk. */
  lemma DiffStarts(src: seq<string>, dst: seq<string>, codes: seq<Opcode>)
    ensures match ComputeDiffLines(src, dst, codes)
            case None => true
            case Some(lines) => |lines| > 2 && lines[0] == "--- old" && lines[1] == "+++ new" && IsHeader(lines[2])
  {
    if Groups(codes) != [] {
      HunksStart(DiffHunks(src, dst, codes));
    }
  }

  // ---------- The reported number of changed lines ----------

  /** _count_changed_lines */
  function CountChangedLines(lines: seq<string>): nat {
    if lines == [] then 0
    else
      var l := lines[|lines| - 1];
      CountChangedLines(lines[..|lines| - 1])
      + if (StartsWith(l, "+") || StartsWith(l, "-")) && !StartsWith(l, "+++") && !StartsWith(l, "---") then 1 else 0
  }

  predicate IsChange(l: Line) {
    l.Insert? || l.Delete?
  }

  /** A changed line the counter takes for a file header. */
  predicate Overlooked(l: Line) {
    (l.Insert? && StartsWith(l.text, "++")) || (l.Delete? && StartsWith(l.text, "--"))
  }

  function CountLines(body: seq<Line>, p: Line -> bool): nat {
    if body == [] then 0 else CountLines(body[..|body| - 1], p) + if p(body[|body| - 1]) then 1 else 0
  }

  function CountAll(hs: seq<Hunk>, p: Line -> bool): nat {
    if hs == [] then 0 else CountAll(hs[..|hs| - 1], p) + CountLines(hs[|hs| - 1].body, p)
  }

  lemma {:induction false} CountConcat(left: seq<string>, right: seq<string>)
    ensures CountChangedLines(left + right) == CountChangedLines(left) + CountChangedLines(right)
  {
    if right == [] {
      assert left + right == left;
    } else {
      CountConcat(left, right[..|right| - 1]);
      assert (left + right)[..|left + right| - 1] == left + right[..|right| - 1];
    }
  }

  lemma CountLine(l: Line)
    ensures CountChangedLines([RenderLine(l)]) == if IsChange(l) && !Overlooked(l) then 1 else 0
  {
    var s := RenderLine(l);
    assert [s][..0] == [];
    if IsChange(l) {
      assert s[1..] == l.text;
      assert StartsWith(s, "+++") ==> s[..3] == "+++" && l.text[..2] == s[1..3] == "++";
      assert StartsWith(s, "---") ==> s[..3] == "---" && l.text[..2] == s[1..3] == "--";
      assert |l.text| >= 2 ==> s[..3] == [s[0]] + l.text[..2];
    } else {
      assert s[0] != '+' && s[0] != '-';
    }
  }

  lemma {:induction false} CountBody(body: seq<Line>)
    ensures CountChangedLines(RenderBody(body)) + CountLines(body, Overlooked) == CountLines(body, IsChange)
  {
    if body != [] {
      CountBody(body[..|body| - 1]);
      CountLine(body[|body| - 1]);
      CountConcat(RenderBody(body[..|body| - 1]), [RenderLine(body[|body| - 1])]);
    }
  }

  lemma FileHeadersUncounted()
    ensures CountChangedLines(["--- old", "+++ new"]) == 0
  {
    assert ["--- old", "+++ new"][..1] == ["--- old"] && ["--- old"][..0] == [];
    assert "--- old"[..3] == "---" && "+++ new"[..3] == "+++";
  }

  lemma HeaderUncounted(h: Hunk)
    ensures CountChangedLines([FormatHeader(h)]) == 0
  {
    assert [FormatHeader(h)][..0] == [] && FormatHeader(h)[0] == '@';
  }

  /** The count is the number of inserted and deleted lines, less those that look like a file header. */
  lemma {:induction false} ChangedLinesExact(hs: seq<Hunk>)
    ensures CountChangedLines(RenderHunks(hs)) + CountAll(hs, Overlooked) == CountAll(hs, IsChange)
  {
    if hs == [] {
      FileHeadersUncounted();
    } else {
      var before, h := hs[..|hs| - 1], hs[|hs| - 1];
      ChangedLinesExact(before);
      CountBody(h.body);
      HeaderUncounted(h);
      CountConcat(RenderHunks(before), [FormatHeader(h)]);
      CountConcat(RenderHunks(before) + [FormatHeader(h)], RenderBody(h.body));
    }
  }
}
