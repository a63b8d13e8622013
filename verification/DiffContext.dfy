/** How much context an emitted diff shows (src/tok/compression/__init__.py, _compute_diff_lines): difflib's
    default of three lines around each change, and one hunk for changes at most six lines apart. */
module DiffContext {
  import opened Text
  import opened UnifiedDiff
  import opened DiffEmitter

  // ---------- Context in the lines of a hunk ----------

  function Leading(body: seq<Line>): nat {
    if body == [] || !body[0].Context? then 0 else 1 + Leading(body[1..])
  }

  function Trailing(body: seq<Line>): nat {
    if body == [] || !body[|body| - 1].Context? then 0 else 1 + Trailing(body[..|body| - 1])
  }

  /** No more than m lines of context in a row. */
  predicate RunsUpTo(body: seq<Line>, m: nat) {
    body == [] || (RunsUpTo(body[..|body| - 1], m) && Trailing(body) <= m)
  }

  // ---------- Groups of operations ----------

  /** No two equal runs meet: the matcher merges them. */
  predicate Alternating(ops: seq<Opcode>) {
    forall i :: 0 <= i < |ops| - 1 ==> !(ops[i].tag.Equal? && ops[i + 1].tag.Equal?)
  }

  function Size(op: Opcode): int {
    op.i2 - op.i1
  }

  /** A group starts with three lines of context, or at the start of the text with what there is. */
  predicate StartsWell(op: Opcode) {
    if op.tag.Equal? then Size(op) == 3 || (Size(op) < 3 && op.i1 == 0) else op.i1 == 0
  }

  predicate EndsWell(n: nat, op: Opcode) {
    if op.tag.Equal? then Size(op) == 3 || (Size(op) < 3 && op.i2 == n) else op.i2 == n
  }

  predicate Linked(src: seq<string>, dst: seq<string>, g: seq<Opcode>) {
    g != [] && var first, last := g[0], g[|g| - 1]; Chain(src, dst, g, first.i1, first.j1, last.i2, last.j2)
  }

  predicate ShortRuns(g: seq<Opcode>) {
    forall i :: 0 <= i < |g| && g[i].tag.Equal? ==> Size(g[i]) <= 6
  }

  predicate Open(src: seq<string>, dst: seq<string>, g: seq<Opcode>) {
    Linked(src, dst, g) && Alternating(g) && ShortRuns(g) && StartsWell(g[0])
  }

  predicate Changes(g: seq<Opcode>) {
    exists i :: 0 <= i < |g| && !g[i].tag.Equal?
  }

  predicate Closed(src: seq<string>, dst: seq<string>, g: seq<Opcode>) {
    Open(src, dst, g) && EndsWell(|src|, g[|g| - 1]) && Changes(g)
  }

  predicate AllClosed(src: seq<string>, dst: seq<string>, groups: seq<seq<Opcode>>) {
    forall i :: 0 <= i < |groups| ==> Closed(src, dst, groups[i])
  }

  /** Between the two groups there is at least one line. */
  predicate Before(g: seq<Opcode>, h: seq<Opcode>) {
    g != [] && h != [] && g[|g| - 1].i2 < h[0].i1
  }

  predicate Spaced(groups: seq<seq<Opcode>>) {
    forall i :: 0 <= i < |groups| - 1 ==> Before(groups[i], groups[i + 1])
  }

  lemma SpacedSnoc(groups: seq<seq<Opcode>>, g: seq<Opcode>)
    requires Spaced(groups) && (groups != [] ==> Before(groups[|groups| - 1], g))
    ensures Spaced(groups + [g])
  {
    var more := groups + [g];
    forall i | 0 <= i < |more| - 1 ensures Before(more[i], more[i + 1]) {
      assert more[i] == groups[i] && (i < |groups| - 1 ==> more[i + 1] == groups[i + 1]);
    }
  }

  lemma SpacedFront(groups: seq<seq<Opcode>>, g: seq<Opcode>)
    requires Spaced(groups + [g])
    ensures Spaced(groups) && (groups != [] ==> Before(groups[|groups| - 1], g))
  {
    var more, n := groups + [g], |groups|;
    assert n > 0 ==> Before(more[n - 1], more[n]);
    forall i | 0 <= i < n - 1 ensures Before(groups[i], groups[i + 1]) {
      assert Before(more[i], more[i + 1]);
    }
  }

  /** A group that grows keeps its place. */
  lemma SpacedGrows(groups: seq<seq<Opcode>>, g: seq<Opcode>, longer: seq<Opcode>)
    requires Spaced(groups + [g]) && g != [] && g <= longer
    ensures Spaced(groups + [longer])
  {
    SpacedFront(groups, g);
    SpacedSnoc(groups, longer);
  }

  /** The grouping of operations that end with op. */
  predicate Grouped(src: seq<string>, dst: seq<string>, g: Grouping, op: Opcode) {
    && AllClosed(src, dst, g.done) && Open(src, dst, g.cur) && Spaced(g.done + [g.cur])
    && var last := g.cur[|g.cur| - 1]; last.tag == op.tag && last.i2 == op.i2 && last.j2 == op.j2
  }

  lemma OpenMore(src: seq<string>, dst: seq<string>, g: seq<Opcode>, op: Opcode)
    requires Open(src, dst, g) && ValidOp(src, dst, op)
    requires var last := g[|g| - 1];
             last.i2 == op.i1 && last.j2 == op.j1 && !(last.tag.Equal? && op.tag.Equal?)
    requires op.tag.Equal? ==> Size(op) <= 6
    ensures Open(src, dst, g + [op])
  {
    ChainSnoc(src, dst, g, op, g[0].i1, g[0].j1);
    var longer := g + [op];
    assert longer[0] == g[0] && longer[|longer| - 1] == op;
    forall i | 0 <= i < |longer| - 1 ensures !(longer[i].tag.Equal? && longer[i + 1].tag.Equal?) {
      assert longer[i] == g[i] && (i < |g| - 1 ==> longer[i + 1] == g[i + 1]);
    }
  }

  lemma OpenOne(src: seq<string>, dst: seq<string>, op: Opcode)
    requires ValidOp(src, dst, op) && StartsWell(op)
    ensures Open(src, dst, [op])
  {
    assert Chain(src, dst, [], op.i1, op.j1, op.i1, op.j1);
    ChainSnoc(src, dst, [], op, op.i1, op.j1);
    assert [] + [op] == [op];
  }

  lemma ClosedSnoc(src: seq<string>, dst: seq<string>, groups: seq<seq<Opcode>>, g: seq<Opcode>)
    requires AllClosed(src, dst, groups) && Closed(src, dst, g)
    ensures AllClosed(src, dst, groups + [g])
  {
  }

  lemma LongRun(src: seq<string>, dst: seq<string>, g: Grouping, op: Opcode, last: Opcode)
    requires Grouped(src, dst, g, last) && !last.tag.Equal? && ValidOp(src, dst, op)
    requires last.i2 == op.i1 && last.j2 == op.j1 && op.tag.Equal? && Size(op) > 6
    ensures Grouped(src, dst, Grouping(g.done + [g.cur + [Head(op)]], [Tail(op)]), op)
  {
    EqualOpSplits(src, dst, op);
    OpenMore(src, dst, g.cur, Head(op));
    var closed := g.cur + [Head(op)];
    assert !closed[|g.cur| - 1].tag.Equal? && closed[|closed| - 1] == Head(op);
    ClosedSnoc(src, dst, g.done, closed);
    OpenOne(src, dst, Tail(op));
    SpacedGrows(g.done, g.cur, closed);
    SpacedSnoc(g.done + [closed], [Tail(op)]);
  }

  lemma OneStep(src: seq<string>, dst: seq<string>, g: Grouping, op: Opcode, last: Opcode)
    requires Grouped(src, dst, g, last) && ValidOp(src, dst, op)
    requires last.i2 == op.i1 && last.j2 == op.j1 && !(last.tag.Equal? && op.tag.Equal?)
    ensures Grouped(src, dst, GroupStep(g, op), op)
    ensures !(op.tag.Equal? && Size(op) > 6) ==> GroupStep(g, op).cur[|GroupStep(g, op).cur| - 1] == op
  {
    if op.tag.Equal? && Size(op) > 6 {
      LongRun(src, dst, g, op, last);
    } else {
      OpenMore(src, dst, g.cur, op);
      SpacedGrows(g.done, g.cur, g.cur + [op]);
    }
  }

  lemma {:induction false} FoldGrouped(src: seq<string>, dst: seq<string>, ops: seq<Opcode>, a: nat, b: nat, c: nat, d: nat)
    requires ops != [] && Chain(src, dst, ops, a, b, c, d) && Alternating(ops) && StartsWell(ops[0])
    ensures var g, last := GroupFold(ops), ops[|ops| - 1];
            && Grouped(src, dst, g, last)
            && (!(last.tag.Equal? && Size(last) > 6) ==> g.cur[|g.cur| - 1] == last)
    decreases |ops|
  {
    var before, op := ops[..|ops| - 1], ops[|ops| - 1];
    if before == [] {
      OpenOne(src, dst, op);
      assert GroupFold(before) == Grouping([], []);
      assert [] + [op] == [op];
    } else {
      var last := before[|before| - 1];
      assert last == ops[|ops| - 2];
      FoldGrouped(src, dst, before, a, b, op.i1, op.j1);
      OneStep(src, dst, GroupFold(before), op, last);
    }
  }

  lemma ChangesOrLoose(src: seq<string>, dst: seq<string>, g: seq<Opcode>)
    requires Open(src, dst, g) && !(|g| == 1 && g[0].tag.Equal?)
    ensures Changes(g)
  {
    if g[0].tag.Equal? {
      assert !g[1].tag.Equal?;
    }
  }

  lemma TagsKept(codes: seq<Opcode>, ops: seq<Opcode>)
    requires |ops| == |codes| && Alternating(codes) && forall i :: 0 <= i < |codes| ==> ops[i].tag == codes[i].tag
    ensures Alternating(ops)
  {
  }

  lemma TrimKeepsTags(codes: seq<Opcode>)
    ensures var ops := TrimLast(TrimFirst(codes));
            |ops| == |codes| && forall i :: 0 <= i < |codes| ==> ops[i].tag == codes[i].tag
  {
  }

  lemma TrimmedEnds(n: nat, codes: seq<Opcode>)
    requires codes != [] && codes[0].i1 == 0 && codes[|codes| - 1].i2 == n
    requires forall op <- [codes[0], codes[|codes| - 1]] :: op.i1 <= op.i2
    ensures var ops := TrimLast(TrimFirst(codes)); StartsWell(ops[0]) && EndsWell(n, ops[|ops| - 1])
  {
    assert codes[0] in [codes[0], codes[|codes| - 1]] && codes[|codes| - 1] in [codes[0], codes[|codes| - 1]];
  }

  lemma TrimmedWell(src: seq<string>, dst: seq<string>, codes: seq<Opcode>)
    requires codes != [] && CorrectOpcodes(src, dst, codes) && Alternating(codes)
    ensures var ops := TrimLast(TrimFirst(codes));
            && Alternating(ops) && StartsWell(ops[0]) && EndsWell(|src|, ops[|ops| - 1])
  {
    TrimKeepsTags(codes);
    TagsKept(codes, TrimLast(TrimFirst(codes)));
    FirstStartsAtZero(src, dst, codes);
    assert ValidOp(src, dst, codes[|codes| - 1]);
    TrimmedEnds(|src|, codes);
  }

  lemma {:induction false} FirstStartsAtZero(src: seq<string>, dst: seq<string>, codes: seq<Opcode>)
    requires codes != [] && CorrectOpcodes(src, dst, codes)
    ensures codes[0].i1 == 0 && codes[0].j1 == 0 && ValidOp(src, dst, codes[0])
  {
    ChainStart(src, dst, codes, 0, 0, |src|, |dst|);
  }

  lemma {:induction false} ChainStart(src: seq<string>, dst: seq<string>, ops: seq<Opcode>, a: nat, b: nat, c: nat, d: nat)
    requires ops != [] && Chain(src, dst, ops, a, b, c, d)
    ensures ops[0].i1 == a && ops[0].j1 == b && ValidOp(src, dst, ops[0])
    decreases |ops|
  {
    if |ops| > 1 {
      var op := ops[|ops| - 1];
      ChainStart(src, dst, ops[..|ops| - 1], a, b, op.i1, op.j1);
    }
  }

  /** The groups once the last one is kept or dropped. */
  lemma LastGroupDecided(src: seq<string>, dst: seq<string>, g: Grouping, last: Opcode, groups: seq<seq<Opcode>>)
    requires Grouped(src, dst, g, last) && EndsWell(|src|, g.cur[|g.cur| - 1])
    requires groups == if |g.cur| == 1 && g.cur[0].tag.Equal? then g.done else g.done + [g.cur]
    ensures AllClosed(src, dst, groups) && Spaced(groups)
  {
    if |g.cur| == 1 && g.cur[0].tag.Equal? {
      SpacedFront(g.done, g.cur);
    } else {
      ChangesOrLoose(src, dst, g.cur);
      ClosedSnoc(src, dst, g.done, g.cur);
    }
  }

  lemma TrimmedGrouped(src: seq<string>, dst: seq<string>, ops: seq<Opcode>)
    requires Trimmed(src, dst, ops) && Alternating(ops) && StartsWell(ops[0]) && EndsWell(|src|, ops[|ops| - 1])
    ensures var g := GroupFold(ops); Grouped(src, dst, g, ops[|ops| - 1]) && EndsWell(|src|, g.cur[|g.cur| - 1])
  {
    var first, last := ops[0], ops[|ops| - 1];
    FoldGrouped(src, dst, ops, first.i1, first.j1, last.i2, last.j2);
  }

  lemma GroupsClosed(src: seq<string>, dst: seq<string>, codes: seq<Opcode>)
    requires CorrectOpcodes(src, dst, codes) && Alternating(codes)
    ensures AllClosed(src, dst, Groups(codes)) && Spaced(Groups(codes))
  {
    if codes != [] {
      var ops := TrimLast(TrimFirst(codes));
      TrimmedWell(src, dst, codes);
      TrimFits(src, dst, codes);
      TrimmedGrouped(src, dst, ops);
      LastGroupDecided(src, dst, GroupFold(ops), ops[|ops| - 1], Groups(codes));
    }
  }

  // ---------- From groups to lines ----------

  predicate AllContext(body: seq<Line>) {
    forall i :: 0 <= i < |body| ==> body[i].Context?
  }

  predicate NoContext(body: seq<Line>) {
    forall i :: 0 <= i < |body| ==> !body[i].Context?
  }

  lemma {:induction false} LeadingOfTwo(a: seq<Line>, b: seq<Line>)
    ensures Leading(a + b) == if AllContext(a) then |a| + Leading(b) else Leading(a)
    decreases |a|
  {
    if a == [] {
      assert a + b == b;
    } else {
      assert (a + b)[1..] == a[1..] + b && (a + b)[0] == a[0];
      LeadingOfTwo(a[1..], b);
      assert AllContext(a) <==> a[0].Context? && AllContext(a[1..]) by {
        assert forall i :: 1 <= i < |a| ==> a[i] == a[1..][i - 1];
      }
    }
  }

  lemma LineMore(body: seq<Line>, l: Line, more: seq<Line>)
    requires more == body + [l]
    ensures Trailing(more) == if l.Context? then Trailing(body) + 1 else 0
    ensures RunsUpTo(more, 6) <==> RunsUpTo(body, 6) && Trailing(more) <= 6
  {
    assert more[..|body|] == body && more[|body|] == l;
  }

  lemma {:induction false} ContextRun(body: seq<Line>, more: seq<Line>)
    requires AllContext(more) && RunsUpTo(body, 6) && Trailing(body) + |more| <= 6
    ensures RunsUpTo(body + more, 6) && Trailing(body + more) == Trailing(body) + |more|
    decreases |more|
  {
    if more == [] {
      assert body + more == body;
    } else {
      var n := |more| - 1;
      ContextRun(body, more[..n]);
      assert body + more == body + more[..n] + [more[n]];
      LineMore(body + more[..n], more[n], body + more);
    }
  }

  lemma {:induction false} ChangeRun(body: seq<Line>, more: seq<Line>)
    requires NoContext(more) && RunsUpTo(body, 6)
    ensures RunsUpTo(body + more, 6) && (more != [] ==> Trailing(body + more) == 0)
    decreases |more|
  {
    if more == [] {
      assert body + more == body;
    } else {
      var n := |more| - 1;
      ChangeRun(body, more[..n]);
      assert body + more == body + more[..n] + [more[n]];
      LineMore(body + more[..n], more[n], body + more);
    }
  }

  lemma OpLines(src: seq<string>, dst: seq<string>, op: Opcode)
    requires ValidOp(src, dst, op)
    ensures var body := OpBody(src, dst, op);
            && body != []
            && if op.tag.Equal? then AllContext(body) && |body| == Size(op) else NoContext(body)
  {
  }

  /** The context a group starts and ends with. */
  function Share(op: Opcode): int {
    if op.tag.Equal? then Size(op) else 0
  }

  lemma LeadingMore(body: seq<Line>, more: seq<Line>, first: int, loose: bool)
    requires Leading(body) == first && (AllContext(body) <==> loose) && more != []
    requires loose ==> NoContext(more)
    ensures Leading(body + more) == if loose then |body| else first
    ensures loose ==> !AllContext(body + more)
    ensures !loose ==> !AllContext(body + more)
  {
    LeadingOfTwo(body, more);
    if loose {
      assert (body + more)[|body|] == more[0];
    } else {
      var i :| 0 <= i < |body| && !body[i].Context?;
      assert (body + more)[i] == body[i];
    }
  }

  /** What the lines of a group look like. */
  predicate Lined(body: seq<Line>, g: seq<Opcode>) {
    && g != [] && RunsUpTo(body, 6)
    && Leading(body) == Share(g[0]) && Trailing(body) == Share(g[|g| - 1])
    && (AllContext(body) <==> |g| == 1 && g[0].tag.Equal?) && (AllContext(body) ==> |body| == Share(g[0]))
  }

  lemma LinedOne(src: seq<string>, dst: seq<string>, op: Opcode)
    requires ValidOp(src, dst, op) && (op.tag.Equal? ==> Size(op) <= 6)
    ensures Lined(OpBody(src, dst, op), [op])
  {
    var body := OpBody(src, dst, op);
    OpLines(src, dst, op);
    LeadingOfTwo(body, []);
    assert body + [] == body && [] + body == body;
    if op.tag.Equal? {
      ContextRun([], body);
    } else {
      ChangeRun([], body);
      assert !body[0].Context?;
    }
  }

  lemma LinedMore(src: seq<string>, dst: seq<string>, body: seq<Line>, g: seq<Opcode>, op: Opcode)
    requires Lined(body, g) && ValidOp(src, dst, op) && (op.tag.Equal? ==> Size(op) <= 6)
    requires !(g[|g| - 1].tag.Equal? && op.tag.Equal?)
    ensures Lined(body + OpBody(src, dst, op), g + [op])
  {
    var more := OpBody(src, dst, op);
    OpLines(src, dst, op);
    LeadingMore(body, more, Share(g[0]), |g| == 1 && g[0].tag.Equal?);
    if op.tag.Equal? {
      ContextRun(body, more);
    } else {
      ChangeRun(body, more);
    }
  }

  lemma {:induction false} GroupLined(src: seq<string>, dst: seq<string>, g: seq<Opcode>, a: nat, b: nat, c: nat, d: nat)
    requires g != [] && Chain(src, dst, g, a, b, c, d) && Alternating(g) && ShortRuns(g)
    ensures Lined(GroupBody(src, dst, g), g)
    decreases |g|
  {
    var before, op := g[..|g| - 1], g[|g| - 1];
    if before == [] {
      LinedOne(src, dst, op);
      assert g == [op] && GroupBody(src, dst, before) == [];
      assert [] + OpBody(src, dst, op) == OpBody(src, dst, op);
    } else {
      GroupLined(src, dst, before, a, b, op.i1, op.j1);
      assert before[|before| - 1] == g[|g| - 2] && before + [op] == g;
      LinedMore(src, dst, GroupBody(src, dst, before), before, op);
    }
  }

  // ---------- Three lines of context ----------

  /** Three lines of context at either end, or fewer at an end of the old text; no more than six in a row;
      and some change. */
  predicate ShowsContext(n: nat, h: Hunk) {
    && (Leading(h.body) == 3 || (Leading(h.body) < 3 && OldPos(h) == 0))
    && (Trailing(h.body) == 3 || (Trailing(h.body) < 3 && OldPos(h) + |Old(h.body)| == n))
    && RunsUpTo(h.body, 6) && !AllContext(h.body)
  }

  lemma LinedShows(n: nat, h: Hunk, g: seq<Opcode>)
    requires Lined(h.body, g) && StartsWell(g[0]) && EndsWell(n, g[|g| - 1]) && Changes(g)
    requires OldPos(h) == g[0].i1 && OldPos(h) + |Old(h.body)| == g[|g| - 1].i2
    ensures ShowsContext(n, h)
  {
  }

  lemma ClosedPlace(src: seq<string>, dst: seq<string>, g: seq<Opcode>, h: Hunk)
    requires Closed(src, dst, g) && h == HunkOf(src, dst, g)
    ensures OldPos(h) == g[0].i1 && OldPos(h) + |Old(h.body)| == g[|g| - 1].i2 && Lined(h.body, g)
  {
    var first, last := g[0], g[|g| - 1];
    HunkOfChain(src, dst, g, first.i1, first.j1, last.i2, last.j2);
    GroupLined(src, dst, g, first.i1, first.j1, last.i2, last.j2);
  }

  lemma ClosedShows(src: seq<string>, dst: seq<string>, g: seq<Opcode>, h: Hunk)
    requires Closed(src, dst, g) && h == HunkOf(src, dst, g)
    ensures ShowsContext(|src|, h)
  {
    ClosedPlace(src, dst, g, h);
    LinedShows(|src|, h, g);
  }

  lemma {:induction false} HunksShow(src: seq<string>, dst: seq<string>, groups: seq<seq<Opcode>>)
    requires NonEmptyAll(groups) && AllClosed(src, dst, groups)
    ensures forall h <- HunksOf(src, dst, groups) :: ShowsContext(|src|, h)
  {
    if groups != [] {
      HunksShow(src, dst, groups[..|groups| - 1]);
      ClosedShows(src, dst, groups[|groups| - 1], HunkOf(src, dst, groups[|groups| - 1]));
    }
  }

  /** At least one line is left out between the hunks. */
  predicate HunksApart(hs: seq<Hunk>) {
    hs == [] ||
    (var before, h := hs[..|hs| - 1], hs[|hs| - 1];
     HunksApart(before) && (before != [] ==> OldEnd(before) < OldPos(h)))
  }

  lemma {:induction false} HunksSpaced(src: seq<string>, dst: seq<string>, groups: seq<seq<Opcode>>)
    requires NonEmptyAll(groups) && AllClosed(src, dst, groups) && Spaced(groups)
    ensures HunksApart(HunksOf(src, dst, groups))
    ensures groups != [] ==> OldEnd(HunksOf(src, dst, groups)) == (var g := groups[|groups| - 1]; g[|g| - 1].i2)
  {
    if groups != [] {
      var before, g := groups[..|groups| - 1], groups[|groups| - 1];
      assert before + [g] == groups;
      SpacedFront(before, g);
      HunksSpaced(src, dst, before);
      ClosedPlace(src, dst, g, HunkOf(src, dst, g));
      var hs := HunksOf(src, dst, groups);
      assert hs[..|hs| - 1] == HunksOf(src, dst, before);
    }
  }

  /** Every emitted hunk shows three lines of context around its changes; changes at most six lines apart
      share a hunk, and all others do not. */
  lemma ThreeLinesOfContext(src: seq<string>, dst: seq<string>, codes: seq<Opcode>)
    requires CorrectOpcodes(src, dst, codes) && Alternating(codes)
    ensures forall h <- DiffHunks(src, dst, codes) :: ShowsContext(|src|, h)
    ensures HunksApart(DiffHunks(src, dst, codes))
  {
    GroupsClosed(src, dst, codes);
    HunksShow(src, dst, Groups(codes));
    HunksSpaced(src, dst, Groups(codes));
  }
}
