/** Exactly which lists of hunks replay (scripts/tok_trace_reader.py) treats as the format means them:
    POSIX.1 (IEEE Std 1003.1), utility diff, section "Diff -u or -U Output Format". */
module ReplayFormat {
  import opened Text
  import opened UnifiedDiff

  // ---------- The condition, read off the headers and bodies ----------

  /** Each hunk starts where the one before it ended, or later. */
  predicate InFormatOrder(hs: seq<Hunk>) {
    hs == [] ||
    (var before, h := hs[..|hs| - 1], hs[|hs| - 1];
     InFormatOrder(before) && OldEnd(before) <= OldPos(h))
  }

  /** Where replay stands after the hunks: for an empty range, in front of the line it follows. */
  function ReplayPos(hs: seq<Hunk>): int {
    if hs == [] then 0 else hs[|hs| - 1].oldStart - 1 + |Old(hs[|hs| - 1].body)|
  }

  /** No hunk takes the cursor back. */
  predicate NeverBack(hs: seq<Hunk>) {
    hs == [] ||
    (var before, h := hs[..|hs| - 1], hs[|hs| - 1];
     NeverBack(before) && ReplayPos(before) <= h.oldStart - 1)
  }

  predicate InsertsOnly(h: Hunk) {
    Old(h.body) == [] && New(h.body) != []
  }

  predicate NoInsertion(hs: seq<Hunk>) {
    forall i :: 0 <= i < |hs| ==> !InsertsOnly(hs[i])
  }

  predicate AllAtStart(hs: seq<Hunk>) {
    forall i :: 0 <= i < |hs| ==> hs[i].oldStart == 0
  }

  /** Hunks that insert also consume a line, and the cursor never moves back, unless all start at 0. */
  predicate Replayable(hs: seq<Hunk>) {
    NoInsertion(hs) && (NeverBack(hs) || AllAtStart(hs))
  }

  // ---------- Hunks that never take the cursor back ----------

  lemma {:induction false} PatchedInOrder(base: seq<string>, out: seq<string>, hs: seq<Hunk>)
    requires PatchedPrefix(base, out, hs)
    ensures InFormatOrder(hs)
  {
    if hs != [] {
      PatchedInOrder(base, out, hs[..|hs| - 1]);
    }
  }

  /** From c to e, the lines of a are those of b, moved by g. */
  predicate Same(a: seq<string>, b: seq<string>, c: int, e: int, g: int) {
    && 0 <= c <= e <= |a| && 0 <= c + g && e + g <= |b|
    && forall i :: c <= i < e ==> a[i] == b[i + g]
  }

  lemma SameSlices(a: seq<string>, b: seq<string>, c: nat, e: nat, g: int)
    requires c <= e <= |a| && 0 <= c + g && e + g <= |b| && a[c..e] == b[c + g..e + g]
    ensures Same(a, b, c, e, g)
  {
    forall i | c <= i < e ensures a[i] == b[i + g] {
      assert a[c..e][i - c] == b[c + g..e + g][i - c];
    }
  }

  lemma SameGivesSlices(a: seq<string>, b: seq<string>, c: int, d: int, e: int, g: int)
    requires Same(a, b, c, e, g) && c <= d <= e
    ensures a[c..d] == b[c + g..d + g]
  {
  }

  lemma PrefixExtends(a: seq<string>, b: seq<string>, out: seq<string>)
    requires a <= out && |a| + |b| <= |out| && out[|a|..|a| + |b|] == b
    ensures a + b <= out
  {
    assert out[..|a| + |b|] == a + b;
  }

  /** Between the cursor and the end of the last hunk, base and out agree. */
  predicate Aligned(base: seq<string>, out: seq<string>, hs: seq<Hunk>) {
    Same(base, out, ReplayPos(hs), OldEnd(hs), Growth(hs))
  }

  lemma GapAligned(base: seq<string>, out: seq<string>, before: seq<Hunk>, h: Hunk)
    requires Aligned(base, out, before)
    requires Fits(base, out, OldEnd(before), NewEnd(before), OldPos(h), OldPos(h) + Growth(before), h)
    ensures Same(base, out, ReplayPos(before), OldPos(h), Growth(before))
  {
    SameSlices(base, out, OldEnd(before), OldPos(h), Growth(before));
  }

  lemma SameAfter(base: seq<string>, out: seq<string>, c: int, g: int, h: Hunk)
    requires Same(base, out, c, OldPos(h), g) && c <= h.oldStart - 1 && !InsertsOnly(h)
    requires OldPos(h) + |Old(h.body)| <= |base| && OldPos(h) + g + |New(h.body)| <= |out|
    ensures Same(base, out, h.oldStart - 1 + |Old(h.body)|, OldPos(h) + |Old(h.body)|, g + |New(h.body)| - |Old(h.body)|)
  {
  }

  lemma {:induction false} ForwardAligned(base: seq<string>, out: seq<string>, hs: seq<Hunk>)
    requires PatchedPrefix(base, out, hs) && NeverBack(hs) && NoInsertion(hs)
    ensures Aligned(base, out, hs)
  {
    if hs != [] {
      var before, h := hs[..|hs| - 1], hs[|hs| - 1];
      ForwardAligned(base, out, before);
      assert !InsertsOnly(h);
      GapAligned(base, out, before, h);
      SameAfter(base, out, ReplayPos(before), Growth(before), h);
    }
  }

  /** Replay stands at pos and has output the first lines of out. */
  predicate AtCursor(p: Progress, out: seq<string>, pos: int, length: int) {
    p.pos == pos && p.out <= out && |p.out| == length
  }

  /** Entering a hunk that does not take the cursor back. */
  lemma EnterAligned(base: seq<string>, out: seq<string>, p: Progress, c: int, e: int, g: int, oldStart: nat)
    requires Same(base, out, c, e, g) && c <= oldStart - 1 <= e && AtCursor(p, out, c, c + g)
    ensures AtCursor(EnterHunk(base, p, oldStart), out, oldStart - 1, oldStart - 1 + g)
  {
    EnterInside(base, p, oldStart);
    SameGivesSlices(base, out, c, oldStart - 1, e, g);
    PrefixExtends(p.out, base[c..oldStart - 1], out);
  }

  lemma BodyFits(base: seq<string>, out: seq<string>, p: Progress, body: seq<Line>)
    requires 0 <= p.pos && p.pos + |Old(body)| <= |base| && base[p.pos..p.pos + |Old(body)|] == Old(body)
    requires p.out <= out && |p.out| + |New(body)| <= |out| && out[|p.out|..|p.out| + |New(body)|] == New(body)
    ensures var r := ApplyBody(base, p, body);
            r.Ok? && AtCursor(r.value, out, p.pos + |Old(body)|, |p.out| + |New(body)|)
  {
    ApplyBodyExact(base, p, body);
    PrefixExtends(p.out, New(body), out);
  }

  lemma ForwardStep(base: seq<string>, out: seq<string>, p: Progress, c: int, g: int, h: Hunk)
    requires Same(base, out, c, OldPos(h), g) && c <= h.oldStart - 1 && !InsertsOnly(h)
    requires Fits(base, out, OldPos(h), OldPos(h) + g, OldPos(h), OldPos(h) + g, h)
    requires AtCursor(p, out, c, c + g)
    ensures var s, r := h.oldStart - 1, ApplyBody(base, EnterHunk(base, p, h.oldStart), h.body);
            r.Ok? && AtCursor(r.value, out, s + |Old(h.body)|, s + g + |New(h.body)|)
  {
    EnterAligned(base, out, p, c, OldPos(h), g, h.oldStart);
    BodyFits(base, out, EnterHunk(base, p, h.oldStart), h.body);
  }

  lemma ForwardOneMore(base: seq<string>, out: seq<string>, before: seq<Hunk>, h: Hunk, p: Progress)
    requires Aligned(base, out, before) && ReplayPos(before) <= h.oldStart - 1 && !InsertsOnly(h)
    requires Fits(base, out, OldEnd(before), NewEnd(before), OldPos(h), OldPos(h) + Growth(before), h)
    requires AtCursor(p, out, ReplayPos(before), ReplayPos(before) + Growth(before))
    ensures var s, r := h.oldStart - 1, ApplyBody(base, EnterHunk(base, p, h.oldStart), h.body);
            r.Ok? && AtCursor(r.value, out, s + |Old(h.body)|, s + Growth(before) + |New(h.body)|)
  {
    GapAligned(base, out, before, h);
    FitsHere(base, out, OldEnd(before), NewEnd(before), OldPos(h), OldPos(h) + Growth(before), h);
    ForwardStep(base, out, p, ReplayPos(before), Growth(before), h);
  }

  lemma FitsHere(base: seq<string>, out: seq<string>, a: nat, b: nat, p: int, q: int, h: Hunk)
    requires Fits(base, out, a, b, p, q, h)
    ensures Fits(base, out, p, q, p, q, h)
  {
  }

  lemma {:induction false} ForwardReplay(base: seq<string>, out: seq<string>, hs: seq<Hunk>)
    requires PatchedPrefix(base, out, hs) && NeverBack(hs) && NoInsertion(hs)
    ensures Aligned(base, out, hs) && ApplyHunks(base, hs).Ok?
    ensures AtCursor(ApplyHunks(base, hs).value, out, ReplayPos(hs), ReplayPos(hs) + Growth(hs))
    decreases |hs|
  {
    ForwardAligned(base, out, hs);
    if hs != [] {
      var before, h := hs[..|hs| - 1], hs[|hs| - 1];
      assert !InsertsOnly(h);
      ForwardReplay(base, out, before);
      ForwardOneMore(base, out, before, h, ApplyHunks(base, before).value);
    }
  }

  lemma ForwardAgrees(base: seq<string>, out: seq<string>, hs: seq<Hunk>)
    requires Patches(base, out, hs) && NeverBack(hs) && NoInsertion(hs)
    ensures ReplayHunks(base, hs) == Ok(out)
  {
    ForwardReplay(base, out, hs);
    TailAligned(base, out, ApplyHunks(base, hs).value, ReplayPos(hs), OldEnd(hs), Growth(hs));
  }

  lemma TailAligned(base: seq<string>, out: seq<string>, p: Progress, c: int, e: int, g: int)
    requires Same(base, out, c, e, g) && base[e..] == out[e + g..] && AtCursor(p, out, c, c + g)
    ensures Finish(base, p) == out
  {
    SameGivesSlices(base, out, c, e, e, g);
    assert base[c..] == base[c..e] + base[e..];
    assert out == p.out + (out[c + g..e + g] + out[e + g..]);
  }

  // ---------- Hunks that start at 0 ----------

  function AllNew(hs: seq<Hunk>): seq<string> {
    if hs == [] then [] else AllNew(hs[..|hs| - 1]) + New(hs[|hs| - 1].body)
  }

  lemma {:induction false} StartReplay(base: seq<string>, hs: seq<Hunk>)
    requires AllAtStart(hs) && InFormatOrder(hs) && hs != []
    ensures ApplyHunks(base, hs) == Ok(Progress(-1, base[..SliceBound(|base|, -1)] + AllNew(hs)))
    ensures OldEnd(hs) == 0
  {
    var before, h := hs[..|hs| - 1], hs[|hs| - 1];
    var m := SliceBound(|base|, -1);
    if before == [] {
      assert EnterHunk(base, Progress(0, []), 0) == Progress(-1, base[..m]);
      assert AllNew(hs) == New(h.body);
      ApplyBodyInsertsOnly(base, Progress(-1, base[..m]), h.body);
    } else {
      StartReplay(base, before);
      var p := Progress(-1, base[..m] + AllNew(before));
      assert EnterHunk(base, p, 0) == p;
      ApplyBodyInsertsOnly(base, p, h.body);
      ConcatAssociative(base[..m], AllNew(before), New(h.body));
    }
  }

  lemma {:induction false} StartMeaning(base: seq<string>, tail: seq<string>, hs: seq<Hunk>)
    requires AllAtStart(hs) && InFormatOrder(hs)
    ensures PatchedPrefix(base, AllNew(hs) + tail, hs) && OldEnd(hs) == 0 && Growth(hs) == |AllNew(hs)|
    decreases |hs|
  {
    if hs != [] {
      var before, h := hs[..|hs| - 1], hs[|hs| - 1];
      assert before + [h] == hs;
      StartMeaning(base, New(h.body) + tail, before);
      ConcatAssociative(AllNew(before), New(h.body), tail);
      StartStep(base, tail, before, h, AllNew(before));
    }
  }

  lemma StartStep(base: seq<string>, tail: seq<string>, before: seq<Hunk>, h: Hunk, made: seq<string>)
    requires PatchedPrefix(base, made + New(h.body) + tail, before) && OldEnd(before) == 0 && Growth(before) == |made|
    requires h.oldStart == 0 && Old(h.body) == []
    ensures PatchedPrefix(base, made + New(h.body) + tail, before + [h])
    ensures OldEnd(before + [h]) == 0 && Growth(before + [h]) == |made| + |New(h.body)|
  {
    FitsAtStart(base, tail, made, h);
    PrefixSnocAt(base, made + New(h.body) + tail, before, h, 0, |made|, 0, |made|);
  }

  lemma FitsAtStart(base: seq<string>, tail: seq<string>, made: seq<string>, h: Hunk)
    requires h.oldStart == 0 && Old(h.body) == []
    ensures Fits(base, made + New(h.body) + tail, 0, |made|, 0, |made|, h)
  {
    assert (made + New(h.body) + tail)[|made|..|made| + |New(h.body)|] == New(h.body);
  }

  lemma StartUnique(base: seq<string>, out: seq<string>, hs: seq<Hunk>)
    requires AllAtStart(hs) && NoInsertion(hs) && Patches(base, out, hs)
    ensures ReplayHunks(base, hs) == Ok(out)
  {
    PatchedInOrder(base, out, hs);
    NothingNew(hs);
    StartMeaning(base, base, hs);
    assert OldEnd(hs) == 0 && NewEnd(hs) == 0;
    assert out[0..] == out && base[0..] == base;
    StartKeeps(base, hs);
  }

  lemma StartKeeps(base: seq<string>, hs: seq<Hunk>)
    requires AllAtStart(hs) && InFormatOrder(hs) && AllNew(hs) == []
    ensures ReplayHunks(base, hs) == Ok(base)
  {
    if hs == [] {
      assert [] + base[0..] == base;
    } else {
      StartReplay(base, hs);
      CutAndJoin(base, SliceBound(|base|, -1));
    }
  }

  lemma CutAndJoin(base: seq<string>, m: nat)
    requires m <= |base|
    ensures base[..m] + [] + base[m..] == base
  {
  }

  lemma {:induction false} NothingNew(hs: seq<Hunk>)
    requires AllAtStart(hs) && NoInsertion(hs) && InFormatOrder(hs)
    ensures AllNew(hs) == []
  {
    if hs != [] {
      NothingNew(hs[..|hs| - 1]);
      assert !InsertsOnly(hs[|hs| - 1]) && hs[|hs| - 1].oldStart == 0;
      StartMeaning([], [], hs[..|hs| - 1]);
    }
  }

  // ---------- A base for any list of hunks ----------

  function Filler(n: int, x: string): (r: seq<string>)
    ensures |r| == if n < 0 then 0 else n
    ensures forall i :: 0 <= i < |r| ==> r[i] == x
  {
    if n <= 0 then [] else Filler(n - 1, x) + [x]
  }

  /** A base the hunks fit, its other lines all x. */
  function BaseFor(hs: seq<Hunk>, x: string): seq<string> {
    if hs == [] then []
    else
      var before, h := BaseFor(hs[..|hs| - 1], x), hs[|hs| - 1];
      before + Filler(OldPos(h) - |before|, x) + Old(h.body)
  }

  /** What the hunks make of that base. */
  function OutFor(hs: seq<Hunk>, x: string): seq<string> {
    if hs == [] then []
    else
      var before, h := hs[..|hs| - 1], hs[|hs| - 1];
      OutFor(before, x) + Filler(OldPos(h) - |BaseFor(before, x)|, x) + New(h.body)
  }

  lemma {:induction false} BothGrow(base: seq<string>, out: seq<string>, base': seq<string>, out': seq<string>, hs: seq<Hunk>)
    requires PatchedPrefix(base, out, hs) && base <= base' && out <= out'
    ensures PatchedPrefix(base', out', hs)
  {
    if hs != [] {
      var before, h := hs[..|hs| - 1], hs[|hs| - 1];
      BothGrow(base, out, base', out', before);
      FitsBoth(base, out, base', out', OldEnd(before), NewEnd(before), OldPos(h), OldPos(h) + Growth(before), h);
    }
  }

  lemma FitsBoth(base: seq<string>, out: seq<string>, base': seq<string>, out': seq<string>,
                 a: nat, b: nat, p: int, q: int, h: Hunk)
    requires Fits(base, out, a, b, p, q, h) && base <= base' && out <= out'
    ensures Fits(base', out', a, b, p, q, h)
  {
    assert base'[a..p] == base[a..p] && base'[p..p + |Old(h.body)|] == base[p..p + |Old(h.body)|];
    assert out'[b..q] == out[b..q] && out'[q..q + |New(h.body)|] == out[q..q + |New(h.body)|];
  }

  lemma FitsAtEnd(base: seq<string>, out: seq<string>, gap: seq<string>, h: Hunk)
    ensures Fits(base + gap + Old(h.body), out + gap + New(h.body), |base|, |out|, |base| + |gap|, |out| + |gap|, h)
  {
    var b, o := base + gap + Old(h.body), out + gap + New(h.body);
    assert b[|base|..|base| + |gap|] == gap && o[|out|..|out| + |gap|] == gap;
    assert b[|base| + |gap|..] == Old(h.body) && o[|out| + |gap|..] == New(h.body);
    assert b[|base| + |gap|..|b|] == b[|base| + |gap|..] && o[|out| + |gap|..|o|] == o[|out| + |gap|..];
  }

  lemma StartsSum(a: seq<string>, b: seq<string>, c: seq<string>)
    ensures a <= a + b + c
  {
  }

  lemma GrowBy(base: seq<string>, out: seq<string>, gap: seq<string>, left: seq<string>, right: seq<string>, hs: seq<Hunk>)
    requires PatchedPrefix(base, out, hs)
    ensures PatchedPrefix(base + gap + left, out + gap + right, hs)
  {
    StartsSum(base, gap, left);
    StartsSum(out, gap, right);
    BothGrow(base, out, base + gap + left, out + gap + right, hs);
  }

  lemma HunkAtEnd(b: seq<string>, o: seq<string>, before: seq<Hunk>, h: Hunk, n: nat, m: nat, gap: nat)
    requires PatchedPrefix(b, o, before) && Fits(b, o, n, m, n + gap, m + gap, h)
    requires n == OldEnd(before) && m == NewEnd(before) && n + gap == OldPos(h)
    requires |b| == n + gap + |Old(h.body)| && |o| == m + gap + |New(h.body)|
    ensures PatchedPrefix(b, o, before + [h]) && |b| == OldEnd(before + [h]) && |o| == NewEnd(before + [h])
  {
    PrefixSnocAt(b, o, before, h, n, m, n + gap, m + gap);
  }

  lemma InstanceStep(base: seq<string>, out: seq<string>, gap: seq<string>, before: seq<Hunk>, h: Hunk)
    requires PatchedPrefix(base, out, before) && |base| == OldEnd(before) && |out| == NewEnd(before)
    requires |base| + |gap| == OldPos(h)
    ensures var b, o := base + gap + Old(h.body), out + gap + New(h.body);
            PatchedPrefix(b, o, before + [h]) && |b| == OldEnd(before + [h]) && |o| == NewEnd(before + [h])
  {
    var b, o := base + gap + Old(h.body), out + gap + New(h.body);
    GrowBy(base, out, gap, Old(h.body), New(h.body), before);
    FitsAtEnd(base, out, gap, h);
    HunkAtEnd(b, o, before, h, |base|, |out|, |gap|);
  }

  lemma InstanceAt(hs: seq<Hunk>, base: seq<string>, out: seq<string>, gap: seq<string>, before: seq<Hunk>, h: Hunk,
                   base': seq<string>, out': seq<string>)
    requires PatchedPrefix(base, out, before) && |base| == OldEnd(before) && |out| == NewEnd(before)
    requires |base| + |gap| == OldPos(h) && hs == before + [h]
    requires base' == base + gap + Old(h.body) && out' == out + gap + New(h.body)
    ensures PatchedPrefix(base', out', hs) && |base'| == OldEnd(hs) && |out'| == NewEnd(hs)
  {
    InstanceStep(base, out, gap, before, h);
  }

  lemma BaseUnfolds(hs: seq<Hunk>, x: string, before: seq<Hunk>, h: Hunk, b: seq<string>, gap: seq<string>)
    requires hs != [] && before == hs[..|hs| - 1] && h == hs[|hs| - 1]
    requires b == BaseFor(before, x) && gap == Filler(OldPos(h) - |b|, x)
    ensures BaseFor(hs, x) == b + gap + Old(h.body)
  {
  }

  lemma OutUnfolds(hs: seq<Hunk>, x: string, before: seq<Hunk>, h: Hunk, o: seq<string>, gap: seq<string>)
    requires hs != [] && before == hs[..|hs| - 1] && h == hs[|hs| - 1]
    requires o == OutFor(before, x) && gap == Filler(OldPos(h) - |BaseFor(before, x)|, x)
    ensures OutFor(hs, x) == o + gap + New(h.body)
  {
  }

  lemma {:induction false} InstancePatches(hs: seq<Hunk>, x: string)
    requires InFormatOrder(hs)
    ensures PatchedPrefix(BaseFor(hs, x), OutFor(hs, x), hs)
    ensures |BaseFor(hs, x)| == OldEnd(hs) && |OutFor(hs, x)| == NewEnd(hs)
    decreases |hs|
  {
    if hs != [] {
      var before, h := hs[..|hs| - 1], hs[|hs| - 1];
      InstancePatches(before, x);
      var b, o := BaseFor(before, x), OutFor(before, x);
      var gap := Filler(OldPos(h) - |b|, x);
      BaseUnfolds(hs, x, before, h, b, gap);
      OutUnfolds(hs, x, before, h, o, gap);
      assert hs == before + [h];
      InstanceAt(hs, b, o, gap, before, h, BaseFor(hs, x), OutFor(hs, x));
    }
  }

  lemma InstanceWithTail(hs: seq<Hunk>, x: string, tail: seq<string>)
    requires InFormatOrder(hs)
    ensures Patches(BaseFor(hs, x) + tail, OutFor(hs, x) + tail, hs)
    ensures |BaseFor(hs, x) + tail| == OldEnd(hs) + |tail|
  {
    InstancePatches(hs, x);
    var base, out := BaseFor(hs, x), OutFor(hs, x);
    BothGrow(base, out, base + tail, out + tail, hs);
    assert (base + tail)[|base|..] == tail && (out + tail)[|out|..] == tail;
  }

  // ---------- A cursor that moves back repeats lines ----------

  function Most(a: int, b: int): int {
    if a < b then b else a
  }

  /** How many lines are repeated, on a base of n lines. */
  function Repeated(n: nat, hs: seq<Hunk>): nat {
    if hs == [] then 0
    else
      Repeated(n, hs[..|hs| - 1])
      + Most(0, SliceBound(n, ReplayPos(hs[..|hs| - 1])) - SliceBound(n, hs[|hs| - 1].oldStart - 1))
  }

  lemma BodyStep(base: seq<string>, p: Progress, body: seq<Line>)
    requires Old(body) != [] ==> 0 <= p.pos <= |base|
    requires ApplyBody(base, p, body).Ok?
    ensures ApplyBody(base, p, body).value == Progress(p.pos + |Old(body)|, p.out + New(body))
  {
    if Old(body) == [] {
      ApplyBodyInsertsOnly(base, p, body);
    } else {
      ApplyBodyExact(base, p, body);
    }
  }

  lemma SliceLength(base: seq<string>, lo: int, hi: int)
    ensures |Slice(base, lo, hi)| == Most(0, SliceBound(|base|, hi) - SliceBound(|base|, lo))
  {
  }

  /** Replay stands at c and has output the lines up to there, g more, and r repeated ones. */
  predicate LengthAt(n: nat, p: Progress, c: int, g: int, r: int) {
    p.pos == c && |p.out| == SliceBound(n, c) + g + r
  }

  /** A hunk whose old lines are inside the base. */
  predicate Inside(n: nat, h: Hunk) {
    Old(h.body) != [] ==> 1 <= h.oldStart && h.oldStart - 1 + |Old(h.body)| <= n
  }

  /** One hunk more: what replay outputs, and where it stands. */
  lemma LengthStep(base: seq<string>, p: Progress, h: Hunk, c: int, g: int, r: int)
    requires LengthAt(|base|, p, c, g, r) && Inside(|base|, h)
    requires ApplyBody(base, EnterHunk(base, p, h.oldStart), h.body).Ok?
    ensures var n, s, after := |base|, h.oldStart - 1, ApplyBody(base, EnterHunk(base, p, h.oldStart), h.body).value;
            LengthAt(n, after, s + |Old(h.body)|, g + |New(h.body)| - |Old(h.body)|,
                     r + Most(0, SliceBound(n, c) - SliceBound(n, s)))
  {
    BodyStep(base, EnterHunk(base, p, h.oldStart), h.body);
    SliceLength(base, p.pos, h.oldStart - 1);
  }

  lemma {:induction false} PatchedInside(base: seq<string>, out: seq<string>, before: seq<Hunk>, h: Hunk)
    requires PatchedPrefix(base, out, before)
    requires Fits(base, out, OldEnd(before), NewEnd(before), OldPos(h), OldPos(h) + Growth(before), h)
    ensures Inside(|base|, h)
  {
  }

  /** The counts after one hunk more. */
  lemma CountsNext(n: nat, hs: seq<Hunk>, before: seq<Hunk>, h: Hunk)
    requires hs != [] && before == hs[..|hs| - 1] && h == hs[|hs| - 1]
    ensures ReplayPos(hs) == h.oldStart - 1 + |Old(h.body)|
    ensures Growth(hs) == Growth(before) + |New(h.body)| - |Old(h.body)|
    ensures Repeated(n, hs)
            == Repeated(n, before) + Most(0, SliceBound(n, ReplayPos(before)) - SliceBound(n, h.oldStart - 1))
  {
  }

  lemma {:induction false} ReplayLength(base: seq<string>, out: seq<string>, hs: seq<Hunk>)
    requires PatchedPrefix(base, out, hs) && ApplyHunks(base, hs).Ok?
    ensures LengthAt(|base|, ApplyHunks(base, hs).value, ReplayPos(hs), Growth(hs), Repeated(|base|, hs))
    decreases |hs|
  {
    if hs != [] {
      var before, h := hs[..|hs| - 1], hs[|hs| - 1];
      ReplayLength(base, out, before);
      PatchedInside(base, out, before, h);
      LengthOneMore(base, hs, before, h, ApplyHunks(base, before).value);
    }
  }

  lemma LengthOneMore(base: seq<string>, hs: seq<Hunk>, before: seq<Hunk>, h: Hunk, p: Progress)
    requires hs != [] && before == hs[..|hs| - 1] && h == hs[|hs| - 1] && ApplyHunks(base, before) == Ok(p)
    requires LengthAt(|base|, p, ReplayPos(before), Growth(before), Repeated(|base|, before))
    requires Inside(|base|, h) && ApplyHunks(base, hs).Ok?
    ensures LengthAt(|base|, ApplyHunks(base, hs).value, ReplayPos(hs), Growth(hs), Repeated(|base|, hs))
  {
    assert ApplyHunks(base, hs) == ApplyBody(base, EnterHunk(base, p, h.oldStart), h.body);
    LengthStep(base, p, h, ReplayPos(before), Growth(before), Repeated(|base|, before));
    CountsNext(|base|, hs, before, h);
  }

  lemma {:induction false} GrowthIsDifference(base: seq<string>, out: seq<string>, hs: seq<Hunk>)
    requires Patches(base, out, hs)
    ensures |out| == |base| + Growth(hs)
  {
    assert |base[OldEnd(hs)..]| == |out[NewEnd(hs)..]|;
  }

  lemma RepeatingIsWrong(base: seq<string>, out: seq<string>, hs: seq<Hunk>)
    requires Patches(base, out, hs) && Repeated(|base|, hs) > 0
    ensures ReplayHunks(base, hs) != Ok(out)
  {
    GrowthIsDifference(base, out, hs);
    if ApplyHunks(base, hs).Ok? {
      ReplayLength(base, out, hs);
    }
  }

  /** On a base with a line after the last hunk, nothing is repeated only if the cursor never moves
      back or all hunks start at 0. */
  lemma {:induction false} NothingRepeated(n: nat, hs: seq<Hunk>)
    requires InFormatOrder(hs) && OldEnd(hs) < n && Repeated(n, hs) == 0
    ensures NeverBack(hs) || AllAtStart(hs)
    ensures 0 <= OldEnd(hs) && (NeverBack(hs) ==> ReplayPos(hs) <= OldEnd(hs))
    ensures hs != [] && NeverBack(hs) ==> 0 < OldEnd(hs)
  {
    if hs != [] {
      var before, h := hs[..|hs| - 1], hs[|hs| - 1];
      assert OldEnd(hs) == OldPos(h) + |Old(h.body)|;
      NothingRepeated(n, before);
      if before == [] {
        assert hs == [h];
      } else if !NeverBack(hs) {
        assert AllAtStart(before) ==> before[|before| - 1].oldStart == 0;
      }
    }
  }

  // ---------- A pure insertion puts its lines too early ----------

  /** A patch, seen from its hunk h behind the hunks before. */
  lemma {:induction false} SplitAt(base: seq<string>, out: seq<string>, hs: seq<Hunk>, k: nat, before: seq<Hunk>, h: Hunk)
    requires NeverBack(hs) && PatchedPrefix(base, out, hs) && k < |hs| && before == hs[..k] && h == hs[k]
    ensures NeverBack(before) && ReplayPos(before) <= h.oldStart - 1 && PatchedPrefix(base, out, before)
    ensures Fits(base, out, OldEnd(before), NewEnd(before), OldPos(h), OldPos(h) + Growth(before), h)
    decreases |hs|
  {
    if k < |hs| - 1 {
      TakeTake(hs, |hs| - 1, k);
      SplitAt(base, out, hs[..|hs| - 1], k, before, h);
    }
  }

  lemma NextAt(base: seq<string>, hs: seq<Hunk>, k: nat)
    requires k < |hs| && ApplyHunks(base, hs[..k]).Ok?
    ensures var p := ApplyHunks(base, hs[..k]).value;
            ApplyHunks(base, hs[..k + 1]) == ApplyBody(base, EnterHunk(base, p, hs[k].oldStart), hs[k].body)
  {
    TakeTake(hs, k + 1, k);
  }

  lemma {:induction false} OutputStays(base: seq<string>, hs: seq<Hunk>, k: nat)
    requires k <= |hs|
    ensures ApplyHunks(base, hs).Ok? ==>
              ApplyHunks(base, hs[..k]).Ok? && ApplyHunks(base, hs[..k]).value.out <= ApplyHunks(base, hs).value.out
  {
    if k == |hs| {
      TakeAll(hs);
    } else {
      var before, h := hs[..|hs| - 1], hs[|hs| - 1];
      TakeTake(hs, |hs| - 1, k);
      OutputStays(base, before, k);
      if ApplyHunks(base, hs).Ok? {
        BodyAppends(base, EnterHunk(base, ApplyHunks(base, before).value, h.oldStart), h.body);
      }
    }
  }

  lemma {:induction false} BodyAppends(base: seq<string>, p: Progress, body: seq<Line>)
    requires ApplyBody(base, p, body).Ok?
    ensures p.out <= ApplyBody(base, p, body).value.out
  {
    if body != [] {
      BodyAppends(base, p, body[..|body| - 1]);
    }
  }

  lemma {:induction false} FillerBetween(hs: seq<Hunk>, x: string, i: nat)
    requires InFormatOrder(hs) && NeverBack(hs) && ReplayPos(hs) <= i < OldEnd(hs)
    ensures i < |BaseFor(hs, x)| && BaseFor(hs, x)[i] == x
  {
    InstancePatches(hs, x);
    if hs != [] {
      var before := hs[..|hs| - 1];
      InstancePatches(before, x);
      if i < OldEnd(before) {
        FillerBetween(before, x, i);
      }
    }
  }

  lemma {:induction false} InstanceGrows(hs: seq<Hunk>, x: string, k: nat)
    requires k <= |hs|
    ensures BaseFor(hs[..k], x) <= BaseFor(hs, x)
  {
    if k == |hs| {
      TakeAll(hs);
    } else {
      var before, h := hs[..|hs| - 1], hs[|hs| - 1];
      TakeTake(hs, |hs| - 1, k);
      InstanceGrows(before, x, k);
      var b := BaseFor(before, x);
      StartsSum(b, Filler(OldPos(h) - |b|, x), Old(h.body));
    }
  }

  lemma {:induction false} PrefixForward(hs: seq<Hunk>, k: nat)
    requires k <= |hs|
    ensures NeverBack(hs) ==> NeverBack(hs[..k])
    ensures InFormatOrder(hs) ==> InFormatOrder(hs[..k])
  {
    if k == |hs| {
      TakeAll(hs);
    } else {
      TakeTake(hs, |hs| - 1, k);
      PrefixForward(hs[..|hs| - 1], k);
    }
  }

  lemma {:induction false} FirstInsertion(hs: seq<Hunk>) returns (k: nat)
    requires !NoInsertion(hs)
    ensures k < |hs| && InsertsOnly(hs[k]) && NoInsertion(hs[..k])
  {
    var n := |hs| - 1;
    if NoInsertion(hs[..n]) {
      k := n;
      assert forall i :: 0 <= i < n ==> hs[..n][i] == hs[i];
    } else {
      k := FirstInsertion(hs[..n]);
      TakeTake(hs, n, k);
    }
  }

  /** At q, replay has a line of another length than out. */
  predicate WrongAt(r: Result<Progress>, out: seq<string>, q: int) {
    r.Ok? && 0 <= q < |out| && q < |r.value.out| && |r.value.out[q]| != |out[q]|
  }

  /** Replay has entered an insertion and output q lines; out goes on with the line that base has there. */
  predicate AtInsertion(base: seq<string>, out: seq<string>, p: Progress, h: Hunk, q: int) {
    && InsertsOnly(h) && 0 <= h.oldStart - 1 < |base|
    && |p.out| == q && 0 <= q < |out| && |out[q]| == |base[h.oldStart - 1]|
  }

  lemma InsertedLine(base: seq<string>, out: seq<string>, p: Progress, h: Hunk, q: int)
    requires AtInsertion(base, out, p, h, q) && |base[h.oldStart - 1]| != |New(h.body)[0]|
    ensures WrongAt(ApplyBody(base, p, h.body), out, q)
  {
    ApplyBodyInsertsOnly(base, p, h.body);
    FirstAfter(p.out, New(h.body));
  }

  lemma FirstAfter(a: seq<string>, b: seq<string>)
    requires b != []
    ensures (a + b)[|a|] == b[0]
  {
  }

  lemma EnterInsertion(base: seq<string>, out: seq<string>, p: Progress, c: int, g: int, h: Hunk)
    requires Same(base, out, c, h.oldStart, g) && c <= h.oldStart - 1 && InsertsOnly(h) && AtCursor(p, out, c, c + g)
    ensures AtInsertion(base, out, EnterHunk(base, p, h.oldStart), h, h.oldStart - 1 + g)
  {
    EnterAligned(base, out, p, c, h.oldStart, g, h.oldStart);
    assert out[h.oldStart - 1 + g] == base[h.oldStart - 1];
  }

  lemma ReachInsertion(base: seq<string>, out: seq<string>, before: seq<Hunk>, h: Hunk)
    requires NeverBack(before) && NoInsertion(before) && InsertsOnly(h) && ReplayPos(before) <= h.oldStart - 1
    requires PatchedPrefix(base, out, before)
    requires Fits(base, out, OldEnd(before), NewEnd(before), OldPos(h), OldPos(h) + Growth(before), h)
    ensures ApplyHunks(base, before).Ok?
    ensures var p := EnterHunk(base, ApplyHunks(base, before).value, h.oldStart);
            AtInsertion(base, out, p, h, h.oldStart - 1 + Growth(before))
  {
    ForwardReplay(base, out, before);
    GapAligned(base, out, before, h);
    EnterInsertion(base, out, ApplyHunks(base, before).value, ReplayPos(before), Growth(before), h);
  }

  lemma ReachAt(base: seq<string>, out: seq<string>, hs: seq<Hunk>, k: nat, before: seq<Hunk>, h: Hunk)
    requires NeverBack(hs) && PatchedPrefix(base, out, hs) && k < |hs| && before == hs[..k] && h == hs[k]
    requires InsertsOnly(h) && NoInsertion(before)
    ensures ApplyHunks(base, before).Ok?
    ensures var p := EnterHunk(base, ApplyHunks(base, before).value, h.oldStart);
            AtInsertion(base, out, p, h, h.oldStart - 1 + Growth(before))
  {
    SplitAt(base, out, hs, k, before, h);
    ReachInsertion(base, out, before, h);
  }

  lemma WrongFrom(base: seq<string>, out: seq<string>, hs: seq<Hunk>, k: nat, h: Hunk, p: Progress, q: int)
    requires k < |hs| && ApplyHunks(base, hs[..k + 1]) == ApplyBody(base, p, h.body)
    requires AtInsertion(base, out, p, h, q) && |base[h.oldStart - 1]| != |New(h.body)[0]|
    ensures ReplayHunks(base, hs) != Ok(out)
  {
    InsertedLine(base, out, p, h, q);
    OutputStays(base, hs, k + 1);
    LineShows(base, out, ApplyBody(base, p, h.body), ApplyHunks(base, hs), q);
  }

  lemma InsertionIsWrong(hs: seq<Hunk>) returns (base: seq<string>, out: seq<string>)
    requires InFormatOrder(hs) && NeverBack(hs) && !NoInsertion(hs)
    ensures Patches(base, out, hs) && ReplayHunks(base, hs) != Ok(out)
  {
    var k := FirstInsertion(hs);
    var x := New(hs[k].body)[0] + "x";
    InstanceWithTail(hs, x, []);
    base, out := BaseFor(hs, x), OutFor(hs, x);
    assert base + [] == base && out + [] == out;
    InsertionLine(hs, k, x);
    InsertionAt(base, out, hs, k, hs[..k], hs[k]);
  }

  lemma InsertionAt(base: seq<string>, out: seq<string>, hs: seq<Hunk>, k: nat, before: seq<Hunk>, h: Hunk)
    requires NeverBack(hs) && PatchedPrefix(base, out, hs) && k < |hs| && before == hs[..k] && h == hs[k]
    requires InsertsOnly(h) && NoInsertion(before)
    requires 0 <= h.oldStart - 1 < |base| && |base[h.oldStart - 1]| != |New(h.body)[0]|
    ensures ReplayHunks(base, hs) != Ok(out)
  {
    ReachAt(base, out, hs, k, before, h);
    NextAt(base, hs, k);
    var p := EnterHunk(base, ApplyHunks(base, before).value, h.oldStart);
    WrongFrom(base, out, hs, k, h, p, h.oldStart - 1 + Growth(before));
  }

  /** What replay once output stays. */
  lemma LineShows(base: seq<string>, out: seq<string>, made: Result<Progress>, r: Result<Progress>, q: int)
    requires WrongAt(made, out, q) && (r.Ok? ==> made.value.out <= r.value.out)
    ensures r.Ok? ==> Finish(base, r.value) != out
  {
    if r.Ok? {
      assert r.value.out[q] == made.value.out[q];
      assert Finish(base, r.value)[q] == r.value.out[q];
    }
  }

  lemma FillerBefore(before: seq<Hunk>, h: Hunk, x: string)
    requires InFormatOrder(before + [h]) && NeverBack(before + [h]) && InsertsOnly(h)
    ensures var s := h.oldStart - 1; 0 <= s < |BaseFor(before + [h], x)| && BaseFor(before + [h], x)[s] == x
  {
    assert (before + [h])[..|before|] == before;
    CursorInside(before);
    FillerBetween(before + [h], x, h.oldStart - 1);
  }

  /** The line before an insertion is one of the filling lines. */
  lemma InsertionLine(hs: seq<Hunk>, k: nat, x: string)
    requires InFormatOrder(hs) && NeverBack(hs) && k < |hs| && InsertsOnly(hs[k])
    ensures 0 <= hs[k].oldStart - 1 < |BaseFor(hs, x)| && BaseFor(hs, x)[hs[k].oldStart - 1] == x
  {
    TakeNext(hs, k);
    PrefixForward(hs, k + 1);
    FillerBefore(hs[..k], hs[k], x);
    InstanceGrows(hs, x, k + 1);
  }

  lemma {:induction false} CursorInside(hs: seq<Hunk>)
    requires NeverBack(hs)
    ensures 0 <= ReplayPos(hs)
  {
    if hs != [] {
      CursorInside(hs[..|hs| - 1]);
    }
  }

  lemma StartInsertionIsWrong(hs: seq<Hunk>) returns (base: seq<string>, out: seq<string>)
    requires InFormatOrder(hs) && AllAtStart(hs) && !NoInsertion(hs)
    ensures Patches(base, out, hs) && ReplayHunks(base, hs) != Ok(out)
  {
    SomethingNew(hs);
    var x := AllNew(hs)[0] + "x";
    base := [x, x];
    out := AllNew(hs) + base;
    StartMeaning(base, base, hs);
    assert out[|AllNew(hs)|..] == base && base[0..] == base;
    StartReplay(base, hs);
    assert ReplayHunks(base, hs).value[0] == x && out[0] == AllNew(hs)[0];
  }

  lemma {:induction false} SomethingNew(hs: seq<Hunk>)
    requires !NoInsertion(hs)
    ensures AllNew(hs) != []
  {
    var n := |hs| - 1;
    if NoInsertion(hs[..n]) {
      assert InsertsOnly(hs[n]) by {
        assert forall i :: 0 <= i < n ==> hs[..n][i] == hs[i];
      }
    } else {
      SomethingNew(hs[..n]);
    }
  }

  // ---------- The exact condition ----------

  lemma ReplayableAgrees(base: seq<string>, out: seq<string>, hs: seq<Hunk>)
    requires Replayable(hs) && Patches(base, out, hs)
    ensures ReplayHunks(base, hs) == Ok(out)
  {
    if NeverBack(hs) {
      ForwardAgrees(base, out, hs);
    } else {
      StartUnique(base, out, hs);
    }
  }

  /** A base on which replay does something else than the format means. */
  lemma Disagreement(hs: seq<Hunk>) returns (base: seq<string>, out: seq<string>)
    requires InFormatOrder(hs) && !Replayable(hs)
    ensures Patches(base, out, hs) && ReplayHunks(base, hs) != Ok(out)
  {
    if NeverBack(hs) {
      base, out := InsertionIsWrong(hs);
    } else if AllAtStart(hs) {
      base, out := StartInsertionIsWrong(hs);
    } else {
      InstanceWithTail(hs, "x", ["x"]);
      base, out := BaseFor(hs, "x") + ["x"], OutFor(hs, "x") + ["x"];
      if Repeated(|base|, hs) == 0 {
        NothingRepeated(|base|, hs);
      }
      RepeatingIsWrong(base, out, hs);
    }
  }

  /** Replay does what the format means on every base if and only if the hunks are replayable. Hunks out
      of the format's order mean nothing on any base. */
  lemma ReplayMatchesFormatIff(hs: seq<Hunk>)
    ensures (forall base, out :: Patches(base, out, hs) ==> ReplayHunks(base, hs) == Ok(out))
            <==> (InFormatOrder(hs) ==> Replayable(hs))
  {
    if InFormatOrder(hs) && !Replayable(hs) {
      var base, out := Disagreement(hs);
    } else {
      forall base, out | Patches(base, out, hs) ensures ReplayHunks(base, hs) == Ok(out) {
        PatchedInOrder(base, out, hs);
        ReplayableAgrees(base, out, hs);
      }
    }
  }

  lemma ReplacementMeans(body: seq<Line>)
    requires |body| == 2 && body[0] == Delete("a") && body[1] == Insert("b")
    ensures Old(body) == ["a"] && New(body) == ["b"]
  {
    var first := body[..1];
    assert first[0] == Delete("a") && first[..0] == [];
    assert Old(first) == ["a"] && New(first) == [];
  }

  lemma ReplacementPatches(base: seq<string>, out: seq<string>, h: Hunk, e: Hunk)
    requires |base| == |out| == 1 && h.oldStart == e.oldStart == 1 && e.body == []
    requires Old(h.body) == base && New(h.body) == out
    ensures PatchedPrefix(base, out, [h]) && OldEnd([h]) == 1 && Growth([h]) == 0 && ReplayPos([h]) == 1
    ensures PatchedPrefix(base, out, [h, e]) && OldEnd([h, e]) == 1 && NewEnd([h, e]) == 1
  {
    assert base[0..1] == base && out[0..1] == out;
    PrefixSnocAt(base, out, [], h, 0, 0, 0, 0);
    assert [] + [h] == [h];
    PrefixSnocAt(base, out, [h], e, 1, 1, 1, 1);
    assert [h] + [e] == [h, e];
  }

  /** A replacement, then an empty hunk behind it: replay repeats a line. */
  lemma LineRepeated(h: Hunk, e: Hunk)
    requires h == Hunk(1, 1, [Delete("a"), Insert("b")]) && e == Hunk(1, 1, [])
    ensures Patches(["a"], ["b"], [h, e]) && ReplayHunks(["a"], [h, e]) != Ok(["b"])
  {
    ReplacementMeans(h.body);
    ReplacementPatches(["a"], ["b"], h, e);
    assert [h, e][..1] == [h] && [h][..0] == [];
    assert Repeated(1, [h]) == 0 && Repeated(1, [h, e]) == 1;
    RepeatingIsWrong(["a"], ["b"], [h, e]);
  }
}
