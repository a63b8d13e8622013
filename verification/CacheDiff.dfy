/** What the answer to a changed file says (src/tok/compression/__init__.py, the diff branch of
    _process_cache_hit): the diff it shows leads from the cached text to the new one. */
module CacheDiff {
  import opened Text
  import opened ResultCache
  import UnifiedDiff
  import DiffEmitter

  // ---------- What is asked of the diff, and that the emitter gives it ----------

  /** The diff leads from the lines of a to those of b; there is none only if they are the same. */
  predicate Leads(diff: Option<seq<string>>, a: string, b: string) {
    match diff
    case None => SplitLines(a) == SplitLines(b)
    case Some(lines) => UnifiedDiff.Replay(SplitLines(a), lines) == UnifiedDiff.Ok(SplitLines(b))
  }

  ghost predicate DiffLeads(w: World) {
    forall a, b :: Leads(w.diff(a, b), a, b)
  }

  type Matcher = (seq<string>, seq<string>) -> seq<DiffEmitter.Opcode>

  /** _compute_diff_lines, with the matcher that finds the script. */
  function Emitted(matcher: Matcher, a: string, b: string): Option<seq<string>> {
    var src, dst := SplitLines(a), SplitLines(b);
    DiffEmitter.ComputeDiffLines(src, dst, matcher(src, dst))
  }

  /** Diffs emitted for correct scripts lead from the one text to the other. */
  lemma EmittedLeads(w: World, matcher: Matcher)
    requires forall src, dst :: DiffEmitter.CorrectOpcodes(src, dst, matcher(src, dst))
    requires forall a, b :: w.diff(a, b) == Emitted(matcher, a, b)
    ensures DiffLeads(w)
  {
    forall a, b ensures Leads(w.diff(a, b), a, b) {
      var src, dst := SplitLines(a), SplitLines(b);
      DiffEmitter.DeltaRoundTrip(src, dst, matcher(src, dst));
      assert w.diff(a, b) == Emitted(matcher, a, b);
    }
  }

  // ---------- Which lines are shown ----------

  predicate Increasing(at: seq<nat>) {
    forall i, j :: 0 <= i < j < |at| ==> at[i] < at[j]
  }

  /** kept are the lines of all at these places. */
  predicate Picks(all: seq<string>, kept: seq<string>, at: seq<nat>) {
    |at| == |kept| && forall i :: 0 <= i < |at| ==> at[i] < |all| && kept[i] == all[at[i]]
  }

  /** The places are those of the lines without a blank in front. */
  predicate NamesChanges(all: seq<string>, at: seq<nat>) {
    forall k :: 0 <= k < |all| ==> (k in at <==> !StartsWith(all[k], " "))
  }

  predicate KeptAt(all: seq<string>, kept: seq<string>, at: seq<nat>) {
    Increasing(at) && Picks(all, kept, at) && NamesChanges(all, at)
  }

  /** Exactly the lines with a blank in front are left out. */
  ghost predicate OmitsContext(all: seq<string>, kept: seq<string>) {
    exists at :: KeptAt(all, kept, at)
  }

  function Shift(at: seq<nat>): (r: seq<nat>)
    ensures |r| == |at| && forall i :: 0 <= i < |at| ==> r[i] == at[i] + 1
  {
    if at == [] then [] else [at[0] + 1] + Shift(at[1..])
  }

  lemma ShiftHolds(at: seq<nat>, k: nat)
    ensures k in Shift(at) <==> k > 0 && k - 1 in at
  {
    if k > 0 && k - 1 in at {
      var i :| 0 <= i < |at| && at[i] == k - 1;
      assert Shift(at)[i] == k;
    }
  }

  /** One line more in front. */
  predicate InFront(line: string, rest: seq<string>, all: seq<string>) {
    |all| == |rest| + 1 && all[0] == line && forall k :: 0 <= k < |rest| ==> all[k + 1] == rest[k]
  }

  /** The places of the changes, one line further back. */
  lemma PlacesMove(line: string, rest: seq<string>, all: seq<string>, at: seq<nat>, k: nat)
    requires InFront(line, rest, all) && 1 <= k < |all|
    requires forall i :: 0 <= i < |rest| ==> (i in at <==> !StartsWith(rest[i], " "))
    ensures k in Shift(at) <==> !StartsWith(all[k], " ")
  {
    ShiftHolds(at, k);
    assert all[k] == rest[k - 1];
  }

  lemma NamesBehindContext(line: string, rest: seq<string>, all: seq<string>, at: seq<nat>)
    requires NamesChanges(rest, at) && StartsWith(line, " ") && InFront(line, rest, all)
    ensures NamesChanges(all, Shift(at))
  {
    forall k | 0 <= k < |all| ensures k in Shift(at) <==> !StartsWith(all[k], " ") {
      if k == 0 {
        ShiftHolds(at, 0);
      } else {
        PlacesMove(line, rest, all, at, k);
      }
    }
  }

  lemma PicksBehindContext(line: string, rest: seq<string>, all: seq<string>, kept: seq<string>, at: seq<nat>)
    requires Picks(rest, kept, at) && Increasing(at) && InFront(line, rest, all)
    ensures Picks(all, kept, Shift(at)) && Increasing(Shift(at))
  {
  }

  /** The places with the first one added. */
  predicate FirstAdded(at: seq<nat>, places: seq<nat>) {
    |places| == |at| + 1 && places[0] == 0 && forall i :: 0 <= i < |at| ==> places[i + 1] == at[i] + 1
  }

  lemma FirstPlace(at: seq<nat>, places: seq<nat>, k: nat)
    requires FirstAdded(at, places)
    ensures k in places <==> k == 0 || k in Shift(at)
  {
    if k in Shift(at) {
      var i :| 0 <= i < |Shift(at)| && Shift(at)[i] == k;
      assert places[i + 1] == k;
    }
    if k in places && k != 0 {
      var i :| 0 <= i < |places| && places[i] == k;
      assert Shift(at)[i - 1] == k;
    }
  }

  lemma NamesWithFirst(line: string, rest: seq<string>, all: seq<string>, at: seq<nat>, places: seq<nat>)
    requires NamesChanges(rest, at) && !StartsWith(line, " ") && InFront(line, rest, all) && FirstAdded(at, places)
    ensures NamesChanges(all, places)
  {
    forall k | 0 <= k < |all| ensures k in places <==> !StartsWith(all[k], " ") {
      FirstPlace(at, places, k);
      if k > 0 {
        PlacesMove(line, rest, all, at, k);
      }
    }
  }

  lemma PicksWithFirst(line: string, rest: seq<string>, all: seq<string>, kept: seq<string>, more: seq<string>,
                       at: seq<nat>, places: seq<nat>)
    requires Picks(rest, kept, at) && Increasing(at) && FirstAdded(at, places)
    requires InFront(line, rest, all) && InFront(line, kept, more)
    ensures Picks(all, more, places) && Increasing(places)
  {
    forall i | 0 <= i < |places| ensures places[i] < |all| && more[i] == all[places[i]] {
      if i > 0 {
        assert places[i] == at[i - 1] + 1 && more[i] == kept[i - 1];
      }
    }
    forall i, j | 0 <= i < j < |places| ensures places[i] < places[j] {
      assert places[j] == at[j - 1] + 1;
      if i > 0 {
        assert places[i] == at[i - 1] + 1;
      }
    }
  }

  lemma {:induction false} WithoutContextOmits(lines: seq<string>) returns (at: seq<nat>)
    ensures KeptAt(lines, WithoutContext(lines), at)
  {
    if lines == [] {
      at := [];
    } else {
      var rest := lines[1..];
      var before := WithoutContextOmits(rest);
      at := if StartsWith(lines[0], " ") then Shift(before) else [0] + Shift(before);
      if StartsWith(lines[0], " ") {
        assert WithoutContext(lines) == WithoutContext(rest);
        NamesBehindContext(lines[0], rest, lines, before);
        PicksBehindContext(lines[0], rest, lines, WithoutContext(rest), before);
      } else {
        assert WithoutContext(lines) == [lines[0]] + WithoutContext(rest);
        NamesWithFirst(lines[0], rest, lines, before, at);
        PicksWithFirst(lines[0], rest, lines, WithoutContext(rest), WithoutContext(lines), before, at);
      }
    }
  }

  // ---------- The answer to a changed file ----------

  /** A header line, and then the lines themselves, or without context for the tools that want it so. */
  ghost predicate Shows(answer: string, header: string, c: Context, lines: seq<string>) {
    if NormalName(c) in DIFF_WITHOUT_CONTEXT
    then exists kept :: OmitsContext(lines, kept) && answer == header + Join(kept, "")
    else answer == header + Join(lines, "")
  }

  /** The call reads, from a fresh entry, a file whose text is new. */
  ghost predicate ReadsChange(w: World, c: Cache, r: Read, ctx: Context) {
    && FreshHit(w, c, r, ctx) && FileLike(ctx) && !ReleaseCritical(ctx)
    && var raw, text := Unpack(c.entries[w.key(ctx)]).raw, w.strip(r.raw);
       !HostStub(w, ctx, raw, text) && !SameContent(w, text, raw)
  }

  lemma NewTextHasDiff(w: World, raw: string, text: string)
    requires DiffLeads(w) && !SameContent(w, text, raw)
    ensures w.diff(raw, text).Some?
  {
    assert Leads(w.diff(raw, text), raw, text);
    JoinLines(raw);
    JoinLines(text);
  }

  lemma ChangeIsAnswered(w: World, c: Cache, r: Read, ctx: Context)
    requires ReadsChange(w, c, r, ctx)
    ensures var f, text := Unpack(c.entries[w.key(ctx)]), w.strip(r.raw);
            Apply(w, c, r) == (c, ChangedOutput(w, w.key(ctx), text, ctx, f, r.level))
  {
    FileIsNoCommand(ctx);
  }

  lemma DiffIsShown(w: World, ctx: Context, lines: seq<string>)
    ensures Shows(DiffText(w, ctx, lines), DiffHeader(ctx, w.countChanged(lines)), ctx, lines)
  {
    var at := WithoutContextOmits(lines);
  }

  /** A changed file is answered with diff lines that turn the cached text into the call's own text,
      unless they are more than 1000; the tools without context miss exactly the context lines. */
  lemma ChangedReadLeads(w: World, c: Cache, r: Read, ctx: Context) returns (lines: seq<string>)
    requires DiffLeads(w) && ReadsChange(w, c, r, ctx)
    ensures var raw, text, out := Unpack(c.entries[w.key(ctx)]).raw, w.strip(r.raw), Apply(w, c, r).1;
            && UnifiedDiff.Replay(SplitLines(raw), lines) == UnifiedDiff.Ok(SplitLines(text))
            && Join(SplitLines(text), "") == text
            && (out.kind.Changed? <==> |lines| <= 1000)
            && (out.kind.Changed? ==>
                  && Shows(out.text, DiffHeader(ctx, w.countChanged(lines)), ctx, lines)
                  && out.saved == |text| - |out.text|)
  {
    var f, text := Unpack(c.entries[w.key(ctx)]), w.strip(r.raw);
    NewTextHasDiff(w, f.raw, text);
    lines := w.diff(f.raw, text).value;
    assert Leads(w.diff(f.raw, text), f.raw, text);
    JoinLines(text);
    ChangeIsAnswered(w, c, r, ctx);
    DiffIsShown(w, ctx, lines);
  }
}
