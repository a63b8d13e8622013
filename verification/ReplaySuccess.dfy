/** When replay (scripts/tok_trace_reader.py) succeeds, and when its success means what the format means. */
module ReplaySuccess {
  import opened Text
  import opened UnifiedDiff
  import opened ReplayFormat

  // ---------- Replay succeeds when every hunk finds its old lines ----------

  /** base has the line at i, counted from the end if i is negative. */
  predicate Reads(base: seq<string>, i: int, line: string) {
    -|base| <= i < |base| && base[if i < 0 then |base| + i else i] == line
  }

  predicate Finds(base: seq<string>, start: int, lines: seq<string>) {
    forall i :: 0 <= i < |lines| ==> Reads(base, start + i, lines[i])
  }

  /** Each hunk finds its old lines at its own start, wherever the hunks before it ended. */
  predicate AllFound(base: seq<string>, hs: seq<Hunk>) {
    forall k :: 0 <= k < |hs| ==> Finds(base, hs[k].oldStart - 1, Old(hs[k].body))
  }

  lemma FindsMore(base: seq<string>, start: int, lines: seq<string>, line: string)
    ensures Finds(base, start, lines + [line]) <==> Finds(base, start, lines) && Reads(base, start + |lines|, line)
  {
    var more := lines + [line];
    if Finds(base, start, more) {
      assert more[|lines|] == line;
      forall i | 0 <= i < |lines| ensures Reads(base, start + i, lines[i]) {
        assert more[i] == lines[i];
      }
    }
  }

  lemma {:induction false} BodyAppliesIff(base: seq<string>, p: Progress, body: seq<Line>)
    ensures ApplyBody(base, p, body).Ok? <==> Finds(base, p.pos, Old(body))
    ensures ApplyBody(base, p, body).Ok? ==> ApplyBody(base, p, body).value.pos == p.pos + |Old(body)|
  {
    if body != [] {
      var before, l := body[..|body| - 1], body[|body| - 1];
      BodyAppliesIff(base, p, before);
      if l.Context? || l.Delete? {
        FindsMore(base, p.pos, Old(before), l.text);
      } else {
        assert Old(body) == Old(before);
      }
    }
  }

  lemma FoundMore(base: seq<string>, before: seq<Hunk>, h: Hunk)
    ensures AllFound(base, before + [h]) <==> AllFound(base, before) && Finds(base, h.oldStart - 1, Old(h.body))
  {
    var hs := before + [h];
    if AllFound(base, hs) {
      assert hs[|before|] == h;
      forall k | 0 <= k < |before| ensures Finds(base, before[k].oldStart - 1, Old(before[k].body)) {
        assert hs[k] == before[k];
      }
    }
  }

  /** Replay succeeds on a base exactly if each hunk finds its old lines there, in any order. */
  lemma {:induction false} ReplaySucceedsIff(base: seq<string>, hs: seq<Hunk>)
    ensures ReplayHunks(base, hs).Ok? <==> AllFound(base, hs)
    decreases |hs|
  {
    if hs != [] {
      var before, h := hs[..|hs| - 1], hs[|hs| - 1];
      ReplaySucceedsIff(base, before);
      assert before + [h] == hs;
      FoundMore(base, before, h);
      if ApplyHunks(base, before).Ok? {
        BodyAppliesIff(base, EnterHunk(base, ApplyHunks(base, before).value, h.oldStart), h.body);
      }
    }
  }

  // ---------- Hunks some base can satisfy ----------

  /** Old lines of two hunks for the same place are the same line. */
  predicate Agree(h: Hunk, g: Hunk) {
    forall i, j :: 0 <= i < |Old(h.body)| && 0 <= j < |Old(g.body)| && h.oldStart + i == g.oldStart + j ==>
      Old(h.body)[i] == Old(g.body)[j]
  }

  predicate Compatible(hs: seq<Hunk>) {
    forall k, l :: 0 <= k < |hs| && 0 <= l < |hs| ==> Agree(hs[k], hs[l])
  }

  lemma FoundAgree(base: seq<string>, h: Hunk, g: Hunk)
    requires Finds(base, h.oldStart - 1, Old(h.body)) && Finds(base, g.oldStart - 1, Old(g.body))
    ensures Agree(h, g)
  {
    forall i, j | 0 <= i < |Old(h.body)| && 0 <= j < |Old(g.body)| && h.oldStart + i == g.oldStart + j
      ensures Old(h.body)[i] == Old(g.body)[j]
    {
      assert Reads(base, h.oldStart - 1 + i, Old(h.body)[i]) && Reads(base, g.oldStart - 1 + j, Old(g.body)[j]);
    }
  }

  lemma FoundCompatible(base: seq<string>, hs: seq<Hunk>)
    requires AllFound(base, hs)
    ensures Compatible(hs)
  {
    forall k, l | 0 <= k < |hs| && 0 <= l < |hs| ensures Agree(hs[k], hs[l]) {
      FoundAgree(base, hs[k], hs[l]);
    }
  }

  /** The hunk has an old line for place i; the lines of a base are places 0, 1, ..., its last one is -1 too. */
  predicate Covers(h: Hunk, i: int) {
    0 <= i - (h.oldStart - 1) < |Old(h.body)|
  }

  function LineFor(hs: seq<Hunk>, i: int): string {
    if hs == [] then ""
    else if Covers(hs[|hs| - 1], i) then Old(hs[|hs| - 1].body)[i - (hs[|hs| - 1].oldStart - 1)]
    else LineFor(hs[..|hs| - 1], i)
  }

  /** No hunk covers n or a later place. */
  function Beyond(hs: seq<Hunk>): (n: nat)
    ensures forall k :: 0 <= k < |hs| ==> hs[k].oldStart + |Old(hs[k].body)| <= n
  {
    if hs == [] then 0
    else
      var n, e := Beyond(hs[..|hs| - 1]), hs[|hs| - 1].oldStart + |Old(hs[|hs| - 1].body)|;
      assert forall k :: 0 <= k < |hs| - 1 ==> hs[..|hs| - 1][k] == hs[k];
      if n < e then e else n
  }

  function LinesFor(hs: seq<Hunk>, n: nat): (r: seq<string>)
    ensures |r| == n && forall i :: 0 <= i < n ==> r[i] == LineFor(hs, i)
  {
    if n == 0 then [] else LinesFor(hs, n - 1) + [LineFor(hs, n - 1)]
  }

  /** A base for compatible hunks. */
  function CommonBase(hs: seq<Hunk>): (r: seq<string>)
    ensures |r| == Beyond(hs) + 1 && r[|r| - 1] == LineFor(hs, -1)
    ensures forall i :: 0 <= i < |r| - 1 ==> r[i] == LineFor(hs, i)
  {
    LinesFor(hs, Beyond(hs)) + [LineFor(hs, -1)]
  }

  lemma {:induction false} LineForCovered(hs: seq<Hunk>, k: nat, i: int)
    requires k < |hs| && Covers(hs[k], i)
    requires forall l :: 0 <= l < |hs| ==> Agree(hs[k], hs[l])
    ensures LineFor(hs, i) == Old(hs[k].body)[i - (hs[k].oldStart - 1)]
    decreases |hs|
  {
    var before, h := hs[..|hs| - 1], hs[|hs| - 1];
    if Covers(h, i) {
      assert Agree(hs[k], h);
      var a, b := i - (hs[k].oldStart - 1), i - (h.oldStart - 1);
      assert hs[k].oldStart + a == h.oldStart + b;
    } else {
      assert forall l :: 0 <= l < |before| ==> before[l] == hs[l];
      LineForCovered(before, k, i);
    }
  }

  lemma CommonBaseFound(hs: seq<Hunk>)
    requires Compatible(hs)
    ensures AllFound(CommonBase(hs), hs)
  {
    var base := CommonBase(hs);
    forall k | 0 <= k < |hs| ensures Finds(base, hs[k].oldStart - 1, Old(hs[k].body)) {
      CommonBaseFinds(hs, k, base);
    }
  }

  lemma CommonBaseFinds(hs: seq<Hunk>, k: nat, base: seq<string>)
    requires Compatible(hs) && k < |hs| && base == CommonBase(hs)
    ensures Finds(base, hs[k].oldStart - 1, Old(hs[k].body))
  {
    var start, lines := hs[k].oldStart - 1, Old(hs[k].body);
    forall i | 0 <= i < |lines| ensures Reads(base, start + i, lines[i]) {
      assert Covers(hs[k], start + i);
      LineForCovered(hs, k, start + i);
    }
  }

  /** Some base lets replay succeed exactly if the hunks are compatible. */
  lemma CompatibleIff(hs: seq<Hunk>)
    ensures (exists base :: ReplayHunks(base, hs).Ok?) <==> Compatible(hs)
  {
    if Compatible(hs) {
      CommonBaseFound(hs);
      ReplaySucceedsIff(CommonBase(hs), hs);
    }
    if base :| ReplayHunks(base, hs).Ok? {
      ReplaySucceedsIff(base, hs);
      FoundCompatible(base, hs);
    }
  }

  // ---------- The one output the format allows ----------

  /** What the hunks make of the base, up to the last of them. */
  function Made(base: seq<string>, hs: seq<Hunk>): seq<string> {
    if hs == [] then []
    else
      var before, h := hs[..|hs| - 1], hs[|hs| - 1];
      Made(base, before) + Slice(base, OldEnd(before), OldPos(h)) + New(h.body)
  }

  lemma TakeThree<T>(s: seq<T>, b: nat, q: nat, e: nat)
    requires b <= q <= e <= |s|
    ensures s[..e] == s[..b] + s[b..q] + s[q..e]
  {
  }

  lemma {:induction false} PatchedIsMade(base: seq<string>, out: seq<string>, hs: seq<Hunk>)
    requires PatchedPrefix(base, out, hs)
    ensures out[..NewEnd(hs)] == Made(base, hs)
  {
    if hs != [] {
      var before, h := hs[..|hs| - 1], hs[|hs| - 1];
      PatchedIsMade(base, out, before);
      MadeMore(base, out, Made(base, before), OldEnd(before), NewEnd(before), OldPos(h), OldPos(h) + Growth(before), h);
    }
  }

  lemma MadeMore(base: seq<string>, out: seq<string>, made: seq<string>, a: nat, b: nat, p: int, q: int, h: Hunk)
    requires Fits(base, out, a, b, p, q, h) && out[..b] == made
    ensures out[..q + |New(h.body)|] == made + Slice(base, a, p) + New(h.body)
  {
    TakeThree(out, b, q, q + |New(h.body)|);
  }

  lemma PatchUnique(base: seq<string>, out: seq<string>, other: seq<string>, hs: seq<Hunk>)
    requires Patches(base, out, hs) && Patches(base, other, hs)
    ensures out == other
  {
    PatchedIsMade(base, out, hs);
    PatchedIsMade(base, other, hs);
    assert out == out[..NewEnd(hs)] + out[NewEnd(hs)..] && other == other[..NewEnd(hs)] + other[NewEnd(hs)..];
  }

  lemma FitsFinds(base: seq<string>, out: seq<string>, a: nat, b: nat, p: int, q: int, h: Hunk)
    requires Fits(base, out, a, b, p, q, h) && p == OldPos(h)
    ensures Finds(base, h.oldStart - 1, Old(h.body))
  {
    forall i | 0 <= i < |Old(h.body)| ensures Reads(base, h.oldStart - 1 + i, Old(h.body)[i]) {
      assert base[p..p + |Old(h.body)|][i] == base[p + i];
    }
  }

  lemma {:induction false} PatchedFound(base: seq<string>, out: seq<string>, hs: seq<Hunk>)
    requires PatchedPrefix(base, out, hs)
    ensures AllFound(base, hs)
  {
    if hs != [] {
      var before, h := hs[..|hs| - 1], hs[|hs| - 1];
      PatchedFound(base, out, before);
      FitsFinds(base, out, OldEnd(before), NewEnd(before), OldPos(h), OldPos(h) + Growth(before), h);
      assert before + [h] == hs;
      FoundMore(base, before, h);
    }
  }

  lemma FindsFits(base: seq<string>, made: seq<string>, gap: seq<string>, a: nat, h: Hunk)
    requires a <= OldPos(h) && OldPos(h) + |Old(h.body)| <= |base| && gap == base[a..OldPos(h)]
    requires Finds(base, h.oldStart - 1, Old(h.body))
    ensures Fits(base, made + gap + New(h.body), a, |made|, OldPos(h), |made| + |gap|, h)
  {
    var out, p := made + gap + New(h.body), OldPos(h);
    assert out[|made|..|made| + |gap|] == gap && out[|made| + |gap|..] == New(h.body);
    forall i | 0 <= i < |Old(h.body)| ensures base[p + i] == Old(h.body)[i] {
      assert Reads(base, h.oldStart - 1 + i, Old(h.body)[i]);
    }
  }

  /** Found hunks in the format's order patch a base that reaches to their end. */
  lemma {:induction false} FoundPatches(base: seq<string>, hs: seq<Hunk>)
    requires InFormatOrder(hs) && AllFound(base, hs) && OldEnd(hs) <= |base|
    ensures PatchedPrefix(base, Made(base, hs), hs) && |Made(base, hs)| == NewEnd(hs) && 0 <= OldEnd(hs)
    decreases |hs|
  {
    if hs != [] {
      var before, h := hs[..|hs| - 1], hs[|hs| - 1];
      assert before + [h] == hs;
      FoundMore(base, before, h);
      FoundPatches(base, before);
      FoundStep(base, before, h, Made(base, before), OldEnd(before));
    }
  }

  lemma FoundStep(base: seq<string>, before: seq<Hunk>, h: Hunk, made: seq<string>, a: nat)
    requires PatchedPrefix(base, made, before) && a == OldEnd(before) && |made| == NewEnd(before)
    requires a <= OldPos(h) && OldPos(h) + |Old(h.body)| <= |base| && Finds(base, h.oldStart - 1, Old(h.body))
    ensures var out := made + Slice(base, a, OldPos(h)) + New(h.body);
            PatchedPrefix(base, out, before + [h]) && |out| == NewEnd(before + [h])
  {
    var gap := base[a..OldPos(h)];
    var out := made + gap + New(h.body);
    FindsFits(base, made, gap, a, h);
    StartsSum(made, gap, New(h.body));
    PrefixGrows(base, made, out, before);
    PrefixSnocAt(base, out, before, h, a, |made|, OldPos(h), |made| + |gap|);
  }

  lemma FoundPatched(base: seq<string>, hs: seq<Hunk>) returns (out: seq<string>)
    requires InFormatOrder(hs) && AllFound(base, hs) && OldEnd(hs) <= |base|
    ensures Patches(base, out, hs)
  {
    FoundPatches(base, hs);
    var made, rest := Made(base, hs), base[OldEnd(hs)..];
    out := made + rest;
    PrefixGrows(base, made, out, hs);
    assert out[|made|..] == rest;
  }

  // ---------- Success means what the format means ----------

  /** The base is known to reach to the end of the hunks. */
  predicate EndsConsuming(hs: seq<Hunk>) {
    hs == [] || Old(hs[|hs| - 1].body) != []
  }

  predicate Meant(hs: seq<Hunk>) {
    InFormatOrder(hs) && Replayable(hs) && (AllAtStart(hs) || EndsConsuming(hs))
  }

  lemma MeantReaches(base: seq<string>, hs: seq<Hunk>)
    requires Meant(hs) && AllFound(base, hs)
    ensures OldEnd(hs) <= |base|
  {
    if hs != [] {
      var h := hs[|hs| - 1];
      if AllAtStart(hs) {
        StartMeaning([], [], hs);
      } else {
        assert Reads(base, h.oldStart - 1 + (|Old(h.body)| - 1), Old(h.body)[|Old(h.body)| - 1]);
      }
    }
  }

  lemma MeantAgrees(base: seq<string>, out: seq<string>, hs: seq<Hunk>)
    requires Meant(hs) && ReplayHunks(base, hs) == Ok(out)
    ensures Patches(base, out, hs)
  {
    ReplaySucceedsIff(base, hs);
    MeantReaches(base, hs);
    var patched := FoundPatched(base, hs);
    ReplayableAgrees(base, patched, hs);
  }

  // ---------- And fails to otherwise ----------

  lemma {:induction false} ReadsBefore(hs: seq<Hunk>, k: nat)
    requires NeverBack(hs) && k < |hs|
    ensures 0 <= hs[k].oldStart - 1 && hs[k].oldStart - 1 + |Old(hs[k].body)| <= ReplayPos(hs)
    decreases |hs|
  {
    var before := hs[..|hs| - 1];
    CursorInside(before);
    if k < |hs| - 1 {
      assert before[k] == hs[k];
      ReadsBefore(before, k);
    }
  }

  /** Hunks found in a base are found in any part of it that reaches to replay's last place. */
  lemma FoundInFront(base: seq<string>, hs: seq<Hunk>, n: nat)
    requires NeverBack(hs) && AllFound(base, hs) && ReplayPos(hs) <= n <= |base|
    ensures AllFound(base[..n], hs)
  {
    forall k | 0 <= k < |hs| ensures Finds(base[..n], hs[k].oldStart - 1, Old(hs[k].body)) {
      ReadsBefore(hs, k);
      FindsInFront(base, hs[k].oldStart - 1, Old(hs[k].body), n);
    }
  }

  lemma FindsInFront(base: seq<string>, start: nat, lines: seq<string>, n: nat)
    requires Finds(base, start, lines) && start + |lines| <= n <= |base|
    ensures Finds(base[..n], start, lines)
  {
    forall i | 0 <= i < |lines| ensures Reads(base[..n], start + i, lines[i]) {
      assert Reads(base, start + i, lines[i]);
    }
  }

  /** A last hunk without old lines also replays on a base too short for it. */
  lemma TooShort(hs: seq<Hunk>) returns (base: seq<string>, out: seq<string>)
    requires InFormatOrder(hs) && NeverBack(hs) && !EndsConsuming(hs)
    ensures ReplayHunks(base, hs) == Ok(out) && !Patches(base, out, hs)
  {
    InstancePatches(hs, "x");
    var whole := BaseFor(hs, "x");
    PatchedFound(whole, OutFor(hs, "x"), hs);
    ReadsBefore(hs, |hs| - 1);
    var n := ReplayPos(hs);
    FoundInFront(whole, hs, n);
    base := whole[..n];
    ReplaySucceedsIff(base, hs);
    out := ReplayHunks(base, hs).value;
  }

  lemma NotMeant(hs: seq<Hunk>) returns (base: seq<string>, out: seq<string>)
    requires Compatible(hs) && !Meant(hs)
    ensures ReplayHunks(base, hs) == Ok(out) && !Patches(base, out, hs)
  {
    if !InFormatOrder(hs) {
      base := CommonBase(hs);
      CommonBaseFound(hs);
      ReplaySucceedsIff(base, hs);
      out := ReplayHunks(base, hs).value;
      if Patches(base, out, hs) {
        PatchedInOrder(base, out, hs);
      }
    } else if !Replayable(hs) {
      var patched;
      base, patched := Disagreement(hs);
      PatchedFound(base, patched, hs);
      ReplaySucceedsIff(base, hs);
      out := ReplayHunks(base, hs).value;
      if Patches(base, out, hs) {
        PatchUnique(base, out, patched, hs);
      }
    } else {
      base, out := TooShort(hs);
    }
  }

  /** Whenever replay succeeds it does what the format means, if and only if no base satisfies the hunks
      or they are meant for replay. */
  lemma SuccessIsMeantIff(hs: seq<Hunk>)
    ensures (forall base, out :: ReplayHunks(base, hs) == Ok(out) ==> Patches(base, out, hs))
            <==> (Compatible(hs) ==> Meant(hs))
  {
    if Compatible(hs) && !Meant(hs) {
      var base, out := NotMeant(hs);
    } else {
      forall base, out | ReplayHunks(base, hs) == Ok(out) ensures Patches(base, out, hs) {
        ReplaySucceedsIff(base, hs);
        FoundCompatible(base, hs);
        MeantAgrees(base, out, hs);
      }
    }
  }

  /** Replay is the format, on every base and both ways, under the same condition. */
  lemma ReplayIsFormatIff(hs: seq<Hunk>)
    ensures (forall base, out :: ReplayHunks(base, hs) == Ok(out) <==> Patches(base, out, hs))
            <==> (Compatible(hs) ==> Meant(hs))
  {
    SuccessIsMeantIff(hs);
    if Compatible(hs) ==> Meant(hs) {
      forall base, out | Patches(base, out, hs) ensures ReplayHunks(base, hs) == Ok(out) {
        PatchedFound(base, out, hs);
        FoundCompatible(base, hs);
        ReplayableAgrees(base, out, hs);
      }
    }
  }

  /** The same for the lines of a whole diff. */
  lemma DiffIsFormatIff(lines: seq<string>, hs: seq<Hunk>)
    requires ParsePatch(lines) == Some(hs)
    ensures (forall base, out :: Replay(base, lines) == Ok(out) <==> Patches(base, out, hs))
            <==> (Compatible(hs) ==> Meant(hs))
  {
    forall base ensures Replay(base, lines) == ReplayHunks(base, hs) {
      ReplayMatchesParse(base, lines);
    }
    ReplayIsFormatIff(hs);
  }

  lemma OldOfDeletion(body: seq<Line>, line: string)
    requires |body| == 1 && body[0] == Delete(line)
    ensures Old(body) == [line]
  {
    assert Old(body[..0]) == [];
  }

  lemma TwoFound(base: seq<string>, h: Hunk, e: Hunk)
    requires |base| == 2 && h.oldStart == 2 && e.oldStart == 1 && Old(h.body) == [base[1]] && Old(e.body) == [base[0]]
    ensures AllFound(base, [h, e]) && !InFormatOrder([h, e])
  {
    assert Reads(base, 1, base[1]) && Reads(base, 0, base[0]);
    assert [h, e][..1] == [h];
    assert OldEnd([h]) == 2 && OldPos(e) == 0;
  }

  /** Two deletions in the wrong order: replay succeeds, although the format gives them no meaning. */
  lemma WrongOrderAccepted(base: seq<string>, h: Hunk, e: Hunk)
    requires |base| == 2 && h == Hunk(2, 2, [Delete(base[1])]) && e == Hunk(1, 1, [Delete(base[0])])
    ensures ReplayHunks(base, [h, e]).Ok? && forall any, out :: !Patches(any, out, [h, e])
  {
    OldOfDeletion(h.body, base[1]);
    OldOfDeletion(e.body, base[0]);
    TwoFound(base, h, e);
    ReplaySucceedsIff(base, [h, e]);
    forall any, out ensures !Patches(any, out, [h, e]) {
      if Patches(any, out, [h, e]) {
        PatchedInOrder(any, out, [h, e]);
      }
    }
  }

  /** An empty hunk behind line 1 replays on an empty base, which has no line 1. */
  lemma ShortBaseAccepted(h: Hunk)
    requires h == Hunk(1, 1, [])
    ensures ReplayHunks([], [h]).Ok? && forall out :: !Patches([], out, [h])
  {
    ReplaySucceedsIff([], [h]);
    assert OldEnd([h]) == 1;
  }
}
