/** Replacing repeated base64 images by a text stub (src/tok/compression/_image_dedup.py). */
module ImageDedup {

  /** Base64 images, text blocks, and everything else (images by URL among it). */
  datatype Block = Image(data: string, rest: string) | Text(text: string) | Other(item: string)

  type Fingerprinter = string -> string

  function Stub(mark: string): string {
    "[image: " + mark + ", already delivered at prior turn]"
  }

  /** The mark can be read off the stub, behind "[image: ". */
  lemma StubNamesMark(mark: string)
    ensures 8 + |mark| <= |Stub(mark)| && Stub(mark)[..8] == "[image: " && Stub(mark)[8..8 + |mark|] == mark
  {
  }

  /** Stubs of different marks are different. */
  lemma StubsTellApart(mark: string, other: string)
    ensures Stub(mark) == Stub(other) <==> mark == other
  {
    StubNamesMark(mark);
    StubNamesMark(other);
    if Stub(mark) == Stub(other) {
      assert |Stub(mark)| == |mark| + |Stub("")| && |Stub(other)| == |other| + |Stub("")|;
    }
  }

  // ---------- The meaning: what came before decides ----------

  function Prints(content: seq<Block>, fp: Fingerprinter): set<string> {
    set b | b in content && b.Image? :: fp(b.data)
  }

  predicate Repeats(content: seq<Block>, seen: set<string>, fp: Fingerprinter, i: nat)
    requires i < |content|
  {
    content[i].Image? && fp(content[i].data) in seen + Prints(content[..i], fp)
  }

  function Deduped(content: seq<Block>, seen: set<string>, fp: Fingerprinter): (r: seq<Block>)
    ensures |r| == |content|
  {
    seq(|content|, i requires 0 <= i < |content| =>
      if Repeats(content, seen, fp, i) then Text(Stub(fp(content[i].data))) else content[i])
  }

  /** The reported saving: never negative for a single image. */
  function Saved(content: seq<Block>, seen: set<string>, fp: Fingerprinter): nat {
    if content == [] then 0
    else
      var i := |content| - 1;
      Saved(content[..i], seen, fp)
      + if Repeats(content, seen, fp, i) then Excess(|content[i].data| - |Stub(fp(content[i].data))|) else 0
  }

  /** `max(0, n)` */
  function Excess(n: int): nat {
    if n < 0 then 0 else n
  }

  // ---------- The loop, with its shared set ----------

  class FingerprintSet {
    var members: set<string>

    constructor (members: set<string>)
      ensures this.members == members
    {
      this.members := members;
    }
  }

  lemma RepeatsPrefix(content: seq<Block>, n: nat, seen: set<string>, fp: Fingerprinter, i: nat)
    requires i < n <= |content|
    ensures Repeats(content[..n], seen, fp, i) == Repeats(content, seen, fp, i)
  {
    assert content[..n][..i] == content[..i];
  }

  lemma DedupedSnoc(content: seq<Block>, seen: set<string>, fp: Fingerprinter)
    requires content != []
    ensures var i := |content| - 1;
            && Deduped(content, seen, fp) == Deduped(content[..i], seen, fp) + [Deduped(content, seen, fp)[i]]
            && Prints(content, fp)
               == Prints(content[..i], fp) + if content[i].Image? then {fp(content[i].data)} else {}
  {
    var n := |content| - 1;
    forall k | 0 <= k < n ensures Deduped(content, seen, fp)[k] == Deduped(content[..n], seen, fp)[k] {
      RepeatsPrefix(content, n, seen, fp, k);
    }
    assert content == content[..n] + [content[n]];
    PrintsConcat(content[..n], [content[n]], fp);
  }

  method StripDuplicateImages(content: seq<Block>, seen: FingerprintSet, fp: Fingerprinter)
    returns (result: seq<Block>, saved: nat)
    modifies seen
    ensures result == Deduped(content, old(seen.members), fp)
    ensures saved == Saved(content, old(seen.members), fp)
    ensures seen.members == old(seen.members) + Prints(content, fp)
  {
    result, saved := [], 0;
    if content == [] {
      return;
    }
    ghost var start := seen.members;
    for i := 0 to |content|
      invariant result == Deduped(content[..i], start, fp)
      invariant saved == Saved(content[..i], start, fp)
      invariant seen.members == start + Prints(content[..i], fp)
    {
      var block := content[i];
      ghost var done := content[..i + 1];
      assert done[i] == block;
      assert done[..i] == content[..i];
      DedupedSnoc(done, start, fp);
      assert Deduped(done, start, fp) == result + [Deduped(done, start, fp)[i]];
      assert Repeats(done, start, fp, i) == (block.Image? && fp(block.data) in seen.members);
      if !block.Image? {
        result := result + [block];
        continue;
      }
      var mark := fp(block.data);
      if mark in seen.members {
        var stubText := Stub(mark);
        result := result + [Text(stubText)];
        saved := saved + Excess(|block.data| - |stubText|);
      } else {
        seen.members := seen.members + {mark};
        result := result + [block];
      }
    }
    assert content[..|content|] == content;
  }

  // ---------- Many lists, one set ----------

  lemma PrintsConcat(a: seq<Block>, b: seq<Block>, fp: Fingerprinter)
    ensures Prints(a + b, fp) == Prints(a, fp) + Prints(b, fp)
  {
  }

  lemma RepeatsConcat(a: seq<Block>, b: seq<Block>, seen: set<string>, fp: Fingerprinter, i: nat)
    requires i < |a| + |b|
    ensures Repeats(a + b, seen, fp, i)
            == if i < |a| then Repeats(a, seen, fp, i) else Repeats(b, seen + Prints(a, fp), fp, i - |a|)
  {
    if i < |a| {
      assert (a + b)[..i] == a[..i];
    } else {
      assert (a + b)[..i] == a + b[..i - |a|];
      PrintsConcat(a, b[..i - |a|], fp);
    }
  }

  lemma {:induction false} SavedConcat(a: seq<Block>, b: seq<Block>, seen: set<string>, fp: Fingerprinter)
    ensures Saved(a + b, seen, fp) == Saved(a, seen, fp) + Saved(b, seen + Prints(a, fp), fp)
  {
    if b == [] {
      assert a + b == a;
    } else {
      var i := |b| - 1;
      SavedConcat(a, b[..i], seen, fp);
      assert (a + b)[..|a| + i] == a + b[..i];
      RepeatsConcat(a, b, seen, fp, |a| + i);
    }
  }

  /** Two lists in a row are one list. */
  lemma ChunksIndependent(a: seq<Block>, b: seq<Block>, seen: set<string>, fp: Fingerprinter)
    ensures Deduped(a + b, seen, fp) == Deduped(a, seen, fp) + Deduped(b, seen + Prints(a, fp), fp)
    ensures Saved(a + b, seen, fp) == Saved(a, seen, fp) + Saved(b, seen + Prints(a, fp), fp)
    ensures Prints(a + b, fp) == Prints(a, fp) + Prints(b, fp)
  {
    forall i | 0 <= i < |a| + |b|
      ensures Deduped(a + b, seen, fp)[i] == (Deduped(a, seen, fp) + Deduped(b, seen + Prints(a, fp), fp))[i]
    {
      RepeatsConcat(a, b, seen, fp, i);
    }
    SavedConcat(a, b, seen, fp);
    PrintsConcat(a, b, fp);
  }

  function Flatten(lists: seq<seq<Block>>): seq<Block> {
    if lists == [] then [] else Flatten(lists[..|lists| - 1]) + lists[|lists| - 1]
  }

  lemma FlattenSnoc(lists: seq<seq<Block>>, more: seq<Block>)
    ensures Flatten(lists + [more]) == Flatten(lists) + more
  {
    assert (lists + [more])[..|lists|] == lists;
  }

  lemma FlattenNext(lists: seq<seq<Block>>, k: nat)
    requires k <= |lists|
    ensures k < |lists| ==> Flatten(lists[..k + 1]) == Flatten(lists[..k]) + lists[k]
    ensures k == |lists| ==> lists[..k] == lists
  {
    if k < |lists| {
      assert lists[..k + 1] == lists[..k] + [lists[k]];
      FlattenSnoc(lists[..k], lists[k]);
    }
  }

  /** A request's lists, one call each, give what one call on their concatenation gives. */
  method StripAll(lists: seq<seq<Block>>, seen: FingerprintSet, fp: Fingerprinter)
    returns (results: seq<seq<Block>>, saved: nat)
    modifies seen
    ensures Flatten(results) == Deduped(Flatten(lists), old(seen.members), fp)
    ensures |results| == |lists| && forall k :: 0 <= k < |lists| ==> |results[k]| == |lists[k]|
    ensures saved == Saved(Flatten(lists), old(seen.members), fp)
    ensures seen.members == old(seen.members) + Prints(Flatten(lists), fp)
  {
    results, saved := [], 0;
    ghost var start := seen.members;
    for k := 0 to |lists|
      invariant |results| == k && forall j :: 0 <= j < k ==> |results[j]| == |lists[j]|
      invariant Flatten(results) == Deduped(Flatten(lists[..k]), start, fp)
      invariant saved == Saved(Flatten(lists[..k]), start, fp)
      invariant seen.members == start + Prints(Flatten(lists[..k]), fp)
    {
      ChunksIndependent(Flatten(lists[..k]), lists[k], start, fp);
      FlattenNext(lists, k);
      var result, more := StripDuplicateImages(lists[k], seen, fp);
      FlattenSnoc(results, result);
      results, saved := results + [result], saved + more;
    }
    FlattenNext(lists, |lists|);
  }

  // ---------- Delivery ----------

  /** Position i of the output is the image itself. */
  predicate Delivers(content: seq<Block>, seen: set<string>, fp: Fingerprinter, i: nat)
    requires i < |content|
  {
    content[i].Image? && Deduped(content, seen, fp)[i] == content[i]
  }

  /** A fingerprint is delivered at most once, and not at all if it was seen before. */
  lemma DeliveredOnce(content: seq<Block>, seen: set<string>, fp: Fingerprinter, i: nat, j: nat)
    requires i < |content| && j < |content| && Delivers(content, seen, fp, i)
    ensures fp(content[i].data) !in seen
    ensures i != j && Delivers(content, seen, fp, j) ==> fp(content[i].data) != fp(content[j].data)
  {
    if i < j {
      assert content[i] in content[..j];
    } else if j < i && content[j].Image? {
      assert content[j] in content[..i];
    }
  }

  /** What a stub stands for was seen initially, or is delivered earlier in the same run. */
  lemma {:induction false} StubIsRecoverable(content: seq<Block>, seen: set<string>, fp: Fingerprinter, i: nat)
    requires i < |content| && Repeats(content, seen, fp, i)
    ensures fp(content[i].data) in seen ||
            exists j :: 0 <= j < i && Delivers(content, seen, fp, j) && fp(content[j].data) == fp(content[i].data)
  {
    if fp(content[i].data) !in seen {
      var b :| b in content[..i] && b.Image? && fp(b.data) == fp(content[i].data);
      var j :| 0 <= j < i && content[j] == b;
      if Repeats(content, seen, fp, j) {
        StubIsRecoverable(content, seen, fp, j);
      } else {
        assert Delivers(content, seen, fp, j);
      }
    }
  }

  /** With a fresh set, a second pass changes nothing and saves nothing. */
  lemma SecondPassIsIdentity(content: seq<Block>, seen: set<string>, fp: Fingerprinter)
    ensures var once := Deduped(content, seen, fp);
            Deduped(once, {}, fp) == once && Saved(once, {}, fp) == 0
  {
    var once := Deduped(content, seen, fp);
    forall i | 0 <= i < |once| ensures !Repeats(once, {}, fp, i) {
      if once[i].Image? {
        forall b | b in once[..i] && b.Image? ensures fp(b.data) != fp(once[i].data) {
          var j :| 0 <= j < i && once[j] == b;
          DeliveredOnce(content, seen, fp, i, j);
        }
      }
    }
    NothingRepeats(once, {}, fp);
  }

  lemma {:induction false} NothingRepeats(content: seq<Block>, seen: set<string>, fp: Fingerprinter)
    requires forall i :: 0 <= i < |content| ==> !Repeats(content, seen, fp, i)
    ensures Saved(content, seen, fp) == 0
  {
    if content != [] {
      var n := |content| - 1;
      forall i | 0 <= i < n ensures !Repeats(content[..n], seen, fp, i) {
        RepeatsPrefix(content, n, seen, fp, i);
      }
      NothingRepeats(content[..n], seen, fp);
    }
  }

  // ---------- The reported saving ----------

  function Chars(b: Block): nat {
    match b
    case Image(data, _) => |data|
    case Text(text) => |text|
    case Other(_) => 0
  }

  function TotalChars(content: seq<Block>): nat {
    if content == [] then 0 else TotalChars(content[..|content| - 1]) + Chars(content[|content| - 1])
  }

  /** Every image that gives way to a stub is at least as long as the stub. */
  predicate StubsPay(content: seq<Block>, seen: set<string>, fp: Fingerprinter) {
    forall i :: 0 <= i < |content| && Repeats(content, seen, fp, i) ==>
                  |content[i].data| >= |Stub(fp(content[i].data))|
  }

  /** The reduction is never more than reported, and exactly what is reported if and only if stubs pay. */
  lemma {:induction false} SavingReported(content: seq<Block>, seen: set<string>, fp: Fingerprinter)
    ensures TotalChars(content) - TotalChars(Deduped(content, seen, fp)) <= Saved(content, seen, fp)
    ensures TotalChars(content) - TotalChars(Deduped(content, seen, fp)) == Saved(content, seen, fp)
            <==> StubsPay(content, seen, fp)
  {
    if content != [] {
      var n := |content| - 1;
      SavingReported(content[..n], seen, fp);
      DedupedSnoc(content, seen, fp);
      TotalSnoc(Deduped(content[..n], seen, fp), Deduped(content, seen, fp)[n]);
      StubsPaySnoc(content, seen, fp);
    }
  }

  lemma TotalSnoc(content: seq<Block>, b: Block)
    ensures TotalChars(content + [b]) == TotalChars(content) + Chars(b)
  {
    assert (content + [b])[..|content|] == content;
  }

  lemma StubsPaySnoc(content: seq<Block>, seen: set<string>, fp: Fingerprinter)
    requires content != []
    ensures var n := |content| - 1;
            StubsPay(content, seen, fp) <==>
            && StubsPay(content[..n], seen, fp)
            && (Repeats(content, seen, fp, n) ==> |content[n].data| >= |Stub(fp(content[n].data))|)
  {
    var n := |content| - 1;
    forall i | 0 <= i < n ensures Repeats(content[..n], seen, fp, i) == Repeats(content, seen, fp, i) {
      RepeatsPrefix(content, n, seen, fp, i);
    }
  }
}
