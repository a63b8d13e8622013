/** Cache hints on the static prefix of a system prompt (src/tok/compression/_system_prompt_cache.py). */
module PromptCache {
  import opened Text

  const BREAK := "\n\n"
  const MIN_CACHEABLE_CHARS := 200

  // ---------- Paragraphs ----------

  predicate BreakAt(s: string, i: int) {
    0 <= i && i + 2 <= |s| && s[i] == '\n' && s[i + 1] == '\n'
  }

  /** Position of the first paragraph break, or -1. */
  function FindBreak(s: string): (r: int)
    ensures -1 <= r
    ensures r >= 0 ==> BreakAt(s, r)
    ensures forall i :: BreakAt(s, i) ==> 0 <= r <= i
  {
    if |s| < 2 then -1
    else if BreakAt(s, 0) then 0
    else
      var r := FindBreak(s[1..]);
      assert forall i :: BreakAt(s, i) ==> BreakAt(s[1..], i - 1);
      if r < 0 then -1 else r + 1
  }

  /** `text.split("\n\n")`: breaks are taken from the left and do not overlap. */
  function Split(text: string): (r: seq<string>)
    ensures r != []
  {
    var i := FindBreak(text);
    if i < 0 then [text] else [text[..i]] + Split(text[i + 2..])
  }

  function DropBlank(ps: seq<string>): seq<string> {
    if ps == [] then []
    else (if Blank(ps[0]) then [] else [ps[0]]) + DropBlank(ps[1..])
  }

  /** `[p for p in text.split("\n\n") if p.strip()]` */
  function Paragraphs(text: string): seq<string> {
    DropBlank(Split(text))
  }

  // ---------- Joining paragraphs and splitting again ----------

  /** Pieces a split can produce: no break inside, and only the last may end in a newline. */
  predicate Pieces(ps: seq<string>) {
    forall i :: 0 <= i < |ps| ==>
      FindBreak(ps[i]) < 0 && (i < |ps| - 1 && ps[i] != [] ==> ps[i][|ps[i]| - 1] != '\n')
  }

  lemma BreakAfter(p: string, rest: string)
    requires FindBreak(p) < 0 && (p != [] ==> p[|p| - 1] != '\n')
    ensures FindBreak(p + BREAK + rest) == |p|
  {
    var s := p + BREAK + rest;
    assert BreakAt(s, |p|);
    var r := FindBreak(s);
    assert r < |p| - 1 ==> BreakAt(p, r);
  }

  lemma SplitAfter(p: string, rest: string)
    requires FindBreak(p) < 0 && (p != [] ==> p[|p| - 1] != '\n')
    ensures Split(p + BREAK + rest) == [p] + Split(rest)
  {
    BreakAfter(p, rest);
    var s := p + BREAK + rest;
    assert s[..|p|] == p && s[|p| + 2..] == rest;
  }

  lemma {:induction false} SplitJoin(ps: seq<string>)
    requires Pieces(ps) && ps != []
    ensures Split(Join(ps, BREAK)) == ps
    decreases |ps|
  {
    if |ps| > 1 {
      assert ps == [ps[0]] + ps[1..];
      SplitJoin(ps[1..]);
      SplitAfter(ps[0], Join(ps[1..], BREAK));
    }
  }

  lemma {:induction false} SplitGivesPieces(text: string)
    ensures Pieces(Split(text))
    decreases |text|
  {
    var i := FindBreak(text);
    if i >= 0 {
      var p := text[..i];
      SplitGivesPieces(text[i + 2..]);
      assert forall k :: BreakAt(p, k) ==> BreakAt(text, k);
      assert i > 0 && p[i - 1] == '\n' ==> BreakAt(text, i - 1);
    }
  }

  lemma {:induction false} DropBlankKeepsPieces(ps: seq<string>)
    requires Pieces(ps)
    ensures Pieces(DropBlank(ps))
  {
    if ps != [] {
      DropBlankKeepsPieces(ps[1..]);
      if |ps| == 1 {
        assert DropBlank(ps[1..]) == [];
      }
    }
  }

  lemma {:induction false} DropBlankShortens(ps: seq<string>)
    ensures |DropBlank(ps)| <= |ps|
    ensures (forall i :: 0 <= i < |ps| ==> !Blank(ps[i])) <==> |DropBlank(ps)| == |ps|
    ensures |DropBlank(ps)| == |ps| ==> DropBlank(ps) == ps
  {
    if ps != [] {
      DropBlankShortens(ps[1..]);
      assert (forall i :: 0 <= i < |ps| ==> !Blank(ps[i])) <==>
             !Blank(ps[0]) && forall i :: 0 <= i < |ps[1..]| ==> !Blank(ps[1..][i]);
    }
  }

  lemma {:induction false} NoneBlankLeft(ps: seq<string>)
    ensures forall i :: 0 <= i < |DropBlank(ps)| ==> !Blank(DropBlank(ps)[i])
  {
    if ps != [] {
      NoneBlankLeft(ps[1..]);
    }
  }

  lemma DropBlankTwice(ps: seq<string>)
    ensures DropBlank(DropBlank(ps)) == DropBlank(ps)
  {
    NoneBlankLeft(ps);
    DropBlankShortens(DropBlank(ps));
  }

  /** Joining the paragraphs of a text and splitting again gives the same paragraphs. */
  lemma ParagraphsRoundTrip(text: string)
    ensures Paragraphs(text) != [] ==> Split(Join(Paragraphs(text), BREAK)) == Paragraphs(text)
    ensures Paragraphs(Join(Paragraphs(text), BREAK)) == Paragraphs(text)
  {
    SplitGivesPieces(text);
    DropBlankKeepsPieces(Split(text));
    DropBlankTwice(Split(text));
    if Paragraphs(text) != [] {
      SplitJoin(Paragraphs(text));
    } else {
      assert Split("") == [""] && [""][1..] == [] && Blank("");
    }
  }

  // ---------- What joining the paragraphs loses ----------

  lemma {:induction false} JoinSplit(text: string)
    ensures Join(Split(text), BREAK) == text
    decreases |text|
  {
    var i := FindBreak(text);
    if i >= 0 {
      JoinSplit(text[i + 2..]);
      assert text == text[..i] + BREAK + text[i + 2..];
    }
  }

  /** The paragraphs alone spell the text exactly when no paragraph of it is blank. */
  lemma LosslessIff(text: string)
    requires Paragraphs(text) != []
    ensures Join(Paragraphs(text), BREAK) == text <==> forall p <- Split(text) :: !Blank(p)
  {
    var ps := Split(text);
    JoinSplit(text);
    ParagraphsRoundTrip(text);
    DropBlankShortens(ps);
    assert (forall p <- ps :: !Blank(p)) <==> forall i :: 0 <= i < |ps| ==> !Blank(ps[i]);
  }

  // ---------- Fingerprints ----------

  type Fingerprinter = string -> string

  function Fingerprints(text: string, fp: Fingerprinter): seq<string> {
    var ps := Paragraphs(text);
    seq(|ps|, i requires 0 <= i < |ps| => fp(Trim(ps[i])))
  }

  /** Length of the longest common prefix. */
  predicate CommonPrefix(a: seq<string>, b: seq<string>, n: nat) {
    && n <= |a| && n <= |b| && (forall i :: 0 <= i < n ==> a[i] == b[i])
    && (n < |a| && n < |b| ==> a[n] != b[n])
  }

  function PrefixLength(a: seq<string>, b: seq<string>): (n: nat)
    ensures CommonPrefix(a, b, n)
    ensures forall m :: CommonPrefix(a, b, m) ==> m == n
  {
    if a != [] && b != [] && a[0] == b[0] then 1 + PrefixLength(a[1..], b[1..]) else 0
  }

  method FindStaticPrefixLength(current: seq<string>, prior: seq<string>) returns (count: nat)
    ensures CommonPrefix(current, prior, count) && count == PrefixLength(current, prior)
  {
    count := 0;
    while count < |current| && count < |prior|
      invariant count <= |current| && count <= |prior|
      invariant forall i :: 0 <= i < count ==> current[i] == prior[i]
    {
      if current[count] != prior[count] {
        break;
      }
      count := count + 1;
    }
  }

  // ---------- Applying the hint ----------

  /** A content block; `other` stands for its remaining fields, Opaque for an item that is no dict. */
  datatype Block =
    | Block(kind: Option<string>, text: Option<string>, hinted: bool, other: string)
    | Opaque(item: string)

  datatype System = Plain(text: string) | Blocks(blocks: seq<Block>)

  datatype Applied = Applied(system: System, fingerprints: seq<string>, staticChars: nat)

  /** `block.get("text", "")`, nothing for an item that is no dict. */
  function TextOf(b: Block): seq<string> {
    match b
    case Block(_, text, _, _) => [if text.Some? then text.value else ""]
    case Opaque(_) => []
  }

  function Texts(blocks: seq<Block>): seq<string> {
    if blocks == [] then [] else TextOf(blocks[0]) + Texts(blocks[1..])
  }

  function FullText(system: System): string {
    match system
    case Plain(text) => text
    case Blocks(blocks) => Join(Texts(blocks), BREAK)
  }

  function TextBlock(text: string, hinted: bool): Block {
    Block(Some("text"), Some(text), hinted, "")
  }

  /** The first n paragraphs and the rest, each joined again. */
  function SplitAt(text: string, n: nat): (string, string) {
    var ps := Paragraphs(text);
    var k := if n < |ps| then n else |ps|;
    (Join(ps[..k], BREAK), Join(ps[k..], BREAK))
  }

  function HintText(text: string, n: nat, fps: seq<string>): Applied {
    var (fixed, varying) := SplitAt(text, n);
    if |fixed| < MIN_CACHEABLE_CHARS then Applied(Plain(text), fps, 0)
    else
      Applied(Blocks([TextBlock(fixed, true)] + if varying != "" then [TextBlock(varying, false)] else []),
              fps, |fixed|)
  }

  function HintBlocks(blocks: seq<Block>, fps: seq<string>): Applied {
    if blocks == [] then Applied(Blocks(blocks), fps, 0)
    else
      var first := blocks[0];
      if first.Opaque? || first.kind != Some("text") then Applied(Blocks(blocks), fps, 0)
      else
        var text := if first.text.Some? then first.text.value else "";
        if |text| < MIN_CACHEABLE_CHARS then Applied(Blocks(blocks), fps, 0)
        else if first.hinted then Applied(Blocks(blocks), fps, |text|)
        else Applied(Blocks([first.(hinted := true)] + blocks[1..]), fps, |text|)
  }

  function ApplyHint(system: System, prior: Option<seq<string>>, fp: Fingerprinter): Applied {
    var fps := Fingerprints(FullText(system), fp);
    if prior.None? || PrefixLength(fps, prior.value) == 0 then Applied(system, fps, 0)
    else
      match system
      case Plain(text) => HintText(text, PrefixLength(fps, prior.value), fps)
      case Blocks(blocks) => HintBlocks(blocks, fps)
  }

  // ---------- Which paragraphs are hinted ----------

  lemma {:induction false} NoneDropped(ps: seq<string>)
    requires forall i :: 0 <= i < |ps| ==> !Blank(ps[i])
    ensures DropBlank(ps) == ps
  {
    if ps != [] {
      NoneDropped(ps[1..]);
    }
  }

  /** The first paragraphs of a text, joined, have just these paragraphs. */
  lemma FirstParagraphs(text: string, n: nat)
    requires 0 < n <= |Paragraphs(text)|
    ensures Paragraphs(Join(Paragraphs(text)[..n], BREAK)) == Paragraphs(text)[..n]
  {
    var ps := Paragraphs(text);
    SplitGivesPieces(text);
    DropBlankKeepsPieces(Split(text));
    NoneBlankLeft(Split(text));
    SplitJoin(ps[..n]);
    NoneDropped(ps[..n]);
  }

  lemma FirstFingerprints(text: string, n: nat, fp: Fingerprinter)
    requires 0 < n <= |Paragraphs(text)|
    ensures Fingerprints(Join(Paragraphs(text)[..n], BREAK), fp) == Fingerprints(text, fp)[..n]
  {
    FirstParagraphs(text, n);
  }

  /** Only the first block is hinted. */
  predicate FirstAloneHinted(blocks: seq<Block>) {
    forall i :: 0 <= i < |blocks| ==> blocks[i].Block? && blocks[i].text.Some? && (blocks[i].hinted <==> i == 0)
  }

  /** The hinted block of a string prompt holds the paragraphs whose fingerprints are as before, no more
      and no less; there is one exactly if they have 200 characters. */
  lemma HintedIsCommonPrefix(text: string, prior: seq<string>, fp: Fingerprinter, n: nat)
    requires CommonPrefix(Fingerprints(text, fp), prior, n)
    ensures var r, common := ApplyHint(Plain(text), Some(prior), fp), Join(Paragraphs(text)[..n], BREAK);
            && (r.system.Blocks? <==> |common| >= 200)
            && (r.system.Plain? ==> r.system == Plain(text) && r.staticChars == 0)
            && (r.system.Blocks? ==>
                  && r.system.blocks != [] && FirstAloneHinted(r.system.blocks)
                  && r.system.blocks[0].text.value == common && r.staticChars == |common|
                  && Fingerprints(common, fp) == Fingerprints(text, fp)[..n])
  {
    assert n == PrefixLength(Fingerprints(text, fp), prior);
    if n > 0 {
      FirstFingerprints(text, n, fp);
    } else {
      assert Paragraphs(text)[..0] == [];
    }
  }

  /** A list of blocks is hinted, in its first block only, exactly if that is a text of 200 characters
      and the prompt starts with a paragraph it started with before. */
  lemma HintedListIff(blocks: seq<Block>, prior: seq<string>, fp: Fingerprinter)
    ensures var r, fps := ApplyHint(Blocks(blocks), Some(prior), fp), Fingerprints(FullText(Blocks(blocks)), fp);
            && (r.staticChars > 0 <==>
                  && fps != [] && prior != [] && fps[0] == prior[0]
                  && blocks != [] && blocks[0].Block? && blocks[0].kind == Some("text")
                  && blocks[0].text.Some? && |blocks[0].text.value| >= 200)
            && (r.staticChars > 0 ==>
                  r.staticChars == |blocks[0].text.value| && r.system == Blocks(blocks[0 := blocks[0].(hinted := true)]))
            && (r.staticChars == 0 ==> r.system == Blocks(blocks))
  {
    if blocks != [] && blocks[0].Block? {
      var first := blocks[0].(hinted := true);
      assert [first] + blocks[1..] == blocks[0 := first];
      if blocks[0].hinted {
        assert first == blocks[0] && blocks[0 := first] == blocks;
      }
    }
  }

  /** On the first turn a prompt stays as it is. */
  lemma FirstTurnUnhinted(system: System, fp: Fingerprinter)
    ensures ApplyHint(system, None, fp) == Applied(system, Fingerprints(FullText(system), fp), 0)
  {
  }

  /** White space around a paragraph does not count: with a fingerprinter that does not collide on two
      paragraphs, they have one fingerprint exactly if they agree once stripped. */
  lemma FingerprintsCompare(text: string, other: string, fp: Fingerprinter, i: nat, j: nat)
    requires i < |Paragraphs(text)| && j < |Paragraphs(other)|
    requires var p, q := Trim(Paragraphs(text)[i]), Trim(Paragraphs(other)[j]); fp(p) == fp(q) ==> p == q
    ensures |Fingerprints(text, fp)| == |Paragraphs(text)| && |Fingerprints(other, fp)| == |Paragraphs(other)|
    ensures Fingerprints(text, fp)[i] == Fingerprints(other, fp)[j] <==>
            Trim(Paragraphs(text)[i]) == Trim(Paragraphs(other)[j])
  {
  }

  // ---------- Re-entry ----------

  lemma SplitAtJoins(text: string, n: nat)
    requires 0 < n && Paragraphs(text) != []
    ensures var (fixed, varying) := SplitAt(text, n);
            Join(Paragraphs(text), BREAK) == if varying == "" then fixed else fixed + BREAK + varying
  {
    var ps := Paragraphs(text);
    var k := if n < |ps| then n else |ps|;
    assert ps == ps[..k] + ps[k..];
    if k < |ps| {
      JoinAppend(ps[..k], ps[k..], BREAK);
      NoneBlankLeft(Split(text));
      assert !Blank(ps[k]) && ps[k..][0] == ps[k];
      assert Join(ps[k..], BREAK) != "";
    } else {
      assert ps[..k] == ps && ps[k..] == [];
    }
  }

  lemma TwoTexts(a: Block, b: Block)
    requires a.Block? && b.Block? && a.text.Some? && b.text.Some?
    ensures Texts([a]) == [a.text.value] && Texts([a, b]) == [a.text.value, b.text.value]
  {
    assert [a][1..] == [] && [a, b][1..] == [b] && [b][1..] == [];
  }

  /** The blocks made from a string prompt spell its paragraphs, joined. */
  lemma HintedText(text: string, prior: seq<string>, fp: Fingerprinter)
    ensures var r := ApplyHint(Plain(text), Some(prior), fp).system;
            r.Blocks? ==> FullText(r) == Join(Paragraphs(text), BREAK) && Paragraphs(text) != []
  {
    var fps := Fingerprints(text, fp);
    var n := PrefixLength(fps, prior);
    if ApplyHint(Plain(text), Some(prior), fp).system.Blocks? {
      var (fixed, varying) := SplitAt(text, n);
      SplitAtJoins(text, n);
      TwoTexts(TextBlock(fixed, true), TextBlock(varying, false));
      assert Join([fixed, varying], BREAK) == fixed + BREAK + Join([varying], BREAK);
    }
  }

  /** Hinting a string prompt loses and reorders no paragraph, keeps every fingerprint, and hinting
      the blocks again, with any prior fingerprints, changes nothing. */
  lemma ReentryIsFixedPoint(text: string, prior: Option<seq<string>>, again: Option<seq<string>>, fp: Fingerprinter)
    ensures var r := ApplyHint(Plain(text), prior, fp);
            && Paragraphs(FullText(r.system)) == Paragraphs(text)
            && Fingerprints(FullText(r.system), fp) == r.fingerprints == Fingerprints(text, fp)
            && (r.system.Blocks? ==> ApplyHint(r.system, again, fp).system == r.system)
            && (r.system.Blocks? ==>
                  ApplyHint(r.system, Some(r.fingerprints), fp) == r && r.staticChars >= MIN_CACHEABLE_CHARS)
  {
    var r := ApplyHint(Plain(text), prior, fp);
    if r.system.Blocks? {
      HintedText(text, prior.value, fp);
      ParagraphsRoundTrip(text);
      assert CommonPrefix(r.fingerprints, r.fingerprints, |r.fingerprints|);
      assert |r.fingerprints| == |Paragraphs(text)|;
    }
  }

  lemma {:induction false} TextsConcat(left: seq<Block>, right: seq<Block>)
    ensures Texts(left + right) == Texts(left) + Texts(right)
    decreases |left|
  {
    if left == [] {
      assert left + right == right;
    } else {
      assert (left + right)[1..] == left[1..] + right;
      TextsConcat(left[1..], right);
      ConcatAssociative(TextOf(left[0]), Texts(left[1..]), Texts(right));
    }
  }

  /** Hinting a list of blocks changes no text, and doing it twice is doing it once. */
  lemma BlocksKeepText(blocks: seq<Block>, prior: Option<seq<string>>, fp: Fingerprinter)
    ensures var r := ApplyHint(Blocks(blocks), prior, fp);
            && r.system.Blocks? && |r.system.blocks| == |blocks|
            && FullText(r.system) == FullText(Blocks(blocks))
            && ApplyHint(r.system, prior, fp) == r
  {
    var r := ApplyHint(Blocks(blocks), prior, fp);
    if r.system.blocks != blocks {
      assert blocks == [blocks[0]] + blocks[1..];
      TextsConcat([blocks[0]], blocks[1..]);
      TextsConcat([r.system.blocks[0]], blocks[1..]);
      assert [blocks[0]][1..] == [] && [r.system.blocks[0]][1..] == [];
      assert r.system.blocks[1..] == blocks[1..];
    }
  }

  /** The text of a hinted string prompt is the prompt itself exactly when it has no blank paragraph. */
  lemma HintKeepsTextIff(text: string, prior: seq<string>, fp: Fingerprinter)
    requires ApplyHint(Plain(text), Some(prior), fp).system.Blocks?
    ensures FullText(ApplyHint(Plain(text), Some(prior), fp).system) == text <==> forall p <- Split(text) :: !Blank(p)
  {
    HintedText(text, prior, fp);
    LosslessIff(text);
  }

  /** A prompt with a blank paragraph that hinting does not give back. */
  lemma BlankParagraphLost(fp: Fingerprinter) returns (text: string, prior: seq<string>)
    ensures var r := ApplyHint(Plain(text), Some(prior), fp);
            r.system.Blocks? && FullText(r.system) != text
  {
    var line := seq(MIN_CACHEABLE_CHARS, _ => 'A');
    text := line + BREAK + " ";
    prior := Fingerprints(text, fp);
    assert !IsSpace('A') && !Blank(line) by { assert line[0] == 'A'; }
    assert FindBreak(line) < 0;
    SplitAfter(line, " ");
    assert Split(text) == [line, " "];
    assert Blank(" ") && [line, " "][1..] == [" "];
    assert DropBlank([" "][1..]) == [] && DropBlank([" "]) == [];
    assert Paragraphs(text) == [line];
    assert CommonPrefix(prior, prior, |prior|);
    HintKeepsTextIff(text, prior, fp);
  }
}
