/** The line counts that hunk headers announce: POSIX.1 (IEEE Std 1003.1), utility diff,
    section "Diff -u or -U Output Format". Replay skips them; other patch tools rely on them. */
module DiffCounts {
  import opened Text
  import opened UnifiedDiff

  // ---------- Reading a header with its counts ----------

  datatype Range = Range(start: nat, count: nat)

  /** A range and what follows it; an absent count is one. */
  function ReadRange(s: string): Option<(Range, string)> {
    var n := DigitPrefix(s);
    if n == 0 then None
    else
      var rest := s[n..];
      if rest == "" || rest[0] != ',' then Some((Range(DecimalValue(s[..n]), 1), rest))
      else
        var m := DigitPrefix(rest[1..]);
        if m == 0 then None else Some((Range(DecimalValue(s[..n]), DecimalValue(rest[1..][..m])), rest[1..][m..]))
  }

  /** The old and the new range of a header. */
  function ReadHeader(line: string): Option<(Range, Range)> {
    if !StartsWith(line, "@@ -") then None
    else
      match ReadRange(line[4..])
      case None => None
      case Some((old_, rest)) =>
        if !StartsWith(rest, " +") then None
        else
          match ReadRange(rest[2..])
          case None => None
          case Some((new_, end)) => if StartsWith(end, " @@") then Some((old_, new_)) else None
  }

  // ---------- The two readers agree ----------

  /** Replay's pattern for a range, as far as it matters: the start, and what follows the range. */
  function StartOf(s: string): Option<(nat, string)> {
    match ReadRange(s)
    case None => None
    case Some((range, rest)) => Some((range.start, rest))
  }

  lemma MatchCount(s: string, p: Pattern)
    requires s == "" || !IsDigit(s[0])
    ensures s == "" || s[0] != ',' ==> Match(s, Count(p)) == Match(s, p)
    ensures s != "" && s[0] == ',' && DigitPrefix(s[1..]) == 0 ==> Match(s, Count(p)) == Match(s, p)
    ensures s != "" && s[0] == ',' && DigitPrefix(s[1..]) > 0 ==>
              Match(s, Count(p)) == Match(s[1..][DigitPrefix(s[1..])..], p)
  {
  }

  /** Behind a range comes a blank. */
  lemma MatchRange(s: string, text: string, p: Pattern)
    requires text != "" && text[0] == ' '
    ensures Match(s, Number(Count(Pattern.Text(text, p))))
            == match StartOf(s)
               case None => None
               case Some((start, rest)) =>
                 match Match(rest, Pattern.Text(text, p))
                 case None => None
                 case Some(numbers) => Some([start] + numbers)
  {
    var n := DigitPrefix(s);
    if n > 0 {
      MatchCount(s[n..], Pattern.Text(text, p));
    }
  }

  /** The header replay sees is the header with its counts left out, and it sees one in the same lines. */
  lemma ReadersAgree(line: string)
    ensures ParseHeader(line) == match ReadHeader(line)
                                 case None => None
                                 case Some((old_, new_)) => Some(Header(old_.start, new_.start))
  {
    if StartsWith(line, "@@ -") {
      MatchRange(line[4..], " +", Number(Count(Pattern.Text(" @@", End))));
      if ReadRange(line[4..]).Some? {
        var rest := ReadRange(line[4..]).value.1;
        if StartsWith(rest, " +") {
          MatchRange(rest[2..], " @@", End);
        }
      }
    }
  }

  // ---------- What a header announces ----------

  predicate IsHeader(line: string) {
    StartsWith(line, "@@ ")
  }

  predicate Marked(line: string, sign: char) {
    line != "" && (line[0] == ' ' || line[0] == sign)
  }

  /** Lines with a blank or the sign in front, up to the next header. */
  function LinesAhead(lines: seq<string>, sign: char): nat {
    if lines == [] || IsHeader(lines[0]) then 0
    else (if Marked(lines[0], sign) then 1 else 0) + LinesAhead(lines[1..], sign)
  }

  /** Each header announces exactly the old and new lines that follow it. */
  predicate Announced(lines: seq<string>) {
    forall k :: 0 <= k < |lines| && IsHeader(lines[k]) ==> AnnouncedAt(lines[k], lines[k + 1..])
  }

  predicate AnnouncedAt(header: string, behind: seq<string>) {
    && ReadHeader(header).Some?
    && ReadHeader(header).value.0.count == LinesAhead(behind, '-')
    && ReadHeader(header).value.1.count == LinesAhead(behind, '+')
  }

  // ---------- Putting lines together ----------

  predicate NoHeader(lines: seq<string>) {
    forall i :: 0 <= i < |lines| ==> !IsHeader(lines[i])
  }

  lemma {:induction false} AheadStops(lines: seq<string>, more: seq<string>, sign: char)
    requires more == [] || IsHeader(more[0])
    ensures LinesAhead(lines + more, sign) == LinesAhead(lines, sign)
    decreases |lines|
  {
    if lines == [] {
      assert lines + more == more;
    } else {
      assert (lines + more)[1..] == lines[1..] + more;
      AheadStops(lines[1..], more, sign);
    }
  }

  lemma {:induction false} AheadSnoc(lines: seq<string>, line: string, sign: char)
    requires NoHeader(lines) && !IsHeader(line)
    ensures LinesAhead(lines + [line], sign) == LinesAhead(lines, sign) + if Marked(line, sign) then 1 else 0
    decreases |lines|
  {
    if lines == [] {
      assert [] + [line] == [line] && [line][1..] == [];
    } else {
      assert (lines + [line])[1..] == lines[1..] + [line];
      AheadSnoc(lines[1..], line, sign);
    }
  }

  lemma BehindGrows(lines: seq<string>, more: seq<string>, k: nat)
    requires k < |lines|
    ensures (lines + more)[k + 1..] == lines[k + 1..] + more && (lines + more)[k] == lines[k]
  {
  }

  lemma LastPart(lines: seq<string>, header: string, body: seq<string>)
    ensures var all := lines + ([header] + body); all[|lines|] == header && all[|lines| + 1..] == body
  {
    var all := lines + ([header] + body);
    assert all[|lines| + 1..] == ([header] + body)[1..] == body;
  }

  lemma AnnouncedEarlier(lines: seq<string>, part: seq<string>, k: nat)
    requires Announced(lines) && k < |lines| && IsHeader(lines[k]) && part != [] && IsHeader(part[0])
    ensures AnnouncedAt((lines + part)[k], (lines + part)[k + 1..])
  {
    BehindGrows(lines, part, k);
    AheadStops(lines[k + 1..], part, '-');
    AheadStops(lines[k + 1..], part, '+');
  }

  /** One hunk more. */
  lemma AnnouncedMore(lines: seq<string>, header: string, body: seq<string>)
    requires Announced(lines) && IsHeader(header) && NoHeader(body) && AnnouncedAt(header, body)
    ensures Announced(lines + ([header] + body))
  {
    var part := [header] + body;
    var all := lines + part;
    LastPart(lines, header, body);
    forall k | |lines| < k < |all| ensures !IsHeader(all[k]) {
      assert all[k] == body[k - |lines| - 1];
    }
    forall k | 0 <= k < |all| && IsHeader(all[k]) ensures AnnouncedAt(all[k], all[k + 1..]) {
      if k < |lines| {
        AnnouncedEarlier(lines, part, k);
      }
    }
  }
}
