/** String operations of the source language that several modules share. */
module Text {

  datatype Option<+T> = None | Some(value: T)

  predicate StartsWith(s: string, prefix: string) {
    prefix <= s
  }

  /** `needle in s` for strings. */
  predicate Contains(s: string, needle: string) {
    needle <= s || (s != [] && Contains(s[1..], needle))
  }

  lemma {:induction false} ContainsAnywhere(left: string, needle: string, right: string)
    ensures Contains(left + needle + right, needle)
  {
    if left == [] {
      assert left + needle + right == needle + right;
    } else {
      ContainsAnywhere(left[1..], needle, right);
      assert (left + needle + right)[1..] == left[1..] + needle + right;
    }
  }

  lemma {:induction false} ContainsSomewhere(s: string, needle: string) returns (left: string, right: string)
    requires Contains(s, needle)
    ensures s == left + needle + right
  {
    if needle <= s {
      left, right := "", s[|needle|..];
    } else {
      left, right := ContainsSomewhere(s[1..], needle);
      left := [s[0]] + left;
    }
  }

  predicate IsSuffix<T(==)>(r: seq<T>, s: seq<T>) {
    |r| <= |s| && r == s[|s| - |r|..]
  }

  lemma TakeNext<T>(s: seq<T>, n: nat)
    requires n < |s|
    ensures s[..n + 1] == s[..n] + [s[n]]
  {
  }

  lemma TakeTake<T>(s: seq<T>, n: nat, i: nat)
    requires i <= n <= |s|
    ensures s[..n][..i] == s[..i]
  {
  }

  lemma TakeAll<T>(s: seq<T>)
    ensures s[..|s|] == s
  {
  }

  lemma ConcatAssociative<T>(a: seq<T>, b: seq<T>, c: seq<T>)
    ensures a + b + c == a + (b + c)
  {
  }

  lemma JoinedAt(a: string, x: string, sep: char)
    ensures var s := a + [sep] + x; s[..|a|] == a && s[|a|] == sep && s[|a| + 1..] == x
  {
  }

  /** A separator that is in neither front tells fronts and backs apart. */
  lemma JoinedTells(a: string, x: string, b: string, y: string, sep: char)
    requires sep !in a && sep !in b
    ensures a + [sep] + x == b + [sep] + y <==> a == b && x == y
  {
    JoinedAt(a, x, sep);
    JoinedAt(b, y, sep);
    if a + [sep] + x == b + [sep] + y {
      if |a| < |b| {
        SeparatorInside(a, x, b, y, sep);
      } else if |b| < |a| {
        SeparatorInside(b, y, a, x, sep);
      }
    }
  }

  lemma SeparatorInside(a: string, x: string, b: string, y: string, sep: char)
    requires a + [sep] + x == b + [sep] + y && |a| < |b|
    ensures sep in b
  {
    JoinedAt(a, x, sep);
    JoinedAt(b, y, sep);
    assert b[|a|] == sep;
  }

  /** `sep.join(parts)`. */
  function Join(parts: seq<string>, sep: string): string {
    if parts == [] then ""
    else if |parts| == 1 then parts[0]
    else parts[0] + sep + Join(parts[1..], sep)
  }

  lemma {:induction false} JoinAppend(left: seq<string>, right: seq<string>, sep: string)
    requires left != [] && right != []
    ensures Join(left + right, sep) == Join(left, sep) + sep + Join(right, sep)
  {
    assert (left + right)[1..] == left[1..] + right;
    if |left| == 1 {
      assert left[1..] + right == right;
    } else {
      JoinAppend(left[1..], right, sep);
      calc {
        Join(left + right, sep);
        left[0] + sep + (Join(left[1..], sep) + sep + Join(right, sep));
        (left[0] + sep + Join(left[1..], sep)) + sep + Join(right, sep);
      }
    }
  }

  /** `str.isspace` for one character. */
  predicate IsSpace(c: char) {
    var n := c as int;
    9 <= n <= 13 || 28 <= n <= 32 || n == 0x85 || n == 0xA0 || n == 0x1680 || 0x2000 <= n <= 0x200A
    || n == 0x2028 || n == 0x2029 || n == 0x202F || n == 0x205F || n == 0x3000
  }

  /** `not s.strip()` */
  predicate Blank(s: string) {
    forall i :: 0 <= i < |s| ==> IsSpace(s[i])
  }

  /** `s.strip()` */
  function Trim(s: string): string {
    TrimEnd(TrimStart(s))
  }

  function TrimStart(s: string): (r: string)
    ensures r == "" <==> Blank(s)
    ensures r != "" ==> !IsSpace(r[0])
  {
    if s != [] && IsSpace(s[0]) then TrimStart(s[1..]) else s
  }

  function TrimEnd(s: string): (r: string)
    ensures r == "" <==> Blank(s)
  {
    if s != [] && IsSpace(s[|s| - 1]) then TrimEnd(s[..|s| - 1]) else s
  }

  lemma TrimIsEmptyIff(s: string)
    ensures Trim(s) == "" <==> Blank(s)
  {
    var r := TrimStart(s);
    assert r != "" ==> !IsSpace(r[0]);
  }

  lemma {:induction false} TrimStartCuts(s: string) returns (front: string)
    ensures Blank(front) && s == front + TrimStart(s)
  {
    front := "";
    if s != "" && IsSpace(s[0]) {
      front := TrimStartCuts(s[1..]);
      front := [s[0]] + front;
    }
  }

  lemma {:induction false} TrimEndCuts(s: string) returns (back: string)
    ensures Blank(back) && s == TrimEnd(s) + back
    ensures TrimEnd(s) != "" ==> !IsSpace(TrimEnd(s)[|TrimEnd(s)| - 1]) && TrimEnd(s)[0] == s[0]
  {
    back := "";
    if s != "" && IsSpace(s[|s| - 1]) {
      back := TrimEndCuts(s[..|s| - 1]);
      back := back + [s[|s| - 1]];
    }
  }

  /** Stripping takes white space off both ends, all of it and nothing else. */
  lemma TrimMeans(s: string) returns (front: string, back: string)
    ensures s == front + Trim(s) + back && Blank(front) && Blank(back)
    ensures Trim(s) != "" ==> !IsSpace(Trim(s)[0]) && !IsSpace(Trim(s)[|Trim(s)| - 1])
  {
    front := TrimStartCuts(s);
    back := TrimEndCuts(TrimStart(s));
    ConcatAssociative(front, Trim(s), back);
  }

  /** Lower-casing of the ASCII letters. */
  function LowerChar(c: char): char {
    if 'A' <= c <= 'Z' then c - 'A' + 'a' else c
  }

  function Lower(s: string): (r: string)
    ensures |r| == |s| && forall i :: 0 <= i < |s| ==> r[i] == LowerChar(s[i])
  {
    seq(|s|, i requires 0 <= i < |s| => LowerChar(s[i]))
  }

  /** `os.path.basename` */
  function Basename(path: string): string {
    if '/' !in path then path
    else if path[|path| - 1] == '/' then ""
    else Basename(path[..|path| - 1]) + [path[|path| - 1]]
  }

  /** The part behind the last slash. */
  lemma {:induction false} BasenameMeans(path: string) returns (front: string)
    ensures path == front + Basename(path) && '/' !in Basename(path)
    ensures front == "" || front[|front| - 1] == '/'
  {
    front := "";
    if '/' in path {
      var n := |path| - 1;
      if path[n] == '/' {
        front := path;
      } else {
        front := BasenameMeans(path[..n]);
        assert path == path[..n] + [path[n]] == front + (Basename(path[..n]) + [path[n]]);
      }
    }
  }

  predicate IsDigit(c: char) {
    '0' <= c <= '9'
  }

  /** Decimal rendering of a natural number. */
  function Decimal(n: nat): (r: string)
    ensures r != []
    ensures forall i :: 0 <= i < |r| ==> IsDigit(r[i])
  {
    (if n < 10 then [] else Decimal(n / 10)) + [(n % 10) as char + '0']
  }

  function DigitValue(c: char): nat
    requires IsDigit(c)
  {
    c as int - '0' as int
  }

  /** `int(digits)`. */
  function DecimalValue(digits: string): nat
    requires forall i :: 0 <= i < |digits| ==> IsDigit(digits[i])
  {
    if digits == [] then 0
    else 10 * DecimalValue(digits[..|digits| - 1]) + DigitValue(digits[|digits| - 1])
  }

  lemma {:induction false} DecimalRoundTrip(n: nat)
    ensures DecimalValue(Decimal(n)) == n
  {
    var r := Decimal(n);
    assert r[..|r| - 1] == if n < 10 then [] else Decimal(n / 10);
    if n >= 10 {
      DecimalRoundTrip(n / 10);
    }
  }

  // ---------- Lines ----------

  /** The characters that end a line. */
  predicate IsLineBreak(c: char) {
    var n := c as int;
    10 <= n <= 13 || 28 <= n <= 30 || n == 0x85 || n == 0x2028 || n == 0x2029
  }

  /** Length of the first line, its end included; a return and a newline are one end. */
  function LineLength(s: string): (n: nat)
    requires s != ""
    ensures 1 <= n <= |s|
  {
    if s[0] == '\r' && |s| > 1 && s[1] == '\n' then 2
    else if IsLineBreak(s[0]) || |s| == 1 then 1
    else 1 + LineLength(s[1..])
  }

  /** `s.splitlines(keepends=True)` */
  function SplitLines(s: string): seq<string>
    decreases |s|
  {
    if s == "" then [] else [s[..LineLength(s)]] + SplitLines(s[LineLength(s)..])
  }

  lemma JoinFirst(first: string, rest: seq<string>)
    ensures Join([first] + rest, "") == first + Join(rest, "")
  {
    assert ([first] + rest)[1..] == rest;
    if rest == [] {
      assert first + "" == first;
    } else {
      assert first + "" + Join(rest, "") == first + Join(rest, "");
    }
  }

  /** The lines of a text, put together, are the text. */
  lemma {:induction false} JoinLines(s: string)
    ensures Join(SplitLines(s), "") == s
    decreases |s|
  {
    if s != "" {
      var n := LineLength(s);
      JoinLines(s[n..]);
      JoinFirst(s[..n], SplitLines(s[n..]));
      assert s[..n] + s[n..] == s;
    }
  }

  predicate EndsInBreak(line: string) {
    line != "" && IsLineBreak(line[|line| - 1])
  }

  /** Nothing but its end breaks the line; a return and a newline are one end. */
  predicate OneLine(line: string) {
    line != "" && forall i :: 0 <= i < |line| - 1 && IsLineBreak(line[i]) ==>
      i == |line| - 2 && line[i] == '\r' && line[i + 1] == '\n'
  }

  /** A return at the end of a line is not torn from its newline. */
  predicate Torn(line: string, next: string) {
    line != "" && next != "" && line[|line| - 1] == '\r' && next[0] == '\n'
  }

  lemma LongerLine(c: char, line: string, longer: string, next: string)
    requires OneLine(line) && !IsLineBreak(c) && longer == [c] + line
    ensures OneLine(longer) && (EndsInBreak(line) ==> EndsInBreak(longer)) && (Torn(longer, next) ==> Torn(line, next))
  {
    forall i | 0 <= i < |longer| - 1 && IsLineBreak(longer[i])
      ensures i == |longer| - 2 && longer[i] == '\r' && longer[i + 1] == '\n'
    {
      assert i > 0 && longer[i] == line[i - 1] && longer[i + 1] == line[i];
    }
    assert longer[|longer| - 1] == line[|line| - 1];
  }

  lemma {:induction false} FirstLine(s: string)
    requires s != ""
    ensures var n := LineLength(s);
            OneLine(s[..n]) && (n < |s| ==> EndsInBreak(s[..n])) && !Torn(s[..n], s[n..])
  {
    if !(s[0] == '\r' && |s| > 1 && s[1] == '\n') && !IsLineBreak(s[0]) && |s| > 1 {
      var n, rest := LineLength(s[1..]), s[1..];
      FirstLine(rest);
      assert s[..n + 1] == [s[0]] + rest[..n] && s[n + 1..] == rest[n..];
      LongerLine(s[0], rest[..n], s[..n + 1], rest[n..]);
    }
  }

  /** Each is one line, and all but the last have their end. */
  predicate AreLines(lines: seq<string>) {
    && (forall i :: 0 <= i < |lines| ==> OneLine(lines[i]))
    && (forall i :: 0 <= i < |lines| - 1 ==> EndsInBreak(lines[i]) && !Torn(lines[i], lines[i + 1]))
  }

  lemma LinesBehind(first: string, lines: seq<string>, all: seq<string>)
    requires OneLine(first) && AreLines(lines) && all == [first] + lines
    requires lines != [] ==> EndsInBreak(first) && !Torn(first, lines[0])
    ensures AreLines(all)
  {
    forall i | 0 <= i < |all| ensures OneLine(all[i]) {
      assert i > 0 ==> all[i] == lines[i - 1];
    }
    forall i | 0 <= i < |all| - 1 ensures EndsInBreak(all[i]) && !Torn(all[i], all[i + 1]) {
      assert all[i + 1] == lines[i] && (i > 0 ==> all[i] == lines[i - 1]);
    }
  }

  lemma {:induction false} LinesAreLines(s: string)
    ensures AreLines(SplitLines(s))
    decreases |s|
  {
    if s != "" {
      var n := LineLength(s);
      var lines := SplitLines(s[n..]);
      LinesAreLines(s[n..]);
      FirstLine(s);
      if lines != [] {
        assert lines[0][0] == s[n..][0];
      }
      LinesBehind(s[..n], lines, SplitLines(s));
    }
  }
}
