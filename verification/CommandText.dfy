/** The text of a shell command: what flattening its white space keeps (src/tok/compression/__init__.py,
    _normalized_cacheable_command), and the tokens Python's shlex module makes of text without quoting
    (posix, punctuation_chars and whitespace_split all true, as _split_command_parts sets them). */
module CommandText {
  import opened Text

  // ---------- Runs of characters of one kind ----------

  datatype Kind = Space | Word | Punctuation

  function RunLength(s: string, kind: char -> Kind): (n: nat)
    requires s != ""
    ensures 1 <= n <= |s| && (n < |s| ==> kind(s[n]) != kind(s[0]))
    ensures forall i :: 0 <= i < n ==> kind(s[i]) == kind(s[0])
  {
    if |s| == 1 || kind(s[1]) != kind(s[0]) then 1 else 1 + RunLength(s[1..], kind)
  }

  /** The longest runs of one kind, without white space. */
  function Chunks(s: string, kind: char -> Kind): seq<string>
    decreases |s|
  {
    if s == "" then []
    else if kind(s[0]) == Space then Chunks(s[1..], kind)
    else [s[..RunLength(s, kind)]] + Chunks(s[RunLength(s, kind)..], kind)
  }

  /** No run crosses from a into b. */
  predicate Apart(a: string, b: string, kind: char -> Kind) {
    a == "" || b == "" || kind(b[0]) == Space || kind(a[|a| - 1]) != kind(b[0])
  }

  lemma RunUnique(s: string, kind: char -> Kind, n: nat)
    requires 1 <= n <= |s| && (n < |s| ==> kind(s[n]) != kind(s[0]))
    requires forall i :: 0 <= i < n ==> kind(s[i]) == kind(s[0])
    ensures RunLength(s, kind) == n
  {
  }

  lemma RunOfBoth(a: string, b: string, kind: char -> Kind)
    requires a != "" && kind(a[0]) != Space && Apart(a, b, kind)
    ensures RunLength(a + b, kind) == RunLength(a, kind)
  {
    RunUnique(a + b, kind, RunLength(a, kind));
  }

  lemma CutBoth(a: string, b: string, n: nat)
    requires n <= |a|
    ensures (a + b)[..n] == a[..n] && (a + b)[n..] == a[n..] + b
  {
  }

  lemma ApartRest(a: string, b: string, n: nat, kind: char -> Kind)
    requires Apart(a, b, kind) && n <= |a|
    ensures Apart(a[n..], b, kind)
  {
  }

  lemma {:induction false} ChunksAppend(a: string, b: string, kind: char -> Kind)
    requires Apart(a, b, kind)
    ensures Chunks(a + b, kind) == Chunks(a, kind) + Chunks(b, kind)
    decreases |a|
  {
    if a == "" {
      assert a + b == b;
    } else {
      var n := if kind(a[0]) == Space then 1 else RunLength(a, kind);
      ApartRest(a, b, n, kind);
      ChunksAppend(a[n..], b, kind);
      CutBoth(a, b, n);
      if kind(a[0]) != Space {
        RunOfBoth(a, b, kind);
      }
    }
  }

  /** A text of one kind that is not white space. */
  predicate Uniform(t: string, kind: char -> Kind) {
    t != "" && kind(t[0]) != Space && forall i :: 0 <= i < |t| ==> kind(t[i]) == kind(t[0])
  }

  lemma ChunkOne(t: string, kind: char -> Kind)
    requires Uniform(t, kind)
    ensures Chunks(t, kind) == [t]
  {
    assert RunLength(t, kind) == |t| && t[..|t|] == t;
  }

  lemma {:induction false} ChunksUniform(s: string, kind: char -> Kind)
    ensures forall t <- Chunks(s, kind) :: Uniform(t, kind)
    decreases |s|
  {
    if s != "" {
      ChunksUniform(s[if kind(s[0]) == Space then 1 else RunLength(s, kind)..], kind);
    }
  }

  predicate Each(s: string, p: char -> bool) {
    forall i :: 0 <= i < |s| ==> p(s[i])
  }

  lemma EachCut(s: string, n: nat, p: char -> bool)
    requires n <= |s|
    ensures Each(s, p) <==> Each(s[..n], p) && Each(s[n..], p)
  {
    if Each(s[..n], p) && Each(s[n..], p) {
      forall i | 0 <= i < |s| ensures p(s[i]) {
        assert s[i] == if i < n then s[..n][i] else s[n..][i - n];
      }
    }
  }

  /** The chunks hold every character but white space. */
  lemma {:induction false} ChunksHold(s: string, kind: char -> Kind, p: char -> bool)
    requires forall c :: kind(c) == Space ==> p(c)
    ensures Each(s, p) <==> forall t <- Chunks(s, kind) :: Each(t, p)
    decreases |s|
  {
    if s != "" {
      var n := if kind(s[0]) == Space then 1 else RunLength(s, kind);
      EachCut(s, n, p);
      ChunksHold(s[n..], kind, p);
      if kind(s[0]) == Space {
        assert s[..n][0] == s[0];
      } else {
        var first, others := s[..n], Chunks(s[n..], kind);
        assert Chunks(s, kind)[0] == first;
        assert forall t <- others :: t in [first] + others;
      }
    }
  }

  // ---------- Words and flattened text ----------

  function SpaceOrWord(c: char): Kind {
    if IsSpace(c) then Space else Word
  }

  /** `s.split()` */
  function Words(s: string): seq<string> {
    Chunks(s, SpaceOrWord)
  }

  /** `" ".join(command.strip().split())` */
  function Flatten(command: string): string {
    Join(Words(Trim(command)), " ")
  }

  lemma {:induction false} BlankHasNoChunks(s: string)
    requires Blank(s)
    ensures Words(s) == [] && Tokens(s) == []
  {
    if s != "" {
      BlankHasNoChunks(s[1..]);
      assert IsSpace(s[0]) && Seen(s)[1..] == Seen(s[1..]);
    }
  }

  lemma {:induction false} TrimStartKeepsWords(s: string)
    ensures Words(TrimStart(s)) == Words(s)
  {
    if s != "" && IsSpace(s[0]) {
      TrimStartKeepsWords(s[1..]);
    }
  }

  lemma {:induction false} TrimEndKeepsWords(s: string)
    ensures Words(TrimEnd(s)) == Words(s)
  {
    if s != "" && IsSpace(s[|s| - 1]) {
      var front, last := s[..|s| - 1], s[|s| - 1..];
      TrimEndKeepsWords(front);
      ChunksAppend(front, last, SpaceOrWord);
      BlankHasNoChunks(last);
      assert front + last == s;
    }
  }

  lemma FlattenIsJoin(command: string)
    ensures Flatten(command) == Join(Words(command), " ")
  {
    TrimStartKeepsWords(command);
    TrimEndKeepsWords(TrimStart(command));
  }

  /** Any white space between two parts flattens like one blank. */
  lemma WhiteSpaceIgnored(a: string, space: string, b: string)
    requires space != "" && Blank(space)
    ensures Flatten(a + space + b) == Flatten(a + " " + b)
  {
    WordsAround(a, space, b);
    WordsAround(a, " ", b);
    FlattenIsJoin(a + space + b);
    FlattenIsJoin(a + " " + b);
  }

  lemma WordsAround(a: string, space: string, b: string)
    requires space != "" && Blank(space)
    ensures Words(a + space + b) == Words(a) + Words(b)
  {
    ChunksAppend(a, space + b, SpaceOrWord);
    WordsBehind(space, b);
    ConcatAssociative(a, space, b);
  }

  lemma {:induction false} WordsBehind(space: string, b: string)
    requires Blank(space)
    ensures Words(space + b) == Words(b)
  {
    if space == "" {
      assert space + b == b;
    } else {
      WordsBehind(space[1..], b);
      CutBoth(space, b, 1);
    }
  }

  // ---------- Tokens of text without quoting ----------

  /** The characters of which the tokenizer makes tokens of their own. */
  predicate IsPunctuation(c: char) {
    c == '(' || c == ')' || c == ';' || c == '<' || c == '>' || c == '|' || c == '&'
  }

  function TokenKind(c: char): Kind {
    if IsSpace(c) then Space else if IsPunctuation(c) then Punctuation else Word
  }

  /** What the tokenizer looks at: a # ends the text, also inside a word. */
  function Seen(s: string): string {
    if s == "" || s[0] == '#' then "" else [s[0]] + Seen(s[1..])
  }

  function Tokens(s: string): seq<string> {
    Chunks(Seen(s), TokenKind)
  }

  /** A double quote, a single quote or a backslash. */
  predicate IsQuoting(c: char) {
    c as int == 34 || c as int == 39 || c as int == 92
  }

  predicate Unquoted(s: string) {
    forall i :: 0 <= i < |s| ==> !IsQuoting(s[i])
  }

  predicate PlainChar(c: char) {
    !IsQuoting(c) && (IsSpace(c) ==> c == ' ')
  }

  /** No white space but blanks, as in flattened text. */
  predicate OnlyBlanks(s: string) {
    forall i :: 0 <= i < |s| && IsSpace(s[i]) ==> s[i] == ' '
  }

  /** What is assumed of the tokenizer: its rule for flattened text without quoting. */
  ghost predicate Tokenizes(tokenize: string -> Option<seq<string>>) {
    forall text :: Unquoted(text) && OnlyBlanks(text) ==> tokenize(text) == Some(Tokens(text))
  }

  lemma {:induction false} SeenAppend(a: string, b: string)
    ensures Seen(a + b) == if '#' in a then Seen(a) else a + Seen(b)
  {
    if a == "" {
      assert a + b == b;
    } else if a[0] != '#' {
      SeenAppend(a[1..], b);
      CutBoth(a, b, 1);
      HashInRest(a);
      ConcatAssociative([a[0]], a[1..], Seen(b));
    }
  }

  lemma HashInRest(a: string)
    requires a != "" && a[0] != '#'
    ensures '#' in a <==> '#' in a[1..]
    ensures [a[0]] + a[1..] == a
  {
  }

  lemma TokensAppend(a: string, b: string)
    requires b == "" || IsSpace(b[0])
    ensures Tokens(a + b) == if '#' in a then Tokens(a) else Tokens(a) + Tokens(b)
  {
    SeenAppend(a, b);
    SeenAppend(a, "");
    assert a + "" == a;
    if '#' !in a {
      ChunksAppend(a, Seen(b), TokenKind);
    }
  }

  lemma BlankInFront(s: string)
    requires s != "" && IsSpace(s[0])
    ensures Tokens(s) == Tokens(s[1..]) && Words(s) == Words(s[1..])
  {
    assert Seen(s)[1..] == Seen(s[1..]);
  }

  lemma JoinFront(w: string, ws: seq<string>)
    ensures Join([w] + ws, " ") == if ws == [] then w else w + (" " + Join(ws, " "))
  {
    assert ([w] + ws)[1..] == ws;
    if ws != [] {
      ConcatAssociative(w, " ", Join(ws, " "));
    }
  }

  /** Two texts that go on with the same tokens behind the same word. */
  lemma SameBehind(w: string, x: string, y: string)
    requires (x == "" || IsSpace(x[0])) && (y == "" || IsSpace(y[0])) && Tokens(x) == Tokens(y)
    ensures Tokens(w + x) == Tokens(w + y)
  {
    TokensAppend(w, x);
    TokensAppend(w, y);
  }

  /** The rest of flattened text, behind its first word. */
  function Rest(ws: seq<string>): string {
    if ws == [] then "" else " " + Join(ws, " ")
  }

  lemma RestTokens(ws: seq<string>)
    ensures Tokens(Rest(ws)) == Tokens(Join(ws, " "))
  {
    if ws != [] {
      BlankInFront(Rest(ws));
      assert Rest(ws)[1..] == Join(ws, " ");
    }
  }

  lemma WordInFront(w: string, rest: string, ws: seq<string>)
    requires (rest == "" || IsSpace(rest[0])) && Tokens(Join(ws, " ")) == Tokens(rest)
    ensures Tokens(Join([w] + ws, " ")) == Tokens(w + rest)
  {
    JoinFront(w, ws);
    RestTokens(ws);
    SameBehind(w, Rest(ws), rest);
    assert w + "" == w;
  }

  lemma {:induction false} JoinKeepsTokens(s: string)
    ensures Tokens(Join(Words(s), " ")) == Tokens(s)
    decreases |s|
  {
    if s != "" {
      if IsSpace(s[0]) {
        BlankInFront(s);
        JoinKeepsTokens(s[1..]);
      } else {
        var n := RunLength(s, SpaceOrWord);
        JoinKeepsTokens(s[n..]);
        WordInFront(s[..n], s[n..], Words(s[n..]));
        assert s[..n] + s[n..] == s;
      }
    }
  }

  /** Flattening keeps the tokens. */
  lemma FlattenKeepsTokens(command: string)
    ensures Tokens(Flatten(command)) == Tokens(command)
  {
    FlattenIsJoin(command);
    JoinKeepsTokens(command);
  }

  // ---------- The characters of flattened text ----------

  lemma {:induction false} JoinEach(ws: seq<string>, p: char -> bool)
    requires p(' ') && forall w <- ws :: Each(w, p)
    ensures Each(Join(ws, " "), p)
  {
    if |ws| > 1 {
      JoinEach(ws[1..], p);
      ThreePartsEach(ws[0], Join(ws[1..], " "), p);
    }
  }

  lemma ThreePartsEach(a: string, b: string, p: char -> bool)
    requires Each(a, p) && p(' ') && Each(b, p)
    ensures Each(a + " " + b, p)
  {
    var s := a + " " + b;
    forall i | 0 <= i < |s| ensures p(s[i]) {
      assert s[i] == if i < |a| then a[i] else if i == |a| then ' ' else b[i - |a| - 1];
    }
  }

  lemma FlattenEach(command: string, p: char -> bool)
    requires p(' ') && forall c <- command :: IsSpace(c) || p(c)
    ensures Each(Flatten(command), p)
  {
    var q := (c: char) => IsSpace(c) || p(c);
    FlattenIsJoin(command);
    ChunksHold(command, SpaceOrWord, q);
    ChunksUniform(command, SpaceOrWord);
    forall w <- Words(command) ensures Each(w, p) {
      WordEach(w, q, p);
    }
    JoinEach(Words(command), p);
  }

  lemma WordEach(w: string, q: char -> bool, p: char -> bool)
    requires Uniform(w, SpaceOrWord) && Each(w, q) && forall c :: q(c) ==> IsSpace(c) || p(c)
    ensures Each(w, p)
  {
    forall i | 0 <= i < |w| ensures p(w[i]) {
      assert SpaceOrWord(w[i]) == Word && q(w[i]);
    }
  }

  lemma PlainCharsOnly(s: string)
    requires Each(s, PlainChar)
    ensures Unquoted(s) && OnlyBlanks(s)
  {
    forall i | 0 <= i < |s| ensures PlainChar(s[i]) {
    }
  }

  lemma FlattenPlain(command: string)
    requires Unquoted(command)
    ensures Unquoted(Flatten(command)) && OnlyBlanks(Flatten(command))
  {
    FlattenEach(command, PlainChar);
    PlainCharsOnly(Flatten(command));
  }

  /** What the tokenizer makes of a flattened command. */
  lemma TokensOfCommand(tokenize: string -> Option<seq<string>>, command: string)
    requires Tokenizes(tokenize) && Unquoted(command)
    ensures tokenize(Flatten(command)) == Some(Tokens(command))
  {
    FlattenPlain(command);
    FlattenKeepsTokens(command);
  }

  // ---------- Flattening a longer text ----------

  lemma RestPrefix(w: string, ws: seq<string>, more: seq<string>)
    ensures Join(ws, " ") <= Join(more, " ") && |ws| <= |more| ==> Join([w] + ws, " ") <= Join([w] + more, " ")
  {
    JoinFront(w, ws);
    JoinFront(w, more);
    if ws != [] && Join(ws, " ") <= Join(more, " ") {
      assert " " + Join(ws, " ") <= " " + Join(more, " ");
    }
  }

  lemma FirstWordPrefix(w: string, v: string, ws: seq<string>)
    requires w <= v
    ensures Join([w], " ") <= Join([v] + ws, " ")
  {
    JoinFront(v, ws);
  }

  lemma {:induction false} WordsPrefix(a: string, b: string)
    ensures Join(Words(a), " ") <= Join(Words(a + b), " ") && |Words(a)| <= |Words(a + b)|
    decreases |a|
  {
    if a != "" {
      var n := if IsSpace(a[0]) then 1 else RunLength(a, SpaceOrWord);
      CutBoth(a, b, n);
      if IsSpace(a[0]) {
        WordsPrefix(a[1..], b);
      } else if n < |a| {
        WordsPrefix(a[n..], b);
        RunUnique(a + b, SpaceOrWord, n);
        RestPrefix(a[..n], Words(a[n..]), Words(a[n..] + b));
      } else {
        LongerRun(a, b);
        var m := RunLength(a + b, SpaceOrWord);
        FirstWordPrefix(a, (a + b)[..m], Words((a + b)[m..]));
        ChunkOne(a, SpaceOrWord);
      }
    }
  }

  lemma LongerRun(a: string, b: string)
    requires a != "" && RunLength(a, SpaceOrWord) == |a|
    ensures |a| <= RunLength(a + b, SpaceOrWord) && a <= (a + b)[..RunLength(a + b, SpaceOrWord)]
  {
    var m := RunLength(a + b, SpaceOrWord);
    assert forall i :: 0 <= i < |a| ==> (a + b)[i] == a[i];
  }

  /** A longer command flattens to a longer text. */
  lemma FlattenPrefix(a: string, b: string)
    ensures Flatten(a) <= Flatten(a + b)
  {
    FlattenIsJoin(a);
    FlattenIsJoin(a + b);
    WordsPrefix(a, b);
  }

  /** Behind a # nothing counts. */
  lemma TokensUpToHash(a: string, b: string)
    requires '#' !in a
    ensures Tokens(a + "#" + b) == Tokens(a)
  {
    ConcatAssociative(a, "#", b);
    SeenAppend(a, "#" + b);
    SeenAppend(a, "");
    assert a + "" == a;
  }

  // ---------- What the shell reads ----------

  /** POSIX.1 (IEEE Std 1003.1), Shell Command Language, section 2.3, "Token Recognition". */
  predicate IsBlank(c: char) {
    c == ' ' || c == '\t' || c == '\n'
  }

  /** A newline between other characters: it ends a command, and more follows. */
  predicate JoinsLines(command: string) {
    exists i, j, k :: 0 <= i < j < k < |command| && !IsBlank(command[i]) && command[j] == '\n' && !IsBlank(command[k])
  }

  /** What the shell reads of one line: a # ends it only where a word would start. */
  function ShellPart(line: string, wordStart: bool): string {
    if line == "" || (line[0] == '#' && wordStart) then ""
    else [line[0]] + ShellPart(line[1..], IsBlank(line[0]) || IsPunctuation(line[0]))
  }

  lemma {:induction false} SeenIsRead(line: string, wordStart: bool)
    ensures Seen(line) <= ShellPart(line, wordStart)
  {
    if line != "" && line[0] != '#' {
      SeenIsRead(line[1..], IsBlank(line[0]) || IsPunctuation(line[0]));
    }
  }

  /** What the shell reads of a line and the tokenizer does not see. */
  function Hidden(line: string): string {
    SeenIsRead(line, true);
    ShellPart(line, true)[|Seen(line)|..]
  }

  /** A # inside a word hides what follows from the tokenizer only. */
  lemma {:induction false} HiddenBehind(word: string, rest: string, wordStart: bool)
    requires word != "" && '#' !in word && TokenKind(word[|word| - 1]) == Word
    ensures ShellPart(word + "#" + rest, wordStart) == word + "#" + ShellPart(rest, false)
  {
    var line := word + "#" + rest;
    if |word| == 1 {
      assert line[1..] == "#" + rest && ("#" + rest)[1..] == rest;
    } else {
      HiddenBehind(word[1..], rest, IsBlank(word[0]) || IsPunctuation(word[0]));
      assert line[1..] == word[1..] + "#" + rest;
    }
  }
}
