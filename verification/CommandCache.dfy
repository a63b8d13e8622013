/** Which shell commands the result cache accepts, and the wrappers it looks through
    (src/tok/compression/__init__.py, _strip_command_wrappers and _normalized_cacheable_command). */
module CommandCache {
  import opened Text
  import opened CommandText

  // ---------- Tokens ----------

  function Root(token: string): string {
    Lower(Basename(token))
  }

  predicate IsNameChar(c: char) {
    'A' <= c <= 'Z' || 'a' <= c <= 'z' || c == '_'
  }

  /** The regular expression `^[A-Za-z_][A-Za-z0-9_]*=`. */
  predicate IsAssignment(token: string) {
    token != [] && IsNameChar(token[0]) && NameThenEquals(token[1..])
  }

  predicate NameThenEquals(s: string) {
    s != [] && (s[0] == '=' || ((IsNameChar(s[0]) || IsDigit(s[0])) && NameThenEquals(s[1..])))
  }

  predicate IsFlag(token: string) {
    StartsWith(token, "-")
  }

  /** A name of an environment variable. */
  predicate IsName(s: string) {
    s != "" && !IsDigit(s[0]) && forall i :: 0 <= i < |s| ==> IsNameChar(s[i]) || IsDigit(s[i])
  }

  lemma {:induction false} EqualsSignBehindName(s: string)
    ensures NameThenEquals(s) <==>
            exists i :: 0 <= i < |s| && s[i] == '=' && forall j :: 0 <= j < i ==> IsNameChar(s[j]) || IsDigit(s[j])
  {
    if s != "" && s[0] != '=' {
      EqualsSignBehindName(s[1..]);
      if NameThenEquals(s) {
        var i :| 0 <= i < |s[1..]| && s[1..][i] == '=' && forall j :: 0 <= j < i ==> IsNameChar(s[1..][j]) || IsDigit(s[1..][j]);
        assert s[i + 1] == '=' && forall j :: 0 < j < i + 1 ==> s[j] == s[1..][j - 1];
      }
      if i :| 0 <= i < |s| && s[i] == '=' && forall j :: 0 <= j < i ==> IsNameChar(s[j]) || IsDigit(s[j]) {
        assert s[1..][i - 1] == '=' && forall j :: 0 <= j < i - 1 ==> s[1..][j] == s[j + 1];
      }
    }
  }

  /** A setting in front of a command is a name, an equals sign, and any value. */
  lemma SettingIff(token: string)
    ensures IsAssignment(token) <==> exists i :: 0 < i < |token| && token[i] == '=' && IsName(token[..i])
  {
    if token != "" {
      EqualsSignBehindName(token[1..]);
      if IsAssignment(token) {
        var i :| 0 <= i < |token[1..]| && token[1..][i] == '='
                 && forall j :: 0 <= j < i ==> IsNameChar(token[1..][j]) || IsDigit(token[1..][j]);
        assert token[i + 1] == '=' && forall j :: 0 < j < i + 1 ==> token[j] == token[1..][j - 1];
        assert IsName(token[..i + 1]);
      }
      if i :| 0 < i < |token| && token[i] == '=' && IsName(token[..i]) {
        assert token[..i][0] == token[0] && token[1..][i - 1] == '=';
        assert forall j :: 0 <= j < i - 1 ==> token[1..][j] == token[..i][j + 1];
      }
    }
  }

  // ---------- Stripping wrappers ----------

  predicate EnvFirst(parts: seq<string>) {
    parts != [] && Root(parts[0]) in {"env", "/usr/bin/env"}
  }

  predicate UvRunFirst(parts: seq<string>) {
    |parts| >= 2 && Root(parts[0]) == "uv" && parts[1] == "run"
  }

  predicate PythonModuleFirst(parts: seq<string>) {
    |parts| >= 3 && Root(parts[0]) in {"python", "python3"} && parts[1] == "-m"
  }

  /** No wrapper is left in front. */
  predicate Unwrapped(parts: seq<string>) {
    !EnvFirst(parts) && !UvRunFirst(parts) && !PythonModuleFirst(parts)
  }

  function DropWhile(parts: seq<string>, p: string -> bool): (r: seq<string>)
    ensures IsSuffix(r, parts)
  {
    if parts != [] && p(parts[0]) then DropWhile(parts[1..], p) else parts
  }

  function Strip(parts: seq<string>): (r: seq<string>)
    ensures IsSuffix(r, parts) && Unwrapped(r)
    decreases |parts|
  {
    if EnvFirst(parts) then Strip(DropWhile(parts[1..], IsAssignment))
    else if UvRunFirst(parts) then Strip(DropWhile(parts[2..], IsFlag))
    else if PythonModuleFirst(parts) then Strip(parts[2..])
    else parts
  }

  method StripCommandWrappers(parts: seq<string>) returns (remaining: seq<string>)
    ensures remaining == Strip(parts)
  {
    remaining := parts;
    while remaining != []
      invariant Strip(remaining) == Strip(parts)
      decreases |remaining|
    {
      var root := Root(remaining[0]);
      if root in {"env", "/usr/bin/env"} {
        remaining := DropLoop(remaining[1..], IsAssignment);
        continue;
      }
      if |remaining| >= 2 && root == "uv" && remaining[1] == "run" {
        remaining := DropLoop(remaining[2..], IsFlag);
        continue;
      }
      if |remaining| >= 3 && root in {"python", "python3"} && remaining[1] == "-m" {
        remaining := remaining[2..];
        continue;
      }
      break;
    }
  }

  method DropLoop(parts: seq<string>, p: string -> bool) returns (remaining: seq<string>)
    ensures remaining == DropWhile(parts, p)
  {
    remaining := parts;
    while remaining != [] && p(remaining[0])
      invariant DropWhile(remaining, p) == DropWhile(parts, p)
    {
      remaining := remaining[1..];
    }
  }

  /** Stripping a stripped command changes nothing, and only stripped commands are left unchanged. */
  lemma StripIdempotent(parts: seq<string>)
    ensures Strip(Strip(parts)) == Strip(parts)
    ensures Strip(parts) == parts <==> Unwrapped(parts)
  {
    assert Unwrapped(Strip(parts));
  }

  // ---------- Wrapping and stripping ----------

  datatype Wrapper = Env(token: string, settings: seq<string>) | UvRun(token: string, flags: seq<string>) | Module(token: string)

  predicate ValidWrapper(w: Wrapper) {
    && !IsFlag(w.token) && !IsAssignment(w.token)
    && match w
       case Env(token, settings) => Root(token) == "env" && forall s <- settings :: IsAssignment(s)
       case UvRun(token, flags) => Root(token) == "uv" && forall f <- flags :: IsFlag(f)
       case Module(token) => Root(token) == "python" || Root(token) == "python3"
  }

  function Wrap(w: Wrapper, command: seq<string>): seq<string> {
    match w
    case Env(token, settings) => [token] + (settings + command)
    case UvRun(token, flags) => [token, "run"] + (flags + command)
    case Module(token) => [token, "-m"] + command
  }

  function WrapAll(ws: seq<Wrapper>, command: seq<string>): seq<string> {
    if ws == [] then command else Wrap(ws[0], WrapAll(ws[1..], command))
  }

  predicate Plain(command: seq<string>) {
    command != [] && !IsFlag(command[0]) && !IsAssignment(command[0])
  }

  lemma {:induction false} DropWhileAll(front: seq<string>, rest: seq<string>, p: string -> bool)
    requires (forall t <- front :: p(t)) && rest != [] && !p(rest[0])
    ensures DropWhile(front + rest, p) == rest
  {
    if front == [] {
      assert front + rest == rest;
    } else {
      assert (front + rest)[1..] == front[1..] + rest;
      DropWhileAll(front[1..], rest, p);
    }
  }

  lemma StripEnv(token: string, settings: seq<string>, command: seq<string>)
    requires Root(token) == "env" && (forall s <- settings :: IsAssignment(s)) && Plain(command)
    ensures Strip([token] + (settings + command)) == Strip(command)
  {
    var parts := [token] + (settings + command);
    DropWhileAll(settings, command, IsAssignment);
    assert parts[0] == token && parts[1..] == settings + command;
    assert EnvFirst(parts);
  }

  lemma StripUvRun(token: string, flags: seq<string>, command: seq<string>)
    requires Root(token) == "uv" && (forall f <- flags :: IsFlag(f)) && Plain(command)
    ensures Strip([token, "run"] + (flags + command)) == Strip(command)
  {
    var parts := [token, "run"] + (flags + command);
    DropWhileAll(flags, command, IsFlag);
    assert parts[0] == token && parts[1] == "run" && parts[2..] == flags + command;
    assert Root(token)[0] == 'u' && !EnvFirst(parts) && UvRunFirst(parts);
  }

  lemma StripModule(token: string, command: seq<string>)
    requires Root(token) in {"python", "python3"} && command != []
    ensures Strip([token, "-m"] + command) == Strip(command)
  {
    var parts := [token, "-m"] + command;
    assert parts[0] == token && parts[1] == "-m" && parts[2..] == command;
    assert Root(token)[0] == 'p' && !EnvFirst(parts) && !UvRunFirst(parts) && PythonModuleFirst(parts);
  }

  lemma StripOne(w: Wrapper, command: seq<string>)
    requires ValidWrapper(w) && Plain(command)
    ensures Strip(Wrap(w, command)) == Strip(command) && Plain(Wrap(w, command))
  {
    match w
    case Env(token, settings) => StripEnv(token, settings, command);
    case UvRun(token, flags) => StripUvRun(token, flags, command);
    case Module(token) => StripModule(token, command);
  }

  /** Any stack of wrappers in front of a plain command strips like the command itself. */
  lemma {:induction false} WrappersDoNotMatter(ws: seq<Wrapper>, command: seq<string>)
    requires (forall w <- ws :: ValidWrapper(w)) && Plain(command)
    ensures Strip(WrapAll(ws, command)) == Strip(command) && Plain(WrapAll(ws, command))
    ensures Unwrapped(command) ==> Strip(WrapAll(ws, command)) == command
  {
    if ws != [] {
      WrappersDoNotMatter(ws[1..], command);
      StripOne(ws[0], WrapAll(ws[1..], command));
    }
  }

  // ---------- Acceptance ----------

  const UNSAFE_TOKENS := {"&&", "||", ";", "|", ">>", ">", "<"}
  const MUTATING_ROOTS := {
    "rm", "mv", "cp", "touch", "mkdir", "rmdir", "chmod", "chown", "install", "pip", "bun", "brew",
    "curl", "wget", "ssh", "scp", "rsync"}
  const ALLOWED_ROOTS := {
    "rg", "grep", "find", "ls", "wc", "sed", "head", "tail", "nl", "git", "pytest", "ruff", "mypy", "file",
    "stat", "tree", "fd", "jq", "cargo", "go", "npm", "pnpm", "yarn", "tsc", "npx", "vitest", "jest", "eslint"}
  const ALLOWED_GIT := {
    "status", "log", "show", "diff", "blame", "ls-files", "grep", "branch", "rev-parse", "remote", "merge-base"}
  const SAFE_SCRIPTS := {"test", "lint", "typecheck"}
  const MUTATING_SUBCOMMANDS := {
    "add", "audit", "ci", "dedupe", "exec", "install", "link", "pack", "publish", "rebuild", "remove",
    "run-script", "unlink", "uninstall", "update", "upgrade", "version"}

  predicate SafePackageCommand(parts: seq<string>) {
    |parts| >= 2 && Lower(parts[1]) !in MUTATING_SUBCOMMANDS
    && (Lower(parts[1]) == "test" || (|parts| >= 3 && Lower(parts[1]) == "run" && Lower(parts[2]) in SAFE_SCRIPTS))
  }

  predicate TypeCheckOnly(parts: seq<string>) {
    "--noEmit" in parts || exists p <- parts :: Lower(p) == "--noemit"
  }

  predicate CacheableShape(parts: seq<string>)
    requires parts != []
  {
    var root := Root(parts[0]);
    root !in MUTATING_ROOTS && root in ALLOWED_ROOTS
    && (if root == "git" then |parts| >= 2 && Lower(parts[1]) in ALLOWED_GIT
        else if root == "ruff" then |parts| >= 2 && parts[1] == "check" && "--fix" !in parts
        else if root == "sed" then "-i" !in parts && "--in-place" !in parts && "-n" in parts
        else if root == "find" then forall p <- parts :: p !in {"-delete", "-exec", "-execdir", "-ok", "-okdir"}
        else if root == "cargo" then |parts| >= 2 && parts[1] in {"test", "check", "clippy"}
        else if root == "go" then |parts| >= 2 && parts[1] == "test"
        else if root in {"npm", "pnpm", "yarn"} then SafePackageCommand(parts)
        else if root == "tsc" then TypeCheckOnly(parts)
        else if root == "npx" then |parts| >= 3 && parts[1] == "tsc" && TypeCheckOnly(parts[1..])
        else if root == "eslint" then "--fix" !in parts && "--fix-dry-run" !in parts
        else if root == "jq" then |parts| >= 3 && exists p <- parts[2..] :: !IsFlag(p)
        else true)
  }

  predicate SafeToken(token: string) {
    token !in UNSAFE_TOKENS && '*' !in token && '?' !in token
  }

  /** _normalized_cacheable_command once the command is split into tokens; split is None if that failed. */
  function NormalizedCommand(text: string, split: Option<seq<string>>): Option<string> {
    if text == "" || Substitutes(text) then None
    else if split.None? || split.value == [] || !(forall t <- split.value :: SafeToken(t)) then None
    else
      var parts := Strip(split.value);
      if parts == [] || !CacheableShape(parts) then None else Some(Join(parts, " "))
  }

  /** _normalized_cacheable_command */
  function Normalized(tokenize: string -> Option<seq<string>>, command: string): Option<string> {
    NormalizedCommand(Flatten(command), tokenize(Flatten(command)))
  }

  /** An accepted command is what wrapper stripping leaves of the tokens; it starts with an allow-listed
      program, and none of its tokens is one of the listed ones or holds a star or a question mark. */
  lemma AcceptedIsAllowListed(text: string, split: Option<seq<string>>)
    requires NormalizedCommand(text, split).Some?
    ensures split.Some? && !Substitutes(text)
    ensures exists parts :: && IsSuffix(parts, split.value) && parts != [] && Unwrapped(parts)
                            && NormalizedCommand(text, split) == Some(Join(parts, " "))
                            && Root(parts[0]) in ALLOWED_ROOTS && Root(parts[0]) !in MUTATING_ROOTS
                            && forall t <- parts :: SafeToken(t)
  {
    var parts := Strip(split.value);
    SuffixKeepsTokens(parts, split.value);
    ShapeMeansAllowed(parts);
  }

  lemma SuffixKeepsTokens(r: seq<string>, s: seq<string>)
    requires IsSuffix(r, s) && forall t <- s :: SafeToken(t)
    ensures forall t <- r :: SafeToken(t)
  {
    forall t <- r ensures t in s {
      var i :| 0 <= i < |r| && r[i] == t;
      assert s[|s| - |r| + i] == t;
    }
  }

  lemma ShapeMeansAllowed(parts: seq<string>)
    requires parts != [] && CacheableShape(parts)
    ensures Root(parts[0]) in ALLOWED_ROOTS && Root(parts[0]) !in MUTATING_ROOTS
  {
  }

  // ---------- What the allow list lets through, program by program ----------

  predicate Names(parts: seq<string>, program: string) {
    parts != [] && Root(parts[0]) == program
  }

  predicate Lacks(parts: seq<string>, forbidden: seq<string>) {
    forall x <- forbidden :: x !in parts
  }

  /** find never with an action, sed only to print, and never in place. */
  lemma FindShape(parts: seq<string>)
    requires Names(parts, "find")
    ensures CacheableShape(parts) <==> Lacks(parts, ["-delete", "-exec", "-execdir", "-ok", "-okdir"])
  {
    var root := Root(parts[0]);
    assert root[0] == 'f' && root[2] == 'n' && |root| == 4;
  }

  lemma SedShape(parts: seq<string>)
    requires Names(parts, "sed")
    ensures CacheableShape(parts) <==> "-n" in parts && Lacks(parts, ["-i", "--in-place"])
  {
    var root := Root(parts[0]);
    assert root[0] == 's' && root[1] == 'e' && |root| == 3;
  }

  lemma EslintShape(parts: seq<string>)
    requires Names(parts, "eslint")
    ensures CacheableShape(parts) <==> Lacks(parts, ["--fix", "--fix-dry-run"])
  {
    var root := Root(parts[0]);
    assert root[0] == 'e' && |root| == 6;
  }

  lemma RuffShape(parts: seq<string>)
    requires Names(parts, "ruff")
    ensures CacheableShape(parts) <==> |parts| >= 2 && parts[1] == "check" && Lacks(parts, ["--fix"])
  {
    var root := Root(parts[0]);
    assert root[0] == 'r' && root[1] == 'u' && |root| == 4;
  }

  /** git only with the subcommands that read. */
  lemma GitShape(parts: seq<string>)
    requires Names(parts, "git")
    ensures CacheableShape(parts) <==>
              |parts| >= 2 && Lower(parts[1]) in ["status", "log", "show", "diff", "blame", "ls-files", "grep", "branch",
                                                 "rev-parse", "remote", "merge-base"]
  {
    var root := Root(parts[0]);
    assert root[0] == 'g' && root[1] == 'i' && |root| == 3;
  }

  /** Tests and checks, but no builds, installations or publications. */
  lemma CargoAndGoShape(parts: seq<string>)
    ensures Names(parts, "cargo") ==>
              (CacheableShape(parts) <==> |parts| >= 2 && parts[1] in ["test", "check", "clippy"])
    ensures Names(parts, "go") ==> (CacheableShape(parts) <==> |parts| >= 2 && parts[1] == "test")
  {
    if Names(parts, "cargo") {
      var root := Root(parts[0]);
      assert root[0] == 'c' && root[1] == 'a' && |root| == 5;
    }
    if Names(parts, "go") {
      var root := Root(parts[0]);
      assert root[0] == 'g' && |root| == 2;
    }
  }

  lemma TestIsNoMutation(subcommand: string)
    ensures subcommand == "test" || subcommand == "run" ==> subcommand !in MUTATING_SUBCOMMANDS
  {
    if subcommand == "test" {
      assert |subcommand| == 4 && subcommand[0] == 't';
    } else if subcommand == "run" {
      assert |subcommand| == 3 && subcommand[0] == 'r';
    }
  }

  /** The list of mutating subcommands never decides: only test, and run with three scripts, pass anyway. */
  lemma PackageShape(parts: seq<string>, program: string)
    requires Names(parts, program) && (program == "npm" || program == "pnpm" || program == "yarn")
    ensures CacheableShape(parts) <==>
              && |parts| >= 2
              && (|| Lower(parts[1]) == "test"
                  || (|parts| >= 3 && Lower(parts[1]) == "run" && Lower(parts[2]) in ["test", "lint", "typecheck"]))
  {
    var root := Root(parts[0]);
    assert root[0] == program[0] && |root| == |program|;
    if |parts| >= 2 {
      TestIsNoMutation(Lower(parts[1]));
    }
  }

  lemma NoEmitLower(p: string)
    ensures p == "--noEmit" ==> Lower(p) == "--noemit"
  {
    assert LowerChar('E') == 'e' && LowerChar('-') == '-' && LowerChar('n') == 'n' && LowerChar('o') == 'o';
    assert LowerChar('m') == 'm' && LowerChar('i') == 'i' && LowerChar('t') == 't';
  }

  /** tsc, also behind npx, only when it writes nothing. */
  lemma TscShape(parts: seq<string>)
    ensures Names(parts, "tsc") ==> (CacheableShape(parts) <==> exists p <- parts :: Lower(p) == "--noemit")
    ensures Names(parts, "npx") ==>
              (CacheableShape(parts) <==>
                |parts| >= 3 && parts[1] == "tsc" && exists p <- parts[1..] :: Lower(p) == "--noemit")
  {
    NoEmitLower("--noEmit");
    if Names(parts, "tsc") {
      var root := Root(parts[0]);
      assert root[0] == 't' && root[1] == 's' && |root| == 3;
    }
    if Names(parts, "npx") {
      var root := Root(parts[0]);
      assert root[0] == 'n' && root[2] == 'x' && |root| == 3;
    }
  }

  /** jq only with an input file. */
  lemma JqShape(parts: seq<string>)
    requires Names(parts, "jq")
    ensures CacheableShape(parts) <==> |parts| >= 3 && exists p <- parts[2..] :: p == "" || p[0] != '-'
  {
    var root := Root(parts[0]);
    assert root[0] == 'j' && |root| == 2;
    assert forall p: string :: IsFlag(p) <==> p != "" && p[0] == '-';
  }

  /** Programs that only read or only test, whatever their arguments. */
  const READERS := [
    "rg", "grep", "ls", "wc", "head", "tail", "nl", "pytest", "mypy", "file", "stat", "tree", "fd", "vitest", "jest"]

  const GUARDED := [
    "find", "sed", "eslint", "ruff", "git", "cargo", "go", "npm", "pnpm", "yarn", "tsc", "npx", "jq"]

  lemma ReaderShape(parts: seq<string>, i: nat)
    requires i < |READERS| && Names(parts, READERS[i])
    ensures CacheableShape(parts)
  {
    var root := Root(parts[0]);
    assert root == READERS[i] && root in ALLOWED_ROOTS;
    assert root !in MUTATING_ROOTS;
  }

  /** No other program is accepted, mutating or not. */
  lemma OthersRefused(parts: seq<string>)
    requires parts != [] && Root(parts[0]) !in READERS && Root(parts[0]) !in GUARDED
    ensures !CacheableShape(parts)
  {
    var root := Root(parts[0]);
    assert READERS[0] == "rg";
  }

  predicate Substitutes(text: string) {
    Contains(text, "$(") || Contains(text, "`")
  }

  // ---------- Operators: what the guards let through ----------

  /** An operator of the shell: a run of punctuation. */
  predicate IsOperator(t: string) {
    t != "" && forall i :: 0 <= i < |t| ==> IsPunctuation(t[i])
  }

  /** Neither an operator nor a pattern. */
  predicate Inert(t: string) {
    !IsOperator(t) && '*' !in t && '?' !in t && '[' !in t && '{' !in t
  }

  /** An operator that is not listed, or a bracket or brace pattern. */
  predicate Overlooked(t: string) {
    (IsOperator(t) && t !in UNSAFE_TOKENS) || '[' in t || '{' in t
  }

  lemma ListedIsOperator(t: string)
    requires t in UNSAFE_TOKENS
    ensures IsOperator(t)
  {
  }

  /** The guards see every operator and pattern but the overlooked ones. */
  lemma InertIff(t: string)
    ensures Inert(t) <==> SafeToken(t) && !Overlooked(t)
  {
    if t in UNSAFE_TOKENS {
      ListedIsOperator(t);
    }
  }

  // ---------- From the tokens back to what the shell reads ----------

  /** No character of an operator or a pattern. */
  predicate NotSpecial(c: char) {
    !IsPunctuation(c) && c != '*' && c != '?' && c != '[' && c != '{'
  }

  /** The shell reads one command, without operators or patterns. */
  predicate OneSimpleCommand(command: string) {
    !JoinsLines(command) && Each(ShellPart(command, true), NotSpecial)
  }

  lemma TokenInertIff(t: string)
    requires Uniform(t, TokenKind)
    ensures Each(t, NotSpecial) <==> Inert(t)
  {
    if TokenKind(t[0]) == Punctuation {
      assert forall i :: 0 <= i < |t| ==> TokenKind(t[i]) == Punctuation;
      assert !NotSpecial(t[0]) && IsOperator(t);
    } else {
      assert forall i :: 0 <= i < |t| ==> TokenKind(t[i]) == Word;
      assert !IsPunctuation(t[0]) && !IsOperator(t);
      if Inert(t) {
        forall i | 0 <= i < |t| ensures NotSpecial(t[i]) {
          assert t[i] in t;
        }
      } else {
        var i :| 0 <= i < |t| && (t[i] == '*' || t[i] == '?' || t[i] == '[' || t[i] == '{');
        assert !NotSpecial(t[i]);
      }
    }
  }

  /** The tokens tell whether the text the tokenizer sees is free of operators and patterns. */
  lemma SeenIsInertIff(command: string)
    ensures Each(Seen(command), NotSpecial) <==> forall t <- Tokens(command) :: Inert(t)
  {
    ChunksHold(Seen(command), TokenKind, NotSpecial);
    ChunksUniform(Seen(command), TokenKind);
    forall t <- Tokens(command) ensures Each(t, NotSpecial) <==> Inert(t) {
      TokenInertIff(t);
    }
  }

  lemma ReadIsSeenAndHidden(command: string)
    ensures Each(ShellPart(command, true), NotSpecial)
            <==> Each(Seen(command), NotSpecial) && Each(Hidden(command), NotSpecial)
  {
    SeenIsRead(command, true);
    var read, n := ShellPart(command, true), |Seen(command)|;
    assert read[..n] == Seen(command);
    EachCut(read, n, NotSpecial);
  }

  /** A command whose tokens pass the guards is one simple command of the shell if and only if no newline
      joins commands in it, nothing special is behind a # inside a word, and no token is overlooked. */
  lemma GuardedIsSimpleIff(command: string)
    ensures (forall t <- Tokens(command) :: SafeToken(t)) ==>
              (OneSimpleCommand(command) <==>
                && !JoinsLines(command) && Each(Hidden(command), NotSpecial)
                && forall t <- Tokens(command) :: !Overlooked(t))
  {
    forall t <- Tokens(command) ensures Inert(t) <==> SafeToken(t) && !Overlooked(t) {
      InertIff(t);
    }
    SeenIsInertIff(command);
    ReadIsSeenAndHidden(command);
  }

  /** So that is when an accepted command without quoting is one simple command. */
  lemma AcceptedIsSimpleIff(tokenize: string -> Option<seq<string>>, command: string)
    requires Tokenizes(tokenize) && Unquoted(command) && Normalized(tokenize, command).Some?
    ensures OneSimpleCommand(command) <==>
              && !JoinsLines(command) && Each(Hidden(command), NotSpecial)
              && forall t <- Tokens(command) :: !Overlooked(t)
  {
    TokensOfCommand(tokenize, command);
    GuardedIsSimpleIff(command);
  }

  /** A line break is a blank to the cache, although it ends a command of the shell. */
  lemma LineBreaksIgnored(tokenize: string -> Option<seq<string>>, first: string, breaks: string, second: string)
    requires breaks != "" && Blank(breaks)
    ensures Normalized(tokenize, first + breaks + second) == Normalized(tokenize, first + " " + second)
  {
    WhiteSpaceIgnored(first, breaks, second);
  }

  lemma {:induction false} ContainsMore(x: string, y: string, needle: string)
    requires x <= y && Contains(x, needle)
    ensures Contains(y, needle)
  {
    if !(needle <= x) {
      ContainsMore(x[1..], y[1..], needle);
    }
  }

  lemma SubstitutesMore(x: string, y: string)
    requires x <= y && Substitutes(x)
    ensures Substitutes(y)
  {
    if Contains(x, "$(") {
      ContainsMore(x, y, "$(");
    } else {
      ContainsMore(x, y, "`");
    }
  }

  /** Whatever follows a #, even inside a word, is no concern of the cache unless it substitutes. */
  lemma HashIgnored(tokenize: string -> Option<seq<string>>, front: string, rest: string)
    requires Tokenizes(tokenize) && Unquoted(front + "#" + rest) && '#' !in front
    ensures var command := front + "#" + rest;
            Normalized(tokenize, command)
            == if Substitutes(Flatten(command)) then None else Normalized(tokenize, front)
  {
    var command := front + "#" + rest;
    assert front <= command && command == front + ("#" + rest);
    assert Unquoted(front);
    TokensOfCommand(tokenize, command);
    TokensOfCommand(tokenize, front);
    TokensUpToHash(front, rest);
    FlattenPrefix(front, "#" + rest);
    if Substitutes(Flatten(front)) {
      SubstitutesMore(Flatten(front), Flatten(command));
    }
    EmptyTextHasNoTokens(front);
    EmptyTextHasNoTokens(command);
  }

  lemma EmptyTextHasNoTokens(command: string)
    ensures Flatten(command) == "" ==> Tokens(command) == []
  {
    FlattenKeepsTokens(command);
  }

  lemma ListIsAllowed(parts: seq<string>)
    requires parts != [] && Root(parts[0]) == "ls"
    ensures Strip(parts) == parts && CacheableShape(parts)
  {
    var root := Root(parts[0]);
    assert |root| == 2 && root[0] == 'l' && root[1] == 's';
    assert Unwrapped(parts);
  }

  predicate Guarded(text: string, tokens: seq<string>) {
    text != "" && !Substitutes(text) && tokens != [] && forall t <- tokens :: SafeToken(t)
  }

  lemma ListAccepted(text: string, tokens: seq<string>)
    requires Guarded(text, tokens) && Root(tokens[0]) == "ls"
    ensures NormalizedCommand(text, Some(tokens)).Some?
  {
    ListIsAllowed(tokens);
    DecidedByParts(text, tokens);
  }

  lemma UnsafeRejected(text: string, tokens: seq<string>, t: string)
    requires t in tokens && !SafeToken(t)
    ensures NormalizedCommand(text, Some(tokens)).None?
  {
  }

  /** A command passes the guards only without substitution, without the seven operators as tokens, and
      without a star or a question mark in any token. */
  lemma GuardsRefuse(text: string, tokens: seq<string>, t: string)
    requires t in tokens
    requires || t in ["&&", "||", ";", "|", ">>", ">", "<"] || '*' in t || '?' in t
             || Contains(text, "$(") || Contains(text, "`")
    ensures NormalizedCommand(text, Some(tokens)).None?
  {
    if !SafeToken(t) {
      UnsafeRejected(text, tokens, t);
    }
  }

  lemma OperatorSafeIff(op: string)
    requires IsOperator(op)
    ensures SafeToken(op) <==> op !in UNSAFE_TOKENS
  {
  }

  /** A listing joined to any other words by an operator passes unless the operator is listed. */
  lemma OperatorAcceptedIff(text: string, program: string, op: string, rest: seq<string>)
    requires text != "" && !Substitutes(text) && IsOperator(op) && forall t <- rest :: SafeToken(t)
    requires Root(program) == "ls" && SafeToken(program)
    ensures NormalizedCommand(text, Some([program, op] + rest)).Some? <==> op !in UNSAFE_TOKENS
  {
    var tokens := [program, op] + rest;
    OperatorSafeIff(op);
    if SafeToken(op) {
      ListAccepted(text, tokens);
    } else {
      assert tokens[1] == op;
      UnsafeRejected(text, tokens, op);
    }
  }

  lemma NoNeedle(s: string, needle: string)
    requires needle != "" && needle[0] !in s
    ensures !Contains(s, needle)
  {
  }

  lemma WordIsSafe(t: string)
    requires t != "" && !IsPunctuation(t[0]) && '*' !in t && '?' !in t
    ensures SafeToken(t)
  {
    if t in UNSAFE_TOKENS {
      ListedIsOperator(t);
    }
  }

  lemma AmpersandUnlisted(t: string)
    requires t == "&"
    ensures IsOperator(t) && t !in UNSAFE_TOKENS
  {
    assert |t| == 1 && t[0] == '&';
  }

  lemma RootOfList(program: string)
    requires program == "ls"
    ensures Root(program) == program && SafeToken(program)
  {
    assert '/' !in program && Basename(program) == program;
    assert LowerChar('l') == 'l' && LowerChar('s') == 's';
    WordIsSafe(program);
  }

  lemma PlainText(text: string)
    requires '$' !in text && '`' !in text
    ensures !Substitutes(text)
  {
    NoNeedle(text, "$(");
    NoNeedle(text, "`");
  }

  /** A listing without quoting or substitution passes if its tokens do. */
  lemma ListingAccepted(tokenize: string -> Option<seq<string>>, command: string)
    requires Tokenizes(tokenize) && Unquoted(command) && '$' !in command && '`' !in command
    requires Tokens(command) != [] && Root(Tokens(command)[0]) == "ls" && forall t <- Tokens(command) :: SafeToken(t)
    ensures Normalized(tokenize, command).Some?
  {
    TokensOfCommand(tokenize, command);
    FlattenEach(command, NoSubstitution);
    PlainText(Flatten(command));
    EmptyTextHasNoTokens(command);
    ListAccepted(Flatten(command), Tokens(command));
  }

  predicate NoSubstitution(c: char) {
    c != '$' && c != '`'
  }

  lemma TokensOfLines(first: string, second: string)
    requires '#' !in first
    ensures Tokens(first + "\n" + second) == Tokens(first) + Tokens(second)
  {
    var rest := "\n" + second;
    ConcatAssociative(first, "\n", second);
    TokensAppend(first, rest);
    BlankInFront(rest);
    assert rest[1..] == second;
  }

  lemma BreakJoins(first: string, second: string, i: nat, k: nat)
    requires i < |first| && !IsBlank(first[i]) && k < |second| && !IsBlank(second[k])
    ensures JoinsLines(first + "\n" + second)
  {
    var command := first + "\n" + second;
    assert command[i] == first[i] && command[|first|] == '\n' && command[|first| + 1 + k] == second[k];
  }

  /** Behind a listing, any command of passable tokens passes on the next line. */
  lemma NextLineAccepted(tokenize: string -> Option<seq<string>>, first: string, second: string, i: nat, k: nat)
    requires Tokenizes(tokenize) && Unquoted(first + "\n" + second) && '#' !in first
    requires '$' !in first + "\n" + second && '`' !in first + "\n" + second
    requires Tokens(first) != [] && Root(Tokens(first)[0]) == "ls" && forall t <- Tokens(first) + Tokens(second) :: SafeToken(t)
    requires i < |first| && !IsBlank(first[i]) && k < |second| && !IsBlank(second[k])
    ensures Normalized(tokenize, first + "\n" + second).Some? && !OneSimpleCommand(first + "\n" + second)
  {
    TokensOfLines(first, second);
    ListingAccepted(tokenize, first + "\n" + second);
    BreakJoins(first, second, i, k);
  }

  /** Behind an accepted command, a # inside a word hides any other command. */
  lemma HiddenCommandAccepted(tokenize: string -> Option<seq<string>>, front: string, rest: string)
    requires Tokenizes(tokenize) && Unquoted(front + "#" + rest) && !Substitutes(Flatten(front + "#" + rest))
    requires front != "" && '#' !in front && TokenKind(front[|front| - 1]) == Word
    requires Normalized(tokenize, front).Some? && !Each(ShellPart(rest, false), NotSpecial)
    ensures Normalized(tokenize, front + "#" + rest) == Normalized(tokenize, front)
    ensures !OneSimpleCommand(front + "#" + rest)
  {
    HashIgnored(tokenize, front, rest);
    HiddenBehind(front, rest, true);
    var read := front + "#" + ShellPart(rest, false);
    EachCut(read, |front| + 1, NotSpecial);
    assert read[|front| + 1..] == ShellPart(rest, false);
  }

  // ---------- Concrete commands ----------

  lemma WordToken(w: string)
    requires Uniform(w, TokenKind) && '#' !in w
    ensures Tokens(w) == [w]
  {
    SeenAppend(w, "");
    assert w + "" == w;
    ChunkOne(w, TokenKind);
  }

  lemma TokenThen(w: string, rest: string)
    requires Uniform(w, TokenKind) && '#' !in w
    ensures Tokens(w + " " + rest) == [w] + Tokens(rest)
  {
    var behind := " " + rest;
    ConcatAssociative(w, " ", rest);
    WordToken(w);
    TokensAppend(w, behind);
    BlankInFront(behind);
    assert behind[1..] == rest;
  }

  /** No quoting, no substitution, no comment. */
  predicate Harmless(c: char) {
    !IsQuoting(c) && c != '$' && c != '`' && c != '#'
  }

  lemma HarmlessText(s: string)
    requires Each(s, Harmless)
    ensures Unquoted(s) && '$' !in s && '`' !in s && '#' !in s
  {
    forall i | 0 <= i < |s| ensures Harmless(s[i]) {
    }
  }

  lemma HarmlessParts(a: string, between: char, b: string)
    requires Each(a, Harmless) && Each(b, Harmless) && (Harmless(between) || between == '#')
    ensures var s := a + [between] + b; Unquoted(s) && '$' !in s && '`' !in s && (Harmless(between) ==> Each(s, Harmless))
  {
    var s := a + [between] + b;
    forall i | 0 <= i < |s| ensures Harmless(s[i]) || s[i] == between {
      assert s[i] == if i < |a| then a[i] else if i == |a| then between else b[i - |a| - 1];
    }
  }

  /** One or two ordinary characters. */
  lemma ShortWord(w: string, a: char, b: char)
    requires (w == [a] || w == [a, b]) && TokenKind(a) == TokenKind(b) == Word && Harmless(a) && Harmless(b)
    requires '*' != a && '*' != b && '?' != a && '?' != b
    ensures Uniform(w, TokenKind) && Each(w, Harmless) && '#' !in w && SafeToken(w)
  {
    WordIsSafe(w);
  }

  lemma ListWord(list: string)
    requires list == "ls"
    ensures Tokens(list) == [list] && SafeToken(list) && Root(list) == "ls"
    ensures Uniform(list, TokenKind) && Each(list, Harmless) && '#' !in list
  {
    ShortWord(list, 'l', 's');
    WordToken(list);
    RootOfList(list);
  }

  lemma RemoveWords(rm: string, x: string)
    requires rm == "rm" && x == "x"
    ensures Tokens(rm + " " + x) == [rm, x] && SafeToken(rm) && SafeToken(x) && rm != ""
    ensures Each(rm + " " + x, Harmless)
  {
    ShortWord(rm, 'r', 'm');
    ShortWord(x, 'x', 'x');
    WordToken(x);
    TokenThen(rm, x);
    HarmlessParts(rm, ' ', x);
  }

  lemma HarmlessNextLine(tokenize: string -> Option<seq<string>>, first: string, second: string, ts: seq<string>)
    requires Tokenizes(tokenize) && Each(first, Harmless) && Each(second, Harmless)
    requires Tokens(first) == [first] && Root(first) == "ls" && SafeToken(first)
    requires Tokens(second) == ts && forall t <- ts :: SafeToken(t)
    requires first != "" && !IsBlank(first[0]) && second != "" && !IsBlank(second[0])
    ensures Normalized(tokenize, first + "\n" + second).Some? && !OneSimpleCommand(first + "\n" + second)
  {
    HarmlessText(first);
    HarmlessParts(first, '\n', second);
    NextLineAccepted(tokenize, first, second, 0, 0);
  }

  /** A listing, and a removal on the next line, pass. */
  lemma NewlineAccepted(tokenize: string -> Option<seq<string>>, first: string, rm: string, x: string, second: string)
    requires Tokenizes(tokenize) && first == "ls" && rm == "rm" && x == "x" && second == rm + " " + x
    ensures Normalized(tokenize, first + "\n" + second).Some? && !OneSimpleCommand(first + "\n" + second)
  {
    ListWord(first);
    RemoveWords(rm, x);
    assert second[0] == rm[0];
    HarmlessNextLine(tokenize, first, second, [rm, x]);
  }

  lemma EndedWord(b: string)
    requires b == "b;"
    ensures |b| == 2 && b[1] == ';' && Each(b, Harmless)
  {
  }

  lemma SpecialRest(b: string, more: string, rest: string)
    requires |b| == 2 && b[1] == ';' && Each(b, Harmless) && Each(more, Harmless) && rest == b + " " + more
    ensures Each(rest, Harmless) && !Each(ShellPart(rest, false), NotSpecial)
  {
    HarmlessParts(b, ' ', more);
    assert Harmless(b[0]) && rest[0] == b[0] && rest[1..][0] == ';';
    var next := ShellPart(rest[1..], IsBlank(rest[0]) || IsPunctuation(rest[0]));
    assert next[0] == ';' && ShellPart(rest, false)[1] == next[0];
  }

  lemma HarmlessHash(tokenize: string -> Option<seq<string>>, front: string, rest: string)
    requires Tokenizes(tokenize) && Each(front, Harmless) && Each(rest, Harmless)
    requires Tokens(front) == [front] && Uniform(front, TokenKind) && TokenKind(front[0]) == Word
    requires Root(front) == "ls" && SafeToken(front) && !Each(ShellPart(rest, false), NotSpecial)
    ensures Normalized(tokenize, front + "#" + rest).Some? && !OneSimpleCommand(front + "#" + rest)
  {
    HarmlessText(front);
    HarmlessParts(front, '#', rest);
    ListingAccepted(tokenize, front);
    FlattenEach(front + "#" + rest, NoSubstitution);
    PlainText(Flatten(front + "#" + rest));
    HiddenCommandAccepted(tokenize, front, rest);
  }

  /** A listing, and a removal behind a # inside a word, pass. */
  lemma HashAccepted(tokenize: string -> Option<seq<string>>, front: string, b: string, rm: string, x: string, rest: string)
    requires Tokenizes(tokenize) && front == "ls" && b == "b;" && rm == "rm" && x == "x"
    requires rest == b + " " + (rm + " " + x)
    ensures Normalized(tokenize, front + "#" + rest).Some? && !OneSimpleCommand(front + "#" + rest)
  {
    ListWord(front);
    RemoveWords(rm, x);
    EndedWord(b);
    SpecialRest(b, rm + " " + x, rest);
    HarmlessHash(tokenize, front, rest);
  }

  lemma AmpersandToken(t: string)
    requires t == "&"
    ensures Uniform(t, TokenKind) && Each(t, Harmless) && '#' !in t && SafeToken(t) && Overlooked(t)
  {
    AmpersandUnlisted(t);
  }

  lemma OverlookedAccepted(tokenize: string -> Option<seq<string>>, command: string, op: string)
    requires Tokenizes(tokenize) && Each(command, Harmless) && op in Tokens(command) && Overlooked(op)
    requires Tokens(command) != [] && Root(Tokens(command)[0]) == "ls" && forall t <- Tokens(command) :: SafeToken(t)
    ensures Normalized(tokenize, command).Some? && !OneSimpleCommand(command)
  {
    HarmlessText(command);
    ListingAccepted(tokenize, command);
    AcceptedIsSimpleIff(tokenize, command);
  }

  lemma TokensInTurn(list: string, op: string, more: string, ts: seq<string>, behind: string, command: string)
    requires Uniform(list, TokenKind) && Uniform(op, TokenKind)
    requires Each(list, Harmless) && Each(op, Harmless) && Each(more, Harmless) && Tokens(more) == ts
    requires behind == op + " " + more && command == list + " " + behind
    ensures Tokens(command) == [list, op] + ts && Each(command, Harmless)
  {
    HarmlessText(list);
    HarmlessText(op);
    TokenThen(op, more);
    TokenThen(list, behind);
    HarmlessParts(op, ' ', more);
    HarmlessParts(list, ' ', behind);
  }

  /** A listing sent to the background, and a removal after it, pass. */
  lemma BackgroundAccepted(tokenize: string -> Option<seq<string>>, list: string, op: string, rm: string, x: string,
                           behind: string, command: string)
    requires Tokenizes(tokenize) && list == "ls" && op == "&" && rm == "rm" && x == "x"
    requires behind == op + " " + (rm + " " + x) && command == list + " " + behind
    ensures Normalized(tokenize, command).Some? && !OneSimpleCommand(command)
  {
    ListWord(list);
    AmpersandToken(op);
    RemoveWords(rm, x);
    TokensInTurn(list, op, rm + " " + x, [rm, x], behind, command);
    OverlookedAccepted(tokenize, command, op);
  }

  // ---------- Wrappers and acceptance ----------

  /** A wrapped command is accepted exactly when its own text and tokens pass the guards and the plain
      command is accepted, and then under the same name. */
  lemma WrappedSharesName(text: string, plain: string, ws: seq<Wrapper>, command: seq<string>)
    requires (forall w <- ws :: ValidWrapper(w)) && Plain(command)
    requires plain != "" && !Substitutes(plain)
    ensures NormalizedCommand(text, Some(WrapAll(ws, command)))
            == if Guarded(text, WrapAll(ws, command)) then NormalizedCommand(plain, Some(command)) else None
  {
    CommandInside(ws, command);
    WrappersDoNotMatter(ws, command);
    if Guarded(text, WrapAll(ws, command)) {
      DecidedByParts(text, WrapAll(ws, command));
      DecidedByParts(plain, command);
    }
  }

  lemma DecidedByParts(text: string, parts: seq<string>)
    requires text != "" && !Substitutes(text) && parts != [] && forall t <- parts :: SafeToken(t)
    ensures NormalizedCommand(text, Some(parts))
            == if Strip(parts) == [] || !CacheableShape(Strip(parts)) then None else Some(Join(Strip(parts), " "))
  {
  }

  lemma {:induction false} CommandInside(ws: seq<Wrapper>, command: seq<string>)
    ensures forall t <- command :: t in WrapAll(ws, command)
    ensures command != [] ==> WrapAll(ws, command) != []
  {
    if ws != [] {
      CommandInside(ws[1..], command);
      var inner := WrapAll(ws[1..], command);
      assert forall t <- inner :: t in Wrap(ws[0], inner);
    }
  }
}
