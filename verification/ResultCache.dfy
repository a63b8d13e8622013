/** The tool-result cache (src/tok/compression/__init__.py, _apply_result_cache and what it calls). */
module ResultCache {
  import opened Text

  const MAX_SIZE := 256

  const FILE_LIKE := {"view", "view_file", "read", "read_file", "cat", "open_file", "get_file"}
  const SEARCH_LIKE := {"grep", "grep_search", "search", "rg", "find_by_name", "glob", "find", "code_search"}
  const COMMAND_LIKE := {
    "bash", "run_bash", "sh", "run_terminal", "computer", "run", "shell", "zsh", "bash_script",
    "execute_command", "cmd", "terminal", "exec"}
  const DIFF_WITHOUT_CONTEXT := {
    "view_file", "read_file", "cat", "bash", "run_terminal", "computer", "sh", "edit_file", "write_file"}
  const RELEASE_DOCS := {
    "public-release-decision.md", "release-checklist.md", "claims_matrix.md", "pricing_verification.md",
    "live_smoke_matrix.md", "readme.md"}

  // ---------- Inputs ----------

  /** A tool call: its name, its arguments as text, and the path and command found in them. */
  datatype Context = Context(name: Option<string>, args: string, path: string, command: string)

  /** Functions of other modules, and hashes. hash8 and hash16 are prefixes of the content's digest. */
  datatype World = World(
    strip: string -> string,
    key: Context -> string,
    hash8: string -> string,
    hash16: string -> string,
    toolResult: (string, string, Context) -> string,
    precision: Context -> bool,
    commandArgs: (Context, string) -> Option<(string, string)>,
    normalizeError: string -> string,
    preserveEvidence: (string, Context) -> bool,
    exactEvidence: string -> bool,
    grep: (string, Context) -> string,
    skeleton: string -> string,
    summary: string -> string,
    diff: (string, string) -> Option<seq<string>>,
    countChanged: seq<string> -> string)

  /** One call. The clock is read up to three times; mtime is None when there is no file to ask. */
  datatype Read = Read(
    raw: string, context: Context, level: string, bypass: bool, ttl: real, toolCompatible: bool,
    checked: real, written: real, served: real, mtime: Option<real>)

  function NormalName(c: Context): string {
    if c.name.Some? then Lower(c.name.value) else ""
  }

  function ShownName(c: Context): string {
    if c.name.Some? then c.name.value else "None"
  }

  predicate FileLike(c: Context) {
    NormalName(c) in FILE_LIKE
  }

  predicate CommandLike(c: Context) {
    NormalName(c) in COMMAND_LIKE
  }

  predicate SearchLike(c: Context) {
    NormalName(c) in SEARCH_LIKE
  }

  /** `path.replace("\\", "/").lower()` */
  function NormalPath(path: string): (r: string)
    ensures |r| == |path|
  {
    Lower(seq(|path|, i requires 0 <= i < |path| => if path[i] == '\\' then '/' else path[i]))
  }

  predicate ReleaseCritical(c: Context) {
    c.path != "" &&
    var path := NormalPath(c.path);
    Basename(path) in RELEASE_DOCS
    && (Contains(path, "/docs/") || StartsWith(path, "docs/") || Basename(path) == "readme.md")
  }

  // ---------- The cache: an insertion-ordered dict ----------

  /** Tuples are entries of older versions. */
  datatype Entry =
    | NoFields
    | HashOnly(hash: string)
    | HashRaw(hash: string, raw: string)
    | Timed(hash: string, raw: string, since: Option<real>)
    | Stored(hash: string, raw: string, since: Option<real>, complete: bool)

  datatype Fields = Fields(hash: string, raw: string, since: Option<real>, complete: bool)

  /** _unpack_cache_entry: a tuple never counts as completely read, unless it is empty. */
  function Unpack(e: Entry): Fields {
    match e
    case NoFields => Fields("", "", None, true)
    case HashOnly(hash) => Fields(hash, "", None, false)
    case HashRaw(hash, raw) => Fields(hash, raw, None, false)
    case Timed(hash, raw, since) => Fields(hash, raw, since, false)
    case Stored(hash, raw, since, complete) => Fields(hash, raw, since, complete)
  }

  datatype Cache = Cache(order: seq<string>, entries: map<string, Entry>)

  ghost predicate ValidCache(c: Cache) {
    && (forall i, j :: 0 <= i < j < |c.order| ==> c.order[i] != c.order[j])
    && (forall k :: k in c.order <==> k in c.entries)
  }

  /** `cache[key] = entry`: an existing key keeps its place. */
  function Put(c: Cache, key: string, e: Entry): Cache {
    Cache(if key in c.entries then c.order else c.order + [key], c.entries[key := e])
  }

  /** Oldest keys go until the cache is within its bound. */
  function Evict(c: Cache): Cache
    decreases |c.order|
  {
    if |c.order| <= MAX_SIZE then c else Evict(Cache(c.order[1..], c.entries - {c.order[0]}))
  }

  // ---------- Texts ----------

  function Confidence(hash: string): string {
    if hash != "" then "|confidence:high|reason:hash-match" else "|confidence:low|reason:default"
  }

  const UNCHANGED := "|unchanged|cached"
  const LOSSY := "|fidelity:summary|lossy:true"
  const HINT := "@stable_hint |> File unchanged — summary shown to save tokens. Read offset=1 for full content."

  function PathPart(c: Context): string {
    if c.path != "" then "|path:" + c.path else ""
  }

  function Head(c: Context, f: Fields): string {
    ">>> tool:" + ShownName(c) + UNCHANGED + Confidence(f.hash) + PathPart(c)
  }

  function FileStub(w: World, c: Context, f: Fields): string {
    var skeleton := if |f.raw| >= 100 then w.skeleton(f.raw) else "";
    if skeleton == "" then Head(c, f) + "\n" + HINT
    else
      Head(c, f) + LOSSY + "\n"
      + (HINT + "\n" + ("@stable_summary |> " + w.summary(f.raw) + "\n" + ("@stable_skeleton |> " + skeleton)))
  }

  function CommandStub(c: Context, f: Fields): string {
    ">>> tool:" + ShownName(c) + UNCHANGED + Confidence(f.hash)
    + if c.command == "" then "" else "|command:" + if |c.command| <= 160 then c.command else c.command[..160]
  }

  function OtherStub(c: Context, f: Fields): string {
    ">>> tool:" + ShownName(c) + UNCHANGED + Confidence(f.hash) + PathPart(c)
  }

  function SearchHeader(c: Context, f: Fields): string {
    ">>> tool:" + ShownName(c) + "|matches_compressed|cached" + Confidence(f.hash) + "\n"
  }

  function DiffHeader(c: Context, changed: string): string {
    ">>> tool:" + ShownName(c) + "|delta|changed_lines:" + changed + "|confidence:low|reason:heuristic\n"
  }

  function DiffText(w: World, c: Context, lines: seq<string>): string {
    var shown := if NormalName(c) in DIFF_WITHOUT_CONTEXT then WithoutContext(lines) else lines;
    DiffHeader(c, w.countChanged(lines)) + Join(shown, "")
  }

  function WithoutContext(lines: seq<string>): seq<string> {
    if lines == [] then []
    else (if StartsWith(lines[0], " ") then [] else [lines[0]]) + WithoutContext(lines[1..])
  }

  function ErrorStub(c: Context, error: string): string {
    ">>> tool:" + (if c.name.Some? && c.name.value != "" then c.name.value else "unknown")
    + "|status:error|reason:" + (if |error| >= 6 then error[5..|error| - 1] else "") + "|fallback:verbatim"
  }

  // ---------- One call, as a function of the cache ----------

  datatype Kind =
    | Passed | Delivered | StoredNew | Replayed | FileUnchanged | CommandUnchanged | OtherUnchanged
    | SearchRepeat | Changed | Overflowed

  /** The text and the characters reported saved; key is the entry consulted, None if none was. */
  datatype Output = Output(text: string, saved: int, kind: Kind, key: Option<string>)

  function Passthrough(w: World, text: string, r: Read): Output {
    var compressed := w.toolResult(text, r.level, r.context);
    Output(compressed, |text| - |compressed|, Passed, None)
  }

  function StoredOutput(w: World, key: string, text: string, c: Context, level: string, preferError: bool): Output {
    var error := w.normalizeError(text);
    var compressed := w.toolResult(text, level, c);
    if FileLike(c) then Output(text, 0, StoredNew, Some(key))
    else if preferError && error != "" && !w.preserveEvidence(text, c)
    then Output(error, |text| - |error|, StoredNew, Some(key))
    else Output(compressed, |text| - |compressed|, StoredNew, Some(key))
  }

  function StoreEntry(w: World, cache: Cache, key: string, text: string, written: real): Cache {
    Evict(Put(cache, key, Stored(w.hash8(text), text, Some(written), false)))
  }

  predicate Stale(since: Option<real>, r: Read) {
    since.None? || r.checked - since.value > r.ttl
  }

  predicate MtimeChanged(since: Option<real>, c: Context, r: Read) {
    since.Some? && FileLike(c) && r.mtime.Some? && r.mtime.value > since.value
  }

  /** _is_content_hash_match */
  predicate SameContent(w: World, a: string, b: string) {
    (a == "" && b == "") || (a != "" && b != "" && w.hash16(a) == w.hash16(b))
  }

  /** _should_replay_host_stub */
  predicate HostStub(w: World, c: Context, cached: string, text: string) {
    FileLike(c) && cached != "" &&
    (text == "" || Contains(Lower(text), "unchanged since last read") || Contains(Lower(text), UNCHANGED)
     || (|text| < 80 && |cached| > 200 && SameContent(w, text, cached)))
  }

  /** _serve_cached_content_hash_match: the text to serve, and the entry if serving writes it again. */
  function ServeOutput(w: World, key: string, text: string, c: Context, f: Fields, host: bool, r: Read): Output {
    var exact := Output(text, 0, Delivered, Some(key));
    var replay := Output(f.raw, 0, Replayed, Some(key));
    if w.precision(c) then if host then replay else exact
    else if FileLike(c) then
      var stub := FileStub(w, c, f);
      if host then replay
      else if !f.complete || (r.toolCompatible && |text| < 2000) || |stub| >= |text| then exact
      else Output(stub, |text| - |stub|, FileUnchanged, Some(key))
    else if SearchLike(c) && w.exactEvidence(f.raw) && f.complete then exact
    else if SearchLike(c) && |w.grep(text, c)| < |text| then
      Output(SearchHeader(c, f) + w.grep(text, c), |text| - |w.grep(text, c)|, SearchRepeat, Some(key))
    else if CommandLike(c) then
      var stub := CommandStub(c, f);
      if |stub| >= |text| then exact else Output(stub, |text| - |stub|, CommandUnchanged, Some(key))
    else
      var stub := OtherStub(c, f);
      Output(stub, |text| - |stub|, OtherUnchanged, Some(key))
  }

  /** The entry after a hit: read completely now, its age renewed. */
  function HitEntry(w: World, text: string, c: Context, f: Fields, host: bool, r: Read): Entry {
    if w.precision(c) then Stored(f.hash, if host then f.raw else text, Some(r.served), true)
    else if FileLike(c) && (host || !f.complete) then Stored(f.hash, f.raw, Some(r.served), true)
    else Stored(f.hash, if host then f.raw else text, Some(r.written), true)
  }

  function ChangedOutput(w: World, key: string, text: string, c: Context, f: Fields, level: string): Output {
    var lines := w.diff(f.raw, text);
    if lines.Some? && |lines.value| <= 1000 then
      var shown := DiffText(w, c, lines.value);
      Output(shown, |text| - |shown|, Changed, Some(key))
    else
      var error := w.normalizeError(text);
      if error != "" && !w.preserveEvidence(text, c) then
        var stub := ErrorStub(c, error);
        Output(stub + "\n", if |text| < |stub| then 0 else |text| - |stub|, Overflowed, Some(key))
      else
        var compressed := w.toolResult(text, level, c);
        var header := ">>> tool:" + ShownName(c) + "|delta_overflow|changed|confidence:low|reason:heuristic\n";
        Output(header + compressed, |text| - (|header| + |compressed|), Overflowed, Some(key))
  }

  /** _process_cache_hit */
  function Hit(w: World, cache: Cache, key: string, text: string, c: Context, f: Fields, r: Read): (Cache, Output) {
    var host := HostStub(w, c, f.raw, text);
    if FileLike(c) && ReleaseCritical(c) then
      (cache, if host then Output(f.raw, 0, Replayed, Some(key)) else Output(text, 0, Delivered, Some(key)))
    else if host || SameContent(w, text, f.raw) then
      (Put(cache, key, HitEntry(w, text, c, f, host, r)), ServeOutput(w, key, text, c, f, host, r))
    else if CommandLike(c) then
      (StoreEntry(w, cache, key, text, r.written), StoredOutput(w, key, text, c, r.level, false))
    else (cache, ChangedOutput(w, key, text, c, f, r.level))
  }

  /** The call reaches the cache under this context; None if it is answered without it. */
  function CachedContext(w: World, r: Read): Option<Context> {
    var text := w.strip(r.raw);
    if CommandLike(r.context) then
      if StartsWith(text, ">>> tool:") || r.bypass then None
      else
        match w.commandArgs(r.context, text)
        case None => None
        case Some((args, command)) => Some(r.context.(args := args, command := command))
    else if r.bypass then None
    else Some(r.context)
  }

  function Uncached(w: World, r: Read): Output {
    var text := w.strip(r.raw);
    if CommandLike(r.context) && StartsWith(text, ">>> tool:") then Output(text, 0, Passed, None)
    else Passthrough(w, text, r)
  }

  /** A stored entry is answered from only while it is young and its file is older than it. */
  predicate Fresh(cache: Cache, key: string, c: Context, r: Read) {
    key in cache.entries && var since := Unpack(cache.entries[key]).since;
    !Stale(since, r) && !MtimeChanged(since, c, r)
  }

  function Apply(w: World, cache: Cache, r: Read): (Cache, Output) {
    match CachedContext(w, r)
    case None => (cache, Uncached(w, r))
    case Some(c) =>
      var text, key := w.strip(r.raw), w.key(c);
      if !Fresh(cache, key, c, r) then
        (StoreEntry(w, cache, key, text, r.written), StoredOutput(w, key, text, c, r.level, key !in cache.entries))
      else Hit(w, cache, key, text, c, Unpack(cache.entries[key]), r)
  }

  lemma JoinTwo(a: string, b: string, sep: string)
    ensures Join([a, b], sep) == a + sep + b
  {
    assert [a, b][1..] == [b];
  }

  lemma JoinFour(a: string, b: string, c: string, d: string, sep: string)
    ensures Join([a, b, c, d], sep) == a + sep + (b + sep + (c + sep + d))
  {
    assert [a, b, c, d][1..] == [b, c, d] && [b, c, d][1..] == [c, d];
    JoinTwo(c, d, sep);
  }

  /** The stub of a file, put together from its lines. */
  method BuildFileStub(w: World, c: Context, f: Fields) returns (stub: string)
    ensures stub == FileStub(w, c, f)
  {
    var head := ">>> tool:" + ShownName(c) + UNCHANGED + Confidence(f.hash);
    if c.path != "" {
      head := head + ("|path:" + c.path);
    } else {
      assert head + "" == head;
    }
    var parts := [head, HINT];
    JoinTwo(head, HINT, "\n");
    if |f.raw| >= 100 {
      var skeleton := w.skeleton(f.raw);
      if skeleton != "" {
        var summary, shown := "@stable_summary |> " + w.summary(f.raw), "@stable_skeleton |> " + skeleton;
        parts := [head + LOSSY, HINT, summary, shown];
        JoinFour(head + LOSSY, HINT, summary, shown, "\n");
      }
    }
    stub := Join(parts, "\n");
  }

  // ---------- The mutable cache ----------

  class ResultCache {
    var order: seq<string>
    var entries: map<string, Entry>

    constructor ()
      ensures Now() == Cache([], map[])
    {
      order, entries := [], map[];
    }

    function Now(): Cache
      reads this
    {
      Cache(order, entries)
    }

    method Set(key: string, e: Entry)
      modifies this
      ensures Now() == Put(old(Now()), key, e)
    {
      if key !in entries {
        order := order + [key];
      }
      entries := entries[key := e];
    }

    method EvictOldest()
      modifies this
      ensures Now() == Evict(old(Now()))
    {
      while |order| > MAX_SIZE
        invariant Evict(Now()) == Evict(old(Now()))
        decreases |order|
      {
        var oldest := order[0];
        order, entries := order[1..], entries - {oldest};
      }
    }

    method StoreCacheEntry(w: World, key: string, text: string, c: Context, r: Read, preferError: bool)
      returns (out: Output)
      modifies this
      ensures Now() == StoreEntry(w, old(Now()), key, text, r.written)
      ensures out == StoredOutput(w, key, text, c, r.level, preferError)
      ensures old(ValidCache(Now()) && Bounded(Now())) ==>
                && ValidCache(Now()) && Bounded(Now())
                && key in entries && entries[key] == Stored(w.hash8(text), text, Some(r.written), false)
                && forall k :: k in entries && k != key ==> k in old(entries) && entries[k] == old(entries)[k]
      ensures out.saved == |text| - |out.text| && (FileLike(c) ==> out.text == text)
    {
      var error, hash := w.normalizeError(text), w.hash8(text);
      if ValidCache(Now()) && Bounded(Now()) {
        StoreKeepsInvariant(w, Now(), key, text, r.written);
      }
      Set(key, Stored(hash, text, Some(r.written), false));
      EvictOldest();
      if FileLike(c) {
        return Output(text, 0, StoredNew, Some(key));
      }
      if preferError && error != "" && !w.preserveEvidence(text, c) {
        return Output(error, |text| - |error|, StoredNew, Some(key));
      }
      var compressed := w.toolResult(text, r.level, c);
      return Output(compressed, |text| - |compressed|, StoredNew, Some(key));
    }

    method ServeCachedContent(w: World, key: string, text: string, c: Context, f: Fields, host: bool, r: Read)
      returns (out: Output)
      requires key in entries
      modifies this
      ensures out == ServeOutput(w, key, text, c, f, host, r)
      ensures if w.precision(c) || (FileLike(c) && (host || !f.complete))
              then Now() == Put(old(Now()), key, HitEntry(w, text, c, f, host, r)) else Now() == old(Now())
      ensures FileLike(c) && !host ==> |out.text| <= |text| && out.saved == |text| - |out.text|
      ensures FileLike(c) && !host && out.text != text ==> f.complete && out.text == FileStub(w, c, f)
    {
      if w.precision(c) {
        var content := if host then f.raw else text;
        Set(key, Stored(f.hash, content, Some(r.served), true));
        return Output(content, 0, if host then Replayed else Delivered, Some(key));
      }
      if FileLike(c) {
        out := ServeFile(w, key, text, c, f, host, r);
        return;
      }
      if SearchLike(c) {
        if w.exactEvidence(f.raw) && f.complete {
          return Output(text, 0, Delivered, Some(key));
        }
        var compressed := w.grep(text, c);
        if |compressed| < |text| {
          return Output(SearchHeader(c, f) + compressed, |text| - |compressed|, SearchRepeat, Some(key));
        }
      }
      var stub := ">>> tool:" + ShownName(c) + UNCHANGED + Confidence(f.hash);
      if CommandLike(c) {
        if c.command != "" {
          stub := stub + ("|command:" + if |c.command| <= 160 then c.command else c.command[..160]);
        } else {
          assert stub + "" == stub;
        }
        if |stub| >= |text| {
          return Output(text, 0, Delivered, Some(key));
        }
        return Output(stub, |text| - |stub|, CommandUnchanged, Some(key));
      }
      if c.path != "" {
        stub := stub + ("|path:" + c.path);
      } else {
        assert stub + "" == stub;
      }
      return Output(stub, |text| - |stub|, OtherUnchanged, Some(key));
    }

    method ServeFile(w: World, key: string, text: string, c: Context, f: Fields, host: bool, r: Read)
      returns (out: Output)
      requires key in entries && FileLike(c) && !w.precision(c)
      modifies this
      ensures out == ServeOutput(w, key, text, c, f, host, r)
      ensures Now() == if host || !f.complete then Put(old(Now()), key, Stored(f.hash, f.raw, Some(r.served), true))
                       else old(Now())
    {
      if host {
        Set(key, Stored(f.hash, f.raw, Some(r.served), true));
        return Output(f.raw, 0, Replayed, Some(key));
      }
      if !f.complete {
        Set(key, Stored(f.hash, f.raw, Some(r.served), true));
        return Output(text, 0, Delivered, Some(key));
      }
      var stub := BuildFileStub(w, c, f);
      if (r.toolCompatible && |text| < 2000) || |stub| >= |text| {
        return Output(text, 0, Delivered, Some(key));
      }
      return Output(stub, |text| - |stub|, FileUnchanged, Some(key));
    }

    method ProcessCacheHit(w: World, key: string, text: string, c: Context, f: Fields, r: Read) returns (out: Output)
      requires key in entries
      modifies this
      ensures (Now(), out) == Hit(w, old(Now()), key, text, c, f, r)
    {
      var host := HostStub(w, c, f.raw, text);
      if FileLike(c) && ReleaseCritical(c) {
        if host {
          return Output(f.raw, 0, Replayed, Some(key));
        }
        return Output(text, 0, Delivered, Some(key));
      }
      if host || SameContent(w, text, f.raw) {
        Set(key, Stored(f.hash, if host then f.raw else text, Some(r.written), true));
        out := ServeCachedContent(w, key, text, c, f, host, r);
        assert Now().entries == old(entries)[key := HitEntry(w, text, c, f, host, r)];
        return;
      }
      if CommandLike(c) {
        out := StoreCacheEntry(w, key, text, c, r, false);
        return;
      }
      return ChangedOutput(w, key, text, c, f, r.level);
    }

    method ApplyResultCache(w: World, r: Read) returns (out: Output)
      modifies this
      ensures (Now(), out) == Apply(w, old(Now()), r)
    {
      var context := CachedContext(w, r);
      if context.None? {
        return Uncached(w, r);
      }
      var c, text := context.value, w.strip(r.raw);
      var key := w.key(c);
      if key !in entries {
        out := StoreCacheEntry(w, key, text, c, r, true);
        return;
      }
      var f := Unpack(entries[key]);
      if Stale(f.since, r) || MtimeChanged(f.since, c, r) {
        out := StoreCacheEntry(w, key, text, c, r, false);
        return;
      }
      out := ProcessCacheHit(w, key, text, c, f, r);
    }
  }

  // ---------- Runs ----------

  function Run(w: World, start: Cache, calls: seq<Read>): (r: (Cache, seq<Output>))
    ensures |r.1| == |calls|
  {
    if calls == [] then (start, [])
    else
      var (cache, outs) := Run(w, start, calls[..|calls| - 1]);
      var (next, out) := Apply(w, cache, calls[|calls| - 1]);
      (next, outs + [out])
  }

  lemma RunLast(w: World, start: Cache, calls: seq<Read>)
    requires calls != []
    ensures var before := calls[..|calls| - 1];
            Run(w, start, calls).1
            == Run(w, start, before).1 + [Apply(w, Run(w, start, before).0, calls[|calls| - 1]).1]
  {
  }

  lemma TakeSnoc<T>(s: seq<T>, x: T, i: nat)
    requires i <= |s|
    ensures (s + [x])[..i] == s[..i]
  {
  }

  /** The outputs so far do not depend on later calls. */
  lemma {:induction false} RunPrefix(w: World, start: Cache, calls: seq<Read>, i: nat)
    requires i < |calls|
    ensures Run(w, start, calls[..i]).1 == Run(w, start, calls).1[..i]
    ensures Run(w, start, calls).1[i] == Apply(w, Run(w, start, calls[..i]).0, calls[i]).1
  {
    var n := |calls| - 1;
    var outs := Run(w, start, calls[..n]).1;
    RunLast(w, start, calls);
    TakeSnoc(outs, Run(w, start, calls).1[n], i);
    if i < n {
      TakeTake(calls, n, i);
      RunPrefix(w, start, calls[..n], i);
    }
  }

  // ---------- Size and order ----------

  predicate Bounded(c: Cache) {
    |c.order| <= MAX_SIZE
  }

  lemma PutKeepsValid(c: Cache, key: string, e: Entry)
    requires ValidCache(c)
    ensures ValidCache(Put(c, key, e)) && key in Put(c, key, e).entries
  {
  }

  lemma EvictOnce(c: Cache)
    requires ValidCache(c) && |c.order| == MAX_SIZE + 1
    ensures Evict(c) == Cache(c.order[1..], c.entries - {c.order[0]})
    ensures ValidCache(Evict(c)) && Bounded(Evict(c)) && forall k :: k in Evict(c).entries ==> Evict(c).entries[k] == c.entries[k]
  {
    var r := Cache(c.order[1..], c.entries - {c.order[0]});
    assert Evict(c) == r;
    forall k ensures k in r.order <==> k in r.entries {
      assert c.order == [c.order[0]] + c.order[1..];
    }
  }

  /** Storing keeps the bound and the new key, and evicts at most the oldest other key. */
  lemma StoreKeepsInvariant(w: World, c: Cache, key: string, text: string, written: real)
    requires ValidCache(c) && Bounded(c)
    ensures var r := StoreEntry(w, c, key, text, written);
            && ValidCache(r) && Bounded(r)
            && key in r.entries && r.entries[key] == Stored(w.hash8(text), text, Some(written), false)
            && (forall k :: k in r.entries && k != key ==> k in c.entries && r.entries[k] == c.entries[k])
            && r.order == if key in c.entries then c.order
                          else if |c.order| == MAX_SIZE then c.order[1..] + [key] else c.order + [key]
  {
    var p := Put(c, key, Stored(w.hash8(text), text, Some(written), false));
    PutKeepsValid(c, key, Stored(w.hash8(text), text, Some(written), false));
    if |p.order| > MAX_SIZE {
      EvictOnce(p);
      assert p.order[1..] == c.order[1..] + [key];
    }
  }

  /** What a call may do to the cache: nothing, rewrite one entry after a hit, or store a new one. */
  datatype Change = Unchanged | Rewritten(key: string) | Added(key: string)

  function ChangeOf(w: World, c: Cache, r: Read): Change {
    match CachedContext(w, r)
    case None => Unchanged
    case Some(ctx) =>
      var text, key := w.strip(r.raw), w.key(ctx);
      if !Fresh(c, key, ctx, r) then Added(key)
      else
        var f := Unpack(c.entries[key]);
        if FileLike(ctx) && ReleaseCritical(ctx) then Unchanged
        else if HostStub(w, ctx, f.raw, text) || SameContent(w, text, f.raw) then Rewritten(key)
        else if CommandLike(ctx) then Added(key)
        else Unchanged
  }

  /** What the change leaves behind. */
  ghost predicate Follows(w: World, c: Cache, next: Cache, change: Change) {
    match change
    case Unchanged => next == c
    case Rewritten(key) => key in c.entries && exists e :: next == Put(c, key, e)
    case Added(key) => exists text, written :: next == StoreEntry(w, c, key, text, written)
  }

  lemma ApplyFollows(w: World, c: Cache, r: Read)
    ensures Follows(w, c, Apply(w, c, r).0, ChangeOf(w, c, r))
  {
  }

  lemma FollowsKeepsInvariant(w: World, c: Cache, next: Cache, change: Change)
    requires ValidCache(c) && Bounded(c) && Follows(w, c, next, change)
    ensures ValidCache(next) && Bounded(next)
    ensures change.Added? ==> change.key in next.entries
  {
    match change
    case Unchanged =>
    case Rewritten(key) =>
      var e :| next == Put(c, key, e);
      PutKeepsValid(c, key, e);
    case Added(key) =>
      var text, written :| next == StoreEntry(w, c, key, text, written);
      StoreKeepsInvariant(w, c, key, text, written);
  }

  /** One call keeps the cache well formed and within its bound; a key just stored is in it. */
  lemma StepKeepsInvariant(w: World, c: Cache, r: Read)
    requires ValidCache(c) && Bounded(c)
    ensures ValidCache(Apply(w, c, r).0) && Bounded(Apply(w, c, r).0)
    ensures ChangeOf(w, c, r).Added? ==> ChangeOf(w, c, r).key in Apply(w, c, r).0.entries
  {
    ApplyFollows(w, c, r);
    FollowsKeepsInvariant(w, c, Apply(w, c, r).0, ChangeOf(w, c, r));
  }

  /** The key that comes in with a change, if one does. */
  function Arriving(c: Cache, change: Change): seq<string> {
    if change.Added? && change.key !in c.entries then [change.key] else []
  }

  /** The keys in the order they came in: a key comes in when it is stored while absent. */
  function Arrivals(w: World, start: Cache, calls: seq<Read>): seq<string> {
    if calls == [] then start.order
    else
      var before := calls[..|calls| - 1];
      var c := Run(w, start, before).0;
      Arrivals(w, start, before) + Arriving(c, ChangeOf(w, c, calls[|calls| - 1]))
  }

  lemma SuffixSnoc(r: seq<string>, s: seq<string>, x: string)
    requires IsSuffix(r, s)
    ensures IsSuffix(r + [x], s + [x]) && (r != [] ==> IsSuffix(r[1..], s))
  {
    assert s[|s| - |r|..] + [x] == (s + [x])[|s| - |r|..];
  }

  /** The keys held are the latest to arrive, and no more of them are gone than the bound demands. */
  predicate LatestArrivals(order: seq<string>, arrivals: seq<string>) {
    IsSuffix(order, arrivals) && |order| == if |arrivals| < MAX_SIZE then |arrivals| else MAX_SIZE
  }

  lemma FollowsKeepsQueue(w: World, c: Cache, next: Cache, change: Change, arrivals: seq<string>)
    requires ValidCache(c) && Bounded(c) && Follows(w, c, next, change) && LatestArrivals(c.order, arrivals)
    ensures LatestArrivals(next.order, arrivals + Arriving(c, change))
  {
    if change.Added? && change.key !in c.entries {
      var text, written :| next == StoreEntry(w, c, change.key, text, written);
      StoreKeepsInvariant(w, c, change.key, text, written);
      SuffixSnoc(c.order, arrivals, change.key);
      if |c.order| == MAX_SIZE {
        SuffixSnoc(c.order[1..], arrivals, change.key);
      }
    } else {
      OrderStays(w, c, next, change);
      assert arrivals + [] == arrivals;
    }
  }

  lemma OrderStays(w: World, c: Cache, next: Cache, change: Change)
    requires ValidCache(c) && Bounded(c) && Follows(w, c, next, change) && Arriving(c, change) == []
    ensures next.order == c.order
  {
    if change.Added? {
      var text, written :| next == StoreEntry(w, c, change.key, text, written);
      StoreKeepsInvariant(w, c, change.key, text, written);
    }
  }

  /** Over every run the cache stays within its bound and holds the latest arrivals, as many as it can:
      eviction is in arrival order and only at the bound, and a refresh does not move a key. */
  lemma {:induction false} CacheIsQueue(w: World, start: Cache, calls: seq<Read>)
    requires ValidCache(start) && Bounded(start)
    ensures var c := Run(w, start, calls).0;
            ValidCache(c) && Bounded(c) && LatestArrivals(c.order, Arrivals(w, start, calls))
  {
    if calls != [] {
      var before := calls[..|calls| - 1];
      CacheIsQueue(w, start, before);
      var c, next := Run(w, start, before).0, Run(w, start, calls).0;
      var change := ChangeOf(w, c, calls[|calls| - 1]);
      ApplyFollows(w, c, calls[|calls| - 1]);
      FollowsKeepsInvariant(w, c, next, change);
      FollowsKeepsQueue(w, c, next, change, Arrivals(w, start, before));
    }
  }

  /** So it holds 256 keys, or as many as arrived. */
  lemma CacheHolds256(w: World, start: Cache, calls: seq<Read>)
    requires ValidCache(start) && Bounded(start)
    ensures var n := |Arrivals(w, start, calls)|; |Run(w, start, calls).0.order| == if n < 256 then n else 256
  {
    CacheIsQueue(w, start, calls);
  }

  // ---------- Entries describe their own text ----------

  /** The texts of a run: what its calls bring, and what the cache held before. */
  function Texts(w: World, start: Cache, calls: seq<Read>): set<string> {
    (set r <- calls :: w.strip(r.raw)) + (set k <- start.entries.Keys :: Unpack(start.entries[k]).raw)
  }

  /** The digest prefixes compared in a run tell its texts apart, and its keys name one family of tools. */
  ghost predicate CollisionFree(w: World, start: Cache, calls: seq<Read>) {
    && (forall a, b :: a in Texts(w, start, calls) && b in Texts(w, start, calls) && w.hash16(a) == w.hash16(b) ==> a == b)
    && (forall q, r :: q in calls && r in calls && CachedContext(w, q).Some? && CachedContext(w, r).Some?
                       && w.key(CachedContext(w, q).value) == w.key(CachedContext(w, r).value) ==>
                         NormalName(CachedContext(w, q).value) == NormalName(CachedContext(w, r).value))
  }

  /** Every entry holds a text of the run. */
  ghost predicate Known(w: World, start: Cache, calls: seq<Read>, c: Cache) {
    forall k :: k in c.entries ==> Unpack(c.entries[k]).raw in Texts(w, start, calls)
  }

  /** The digest tells the text of the call from the text of the entry it meets. */
  ghost predicate Tells(w: World, c: Cache, r: Read) {
    ChangeOf(w, c, r).Rewritten? ==>
      var raw := Unpack(c.entries[ChangeOf(w, c, r).key]).raw;
      w.hash16(w.strip(r.raw)) == w.hash16(raw) ==> w.strip(r.raw) == raw
  }

  /** The entry carries the hash of its text, unless it still stems from an entry of the start. */
  predicate Describes(w: World, start: Cache, key: string, e: Entry) {
    var f := Unpack(e);
    f.hash == w.hash8(f.raw)
    || (key in start.entries && f.hash == Unpack(start.entries[key]).hash && f.raw == Unpack(start.entries[key]).raw)
  }

  ghost predicate AllDescribe(w: World, start: Cache, c: Cache) {
    forall k :: k in c.entries ==> Describes(w, start, k, c.entries[k])
  }

  /** A hit rewrites its entry with the same text and hash. */
  lemma HitKeepsText(w: World, text: string, ctx: Context, f: Fields, r: Read)
    requires w.hash16(text) == w.hash16(f.raw) ==> text == f.raw
    requires HostStub(w, ctx, f.raw, text) || SameContent(w, text, f.raw)
    ensures var g := Unpack(HitEntry(w, text, ctx, f, HostStub(w, ctx, f.raw, text), r));
            g.hash == f.hash && g.raw == f.raw && g.complete && g.since.Some?
  {
  }

  lemma ApplyRewrites(w: World, c: Cache, r: Read)
    requires Tells(w, c, r) && ChangeOf(w, c, r).Rewritten?
    ensures var key := ChangeOf(w, c, r).key; var next := Apply(w, c, r).0;
            && key in c.entries && key in next.entries && next == Put(c, key, next.entries[key])
            && var f, g := Unpack(c.entries[key]), Unpack(next.entries[key]);
               f.since.Some? && g.hash == f.hash && g.raw == f.raw && g.complete
  {
    var ctx := CachedContext(w, r).value;
    HitKeepsText(w, w.strip(r.raw), ctx, Unpack(c.entries[w.key(ctx)]), r);
  }

  lemma ApplyStores(w: World, c: Cache, r: Read)
    requires ChangeOf(w, c, r).Added?
    ensures Apply(w, c, r).0 == StoreEntry(w, c, ChangeOf(w, c, r).key, w.strip(r.raw), r.written)
  {
  }

  lemma KnownTells(w: World, start: Cache, calls: seq<Read>, c: Cache, r: Read)
    requires CollisionFree(w, start, calls) && Known(w, start, calls, c) && r in calls
    ensures Tells(w, c, r)
  {
  }

  lemma StoringKeepsKnown(w: World, start: Cache, calls: seq<Read>, c: Cache, r: Read, key: string)
    requires Known(w, start, calls, c) && r in calls && ValidCache(c) && Bounded(c)
    ensures Known(w, start, calls, StoreEntry(w, c, key, w.strip(r.raw), r.written))
  {
    StoreKeepsInvariant(w, c, key, w.strip(r.raw), r.written);
  }

  lemma RewritingKeepsKnown(w: World, start: Cache, calls: seq<Read>, c: Cache, next: Cache, key: string)
    requires Known(w, start, calls, c) && key in c.entries && key in next.entries
    requires next == Put(c, key, next.entries[key]) && Unpack(next.entries[key]).raw == Unpack(c.entries[key]).raw
    ensures Known(w, start, calls, next)
  {
  }

  /** A call leaves the texts of the run in the cache. */
  lemma StepKeepsKnown(w: World, start: Cache, calls: seq<Read>, c: Cache, r: Read)
    requires Tells(w, c, r) && Known(w, start, calls, c) && r in calls && ValidCache(c) && Bounded(c)
    ensures Known(w, start, calls, Apply(w, c, r).0)
  {
    var change := ChangeOf(w, c, r);
    ApplyFollows(w, c, r);
    if change.Added? {
      ApplyStores(w, c, r);
      StoringKeepsKnown(w, start, calls, c, r, change.key);
    } else if change.Rewritten? {
      ApplyRewrites(w, c, r);
      RewritingKeepsKnown(w, start, calls, c, Apply(w, c, r).0, change.key);
    }
  }

  lemma {:induction false} RunKnown(w: World, start: Cache, calls: seq<Read>, n: nat)
    requires n <= |calls| && CollisionFree(w, start, calls) && ValidCache(start) && Bounded(start)
    ensures Known(w, start, calls, Run(w, start, calls[..n]).0)
  {
    if n > 0 {
      RunKnown(w, start, calls, n - 1);
      TakeTake(calls, n, n - 1);
      CacheIsQueue(w, start, calls[..n - 1]);
      KnownTells(w, start, calls, Run(w, start, calls[..n - 1]).0, calls[n - 1]);
      StepKeepsKnown(w, start, calls, Run(w, start, calls[..n - 1]).0, calls[n - 1]);
    }
  }

  lemma StepKeepsHashes(w: World, start: Cache, c: Cache, r: Read)
    requires Tells(w, c, r) && ValidCache(c) && Bounded(c) && AllDescribe(w, start, c)
    ensures AllDescribe(w, start, Apply(w, c, r).0)
  {
    var change := ChangeOf(w, c, r);
    ApplyFollows(w, c, r);
    if change.Added? {
      ApplyStores(w, c, r);
      StoringDescribes(w, start, c, change.key, w.strip(r.raw), r.written);
    } else if change.Rewritten? {
      ApplyRewrites(w, c, r);
      RewritingDescribes(w, start, c, Apply(w, c, r).0, change.key);
    }
  }

  lemma StoringDescribes(w: World, start: Cache, c: Cache, key: string, text: string, written: real)
    requires ValidCache(c) && Bounded(c) && AllDescribe(w, start, c)
    ensures AllDescribe(w, start, StoreEntry(w, c, key, text, written))
  {
    StoreKeepsInvariant(w, c, key, text, written);
  }

  lemma RewritingDescribes(w: World, start: Cache, c: Cache, next: Cache, key: string)
    requires AllDescribe(w, start, c) && key in c.entries && key in next.entries
    requires next == Put(c, key, next.entries[key])
    requires Unpack(next.entries[key]).hash == Unpack(c.entries[key]).hash
    requires Unpack(next.entries[key]).raw == Unpack(c.entries[key]).raw
    ensures AllDescribe(w, start, next)
  {
  }

  lemma {:induction false} HashesDescribeUpTo(w: World, start: Cache, calls: seq<Read>, n: nat)
    requires n <= |calls| && CollisionFree(w, start, calls) && ValidCache(start) && Bounded(start)
    ensures AllDescribe(w, start, Run(w, start, calls[..n]).0)
  {
    if n > 0 {
      HashesDescribeUpTo(w, start, calls, n - 1);
      TakeTake(calls, n, n - 1);
      var c := Run(w, start, calls[..n - 1]).0;
      CacheIsQueue(w, start, calls[..n - 1]);
      RunKnown(w, start, calls, n - 1);
      KnownTells(w, start, calls, c, calls[n - 1]);
      StepKeepsHashes(w, start, c, calls[n - 1]);
    }
  }

  /** Over every run, each entry written in it has the hash of its own raw text. */
  lemma HashesDescribe(w: World, start: Cache, calls: seq<Read>)
    requires CollisionFree(w, start, calls) && ValidCache(start) && Bounded(start)
    ensures AllDescribe(w, start, Run(w, start, calls).0)
  {
    HashesDescribeUpTo(w, start, calls, |calls|);
    TakeAll(calls);
  }

  // ---------- The first-read guarantee ----------

  /** How often text itself was the answer for key. */
  function Deliveries(outs: seq<Output>, key: string, text: string): nat {
    if outs == [] then 0
    else
      var out := outs[|outs| - 1];
      Deliveries(outs[..|outs| - 1], key, text) + if out.key == Some(key) && out.text == text then 1 else 0
  }

  /** 1 if the start of the run already held text under key. */
  function Inherited(start: Cache, key: string, text: string): nat {
    if key in start.entries && Unpack(start.entries[key]).raw == text then 1 else 0
  }

  predicate Earned(start: Cache, outs: seq<Output>, key: string, e: Entry) {
    var f := Unpack(e);
    f.since.Some? ==> Deliveries(outs, key, f.raw) + Inherited(start, key, f.raw) >= if f.complete then 2 else 1
  }

  /** Every live entry of a file the run reads holds a text that was delivered; twice, if it counts as read. */
  ghost predicate AllEarned(w: World, start: Cache, calls: seq<Read>, c: Cache, outs: seq<Output>) {
    forall q :: q in calls && CachedContext(w, q).Some? && FileLike(CachedContext(w, q).value)
                && w.key(CachedContext(w, q).value) in c.entries ==>
      Earned(start, outs, w.key(CachedContext(w, q).value), c.entries[w.key(CachedContext(w, q).value)])
  }

  /** No entry written by an earlier run of this version: tuples only. */
  ghost predicate Legacy(c: Cache) {
    forall k :: k in c.entries ==> !c.entries[k].Stored?
  }

  lemma DeliveriesGrow(outs: seq<Output>, out: Output, key: string, text: string)
    ensures Deliveries(outs + [out], key, text)
            == Deliveries(outs, key, text) + if out.key == Some(key) && out.text == text then 1 else 0
  {
    assert (outs + [out])[..|outs|] == outs;
  }

  lemma EarnedGrows(start: Cache, outs: seq<Output>, out: Output, key: string, e: Entry)
    requires Earned(start, outs, key, e)
    ensures Earned(start, outs + [out], key, e)
  {
    DeliveriesGrow(outs, out, key, Unpack(e).raw);
  }

  /** A file read that stores an entry delivers the text it stores. */
  lemma StoringDelivers(w: World, c: Cache, r: Read, ctx: Context)
    requires CachedContext(w, r) == Some(ctx) && FileLike(ctx) && ChangeOf(w, c, r).Added?
    ensures var out := Apply(w, c, r).1; out.key == Some(w.key(ctx)) && out.text == w.strip(r.raw)
  {
  }

  /** A file read that rewrites an entry delivers the entry's text, unless that was complete before. */
  lemma RewritingDelivers(w: World, c: Cache, r: Read, ctx: Context)
    requires Tells(w, c, r) && CachedContext(w, r) == Some(ctx) && FileLike(ctx) && ChangeOf(w, c, r).Rewritten?
    ensures var out, f := Apply(w, c, r).1, Unpack(c.entries[w.key(ctx)]);
            && out.key == Some(w.key(ctx)) && (out.text == f.raw || f.complete)
            && (out.kind.FileUnchanged? ==> f.complete && w.strip(r.raw) == f.raw && out.text == FileStub(w, ctx, f))
  {
    var text, f := w.strip(r.raw), Unpack(c.entries[w.key(ctx)]);
    assert Apply(w, c, r).1 == ServeOutput(w, w.key(ctx), text, ctx, f, HostStub(w, ctx, f.raw, text), r);
  }

  lemma DeliveredIsEarned(start: Cache, outs: seq<Output>, out: Output, key: string, e: Entry)
    requires out.key == Some(key) && out.text == Unpack(e).raw && !Unpack(e).complete
    ensures Earned(start, outs + [out], key, e)
  {
    DeliveriesGrow(outs, out, key, out.text);
  }

  lemma StoringEarns(w: World, start: Cache, c: Cache, r: Read, outs: seq<Output>, k: string)
    requires ValidCache(c) && Bounded(c) && ChangeOf(w, c, r) == Added(k) && k in Apply(w, c, r).0.entries
    requires FileLike(CachedContext(w, r).value)
    ensures Earned(start, outs + [Apply(w, c, r).1], k, Apply(w, c, r).0.entries[k])
  {
    var (next, out) := Apply(w, c, r);
    ApplyStores(w, c, r);
    StoreKeepsInvariant(w, c, k, w.strip(r.raw), r.written);
    assert next.entries[k] == Stored(w.hash8(w.strip(r.raw)), w.strip(r.raw), Some(r.written), false);
    StoringDelivers(w, c, r, CachedContext(w, r).value);
    DeliveredIsEarned(start, outs, out, k, next.entries[k]);
  }

  lemma RewritingEarns(w: World, start: Cache, c: Cache, r: Read, outs: seq<Output>, k: string)
    requires Tells(w, c, r) && ChangeOf(w, c, r) == Rewritten(k) && k in c.entries
    requires Earned(start, outs, k, c.entries[k]) && FileLike(CachedContext(w, r).value)
    ensures k in Apply(w, c, r).0.entries
    ensures Earned(start, outs + [Apply(w, c, r).1], k, Apply(w, c, r).0.entries[k])
  {
    ApplyRewrites(w, c, r);
    RewritingDelivers(w, c, r, CachedContext(w, r).value);
    DeliveriesGrow(outs, Apply(w, c, r).1, k, Unpack(c.entries[k]).raw);
  }

  /** An entry the call does not touch. */
  lemma OthersStay(w: World, c: Cache, next: Cache, change: Change, k: string)
    requires ValidCache(c) && Bounded(c) && Follows(w, c, next, change) && k in next.entries
    requires change.Unchanged? || change.key != k
    ensures k in c.entries && next.entries[k] == c.entries[k]
  {
    if change.Added? {
      var text, written :| next == StoreEntry(w, c, change.key, text, written);
      StoreKeepsInvariant(w, c, change.key, text, written);
    }
  }

  /** A call that touches the key of a file read is a read of that file's family. */
  lemma StepKeepsEarned(w: World, start: Cache, c: Cache, r: Read, outs: seq<Output>, k: string)
    requires Tells(w, c, r) && ValidCache(c) && Bounded(c) && k in Apply(w, c, r).0.entries
    requires k in c.entries ==> Earned(start, outs, k, c.entries[k])
    requires !ChangeOf(w, c, r).Unchanged? && ChangeOf(w, c, r).key == k ==> FileLike(CachedContext(w, r).value)
    ensures Earned(start, outs + [Apply(w, c, r).1], k, Apply(w, c, r).0.entries[k])
  {
    var change := ChangeOf(w, c, r);
    ApplyFollows(w, c, r);
    if change.Unchanged? || change.key != k {
      OthersStay(w, c, Apply(w, c, r).0, change, k);
      EarnedGrows(start, outs, Apply(w, c, r).1, k, c.entries[k]);
    } else if change.Added? {
      StoringEarns(w, start, c, r, outs, k);
    } else {
      RewritingEarns(w, start, c, r, outs, k);
    }
  }

  lemma ChangeNamesKey(w: World, c: Cache, r: Read)
    requires !ChangeOf(w, c, r).Unchanged?
    ensures CachedContext(w, r).Some? && ChangeOf(w, c, r).key == w.key(CachedContext(w, r).value)
  {
  }

  lemma StepEarns(w: World, start: Cache, calls: seq<Read>, c: Cache, r: Read, outs: seq<Output>)
    requires CollisionFree(w, start, calls) && r in calls && ValidCache(c) && Bounded(c) && Tells(w, c, r)
    requires AllEarned(w, start, calls, c, outs)
    ensures AllEarned(w, start, calls, Apply(w, c, r).0, outs + [Apply(w, c, r).1])
  {
    var (next, out) := Apply(w, c, r);
    forall q | q in calls && CachedContext(w, q).Some? && FileLike(CachedContext(w, q).value)
               && w.key(CachedContext(w, q).value) in next.entries
      ensures Earned(start, outs + [out], w.key(CachedContext(w, q).value), next.entries[w.key(CachedContext(w, q).value)])
    {
      if !ChangeOf(w, c, r).Unchanged? {
        ChangeNamesKey(w, c, r);
      }
      StepKeepsEarned(w, start, c, r, outs, w.key(CachedContext(w, q).value));
    }
  }

  lemma {:induction false} RunEarns(w: World, start: Cache, calls: seq<Read>, n: nat)
    requires n <= |calls| && CollisionFree(w, start, calls) && ValidCache(start) && Bounded(start) && Legacy(start)
    ensures AllEarned(w, start, calls, Run(w, start, calls[..n]).0, Run(w, start, calls[..n]).1)
  {
    if n > 0 {
      RunEarns(w, start, calls, n - 1);
      TakeTake(calls, n, n - 1);
      var c, outs := Run(w, start, calls[..n - 1]).0, Run(w, start, calls[..n - 1]).1;
      CacheIsQueue(w, start, calls[..n - 1]);
      RunKnown(w, start, calls, n - 1);
      KnownTells(w, start, calls, c, calls[n - 1]);
      StepEarns(w, start, calls, c, calls[n - 1], outs);
    }
  }

  /** A file read is answered "unchanged" only if its text was already the answer for its key: twice,
      or once if the run started with that text in a legacy entry. */
  lemma FirstReadGuarantee(w: World, start: Cache, calls: seq<Read>, i: nat)
    requires CollisionFree(w, start, calls) && ValidCache(start) && Bounded(start) && Legacy(start) && i < |calls|
    ensures var outs, text := Run(w, start, calls).1, w.strip(calls[i].raw);
            outs[i].kind.FileUnchanged? ==>
              && outs[i].key.Some?
              && Deliveries(outs[..i], outs[i].key.value, text) + Inherited(start, outs[i].key.value, text) >= 2
  {
    var c := Run(w, start, calls[..i]).0;
    RunPrefix(w, start, calls, i);
    RunEarns(w, start, calls, i);
    RunKnown(w, start, calls, i);
    KnownTells(w, start, calls, c, calls[i]);
    StubMeansRewritten(w, c, calls[i]);
    if Run(w, start, calls).1[i].kind.FileUnchanged? {
      var ctx := CachedContext(w, calls[i]).value;
      RewritingDelivers(w, c, calls[i], ctx);
      assert Earned(start, Run(w, start, calls[..i]).1, w.key(ctx), c.entries[w.key(ctx)]);
    }
  }

  lemma StubMeansRewritten(w: World, c: Cache, r: Read)
    ensures Apply(w, c, r).1.kind.FileUnchanged? ==>
              var ctx := CachedContext(w, r);
              ctx.Some? && FileLike(ctx.value) && ChangeOf(w, c, r) == Rewritten(w.key(ctx.value))
  {
  }

  /** A young entry, for a file that did not change since. */
  predicate Young(since: real, r: Read) {
    r.checked - since <= r.ttl && (r.mtime.Some? ==> r.mtime.value <= since)
  }

  /** The cache that holds nothing but what a first, or a later, read of a file leaves. */
  function Holding(w: World, c: Context, text: string, since: real, complete: bool): Cache {
    Cache([w.key(c)], map[w.key(c) := Stored(w.hash8(text), text, Some(since), complete)])
  }

  lemma FileIsNoCommand(c: Context)
    requires FileLike(c)
    ensures !CommandLike(c)
  {
  }

  lemma FirstRead(w: World, r: Read)
    requires FileLike(r.context) && !r.bypass
    ensures var text := w.strip(r.raw);
            Apply(w, Cache([], map[]), r)
            == (Holding(w, r.context, text, r.written, false), Output(text, 0, StoredNew, Some(w.key(r.context))))
  {
    FileIsNoCommand(r.context);
    assert [] + [w.key(r.context)] == [w.key(r.context)];
  }

  lemma YoungIsHit(w: World, r: Read, text: string, since: real, complete: bool)
    requires FileLike(r.context) && !r.bypass && w.strip(r.raw) == text && Young(since, r)
    ensures var c, key := Holding(w, r.context, text, since, complete), w.key(r.context);
            Apply(w, c, r) == Hit(w, c, key, text, r.context, Fields(w.hash8(text), text, Some(since), complete), r)
  {
    FileIsNoCommand(r.context);
  }

  lemma ReadAgain(w: World, r: Read, text: string, f: Fields)
    requires FileLike(r.context) && !w.precision(r.context) && !HostStub(w, r.context, text, text) && f.raw == text
    ensures var out, entry := ServeOutput(w, w.key(r.context), text, r.context, f, false, r), HitEntry(w, text, r.context, f, false, r);
            && (!f.complete ==> entry == Stored(f.hash, text, Some(r.served), true)
                                && out == Output(text, 0, Delivered, Some(w.key(r.context))))
            && (f.complete && !(r.toolCompatible && |text| < 2000) && |FileStub(w, r.context, f)| < |text| ==>
                  out.kind.FileUnchanged?)
  {
  }

  lemma HitServes(w: World, c: Cache, r: Read, text: string, f: Fields)
    requires FileLike(r.context) && !ReleaseCritical(r.context) && !HostStub(w, r.context, text, text) && f.raw == text
    ensures Hit(w, c, w.key(r.context), text, r.context, f, r)
            == (Put(c, w.key(r.context), HitEntry(w, text, r.context, f, false, r)),
                ServeOutput(w, w.key(r.context), text, r.context, f, false, r))
  {
  }

  lemma SecondRead(w: World, r: Read, text: string, since: real)
    requires FileLike(r.context) && !r.bypass && w.strip(r.raw) == text && Young(since, r)
    requires !ReleaseCritical(r.context) && !w.precision(r.context) && !HostStub(w, r.context, text, text)
    ensures Apply(w, Holding(w, r.context, text, since, false), r)
            == (Holding(w, r.context, text, r.served, true), Output(text, 0, Delivered, Some(w.key(r.context))))
  {
    var f := Fields(w.hash8(text), text, Some(since), false);
    YoungIsHit(w, r, text, since, false);
    HitServes(w, Holding(w, r.context, text, since, false), r, text, f);
    ReadAgain(w, r, text, f);
    var e := Stored(f.hash, text, Some(r.served), true);
    assert Put(Holding(w, r.context, text, since, false), w.key(r.context), e).entries == map[w.key(r.context) := e];
  }

  lemma RunSnoc(w: World, start: Cache, calls: seq<Read>, r: Read)
    ensures var (cache, outs) := Run(w, start, calls);
            Run(w, start, calls + [r]) == (Apply(w, cache, r).0, outs + [Apply(w, cache, r).1])
  {
    assert (calls + [r])[..|calls|] == calls;
  }

  lemma RunThree(w: World, a: Read, b: Read, c: Read, first: Cache, second: Cache)
    requires Apply(w, Cache([], map[]), a).0 == first && Apply(w, first, b).0 == second
    ensures Run(w, Cache([], map[]), [a, b, c]).1
            == [Apply(w, Cache([], map[]), a).1, Apply(w, first, b).1, Apply(w, second, c).1]
  {
    RunSnoc(w, Cache([], map[]), [], a);
    RunSnoc(w, Cache([], map[]), [a], b);
    RunSnoc(w, Cache([], map[]), [a, b], c);
    assert [] + [a] == [a] && [a] + [b] == [a, b] && [a, b] + [c] == [a, b, c];
  }

  /** Three reads of one unchanged file in a row, of a text longer than its stub, while entries are young. */
  predicate SameFileThrice(w: World, c: Context, text: string, first: Read, second: Read, third: Read) {
    && FileLike(c) && !ReleaseCritical(c) && !w.precision(c) && !HostStub(w, c, text, text)
    && (forall r :: r in [first, second, third] ==> r.context == c && w.strip(r.raw) == text && !r.bypass)
    && Young(first.written, second) && Young(second.served, third) && !(third.toolCompatible && |text| < 2000)
    && |FileStub(w, c, Fields(w.hash8(text), text, Some(second.served), true))| < |text|
  }

  /** The guarantee is tight: from an empty cache, the third such read is answered by the stub. */
  lemma ThirdReadIsStubbed(w: World, c: Context, text: string, first: Read, second: Read, third: Read)
    ensures SameFileThrice(w, c, text, first, second, third) ==>
              var outs := Run(w, Cache([], map[]), [first, second, third]).1;
              outs[0].text == outs[1].text == text && outs[2].kind.FileUnchanged?
  {
    if SameFileThrice(w, c, text, first, second, third) {
      assert first in [first, second, third] && second in [first, second, third] && third in [first, second, third];
      var stored, read := Holding(w, c, text, first.written, false), Holding(w, c, text, second.served, true);
      FirstRead(w, first);
      SecondRead(w, second, text, first.written);
      YoungIsHit(w, third, text, second.served, true);
      HitServes(w, read, third, text, Fields(w.hash8(text), text, Some(second.served), true));
      ReadAgain(w, third, text, Fields(w.hash8(text), text, Some(second.served), true));
      RunThree(w, first, second, third, stored, read);
    }
  }

  // ---------- Serving rules on a fresh hit ----------

  ghost predicate FreshHit(w: World, c: Cache, r: Read, ctx: Context) {
    CachedContext(w, r) == Some(ctx) && Fresh(c, w.key(ctx), ctx, r)
  }

  /** A call is answered from the cache only while the entry has an age of at most its time to live and,
      for a file, the file is no newer than the entry; otherwise its own text is stored in the entry's
      place, and a file read gets it in full. */
  lemma AnsweredAfreshIff(w: World, c: Cache, r: Read, ctx: Context)
    requires CachedContext(w, r) == Some(ctx) && !CommandLike(ctx)
    ensures var key, (next, out) := w.key(ctx), Apply(w, c, r);
            && (out.kind.StoredNew? <==>
                  key in c.entries ==>
                    var since := Unpack(c.entries[key]).since;
                    || since == None || r.checked > since.value + r.ttl
                    || (FileLike(ctx) && r.mtime != None && since.value < r.mtime.value))
            && (out.kind.StoredNew? ==>
                  && next == StoreEntry(w, c, key, w.strip(r.raw), r.written)
                  && (FileLike(ctx) ==> out.text == w.strip(r.raw)))
  {
    var text, key := w.strip(r.raw), w.key(ctx);
    if Fresh(c, key, ctx, r) {
      HitStoresNothing(w, c, key, text, ctx, Unpack(c.entries[key]), r);
    }
  }

  lemma HitStoresNothing(w: World, c: Cache, key: string, text: string, ctx: Context, f: Fields, r: Read)
    requires !CommandLike(ctx)
    ensures !Hit(w, c, key, text, ctx, f, r).1.kind.StoredNew?
  {
  }

  lemma CommandIsNoSearch(c: Context)
    requires CommandLike(c)
    ensures !SearchLike(c)
  {
  }

  lemma ServingNeverGrows(w: World, key: string, text: string, ctx: Context, f: Fields, r: Read)
    requires FileLike(ctx) || (CommandLike(ctx) && !SearchLike(ctx))
    ensures var out := ServeOutput(w, key, text, ctx, f, false, r);
            |out.text| <= |text| && out.saved == |text| - |out.text|
  {
  }

  /** Content that matches is never answered with more characters, and the saving is exact. */
  lemma MatchNeverGrows(w: World, c: Cache, r: Read, ctx: Context)
    requires FreshHit(w, c, r, ctx) && (FileLike(ctx) || CommandLike(ctx))
    requires SameContent(w, w.strip(r.raw), Unpack(c.entries[w.key(ctx)]).raw)
    requires !HostStub(w, ctx, Unpack(c.entries[w.key(ctx)]).raw, w.strip(r.raw))
    ensures var out, text := Apply(w, c, r).1, w.strip(r.raw);
            |out.text| <= |text| && out.saved == |text| - |out.text|
  {
    if CommandLike(ctx) {
      CommandIsNoSearch(ctx);
    }
    ServingNeverGrows(w, w.key(ctx), w.strip(r.raw), ctx, Unpack(c.entries[w.key(ctx)]), r);
  }

  /** What an answer to the file's own text looks like: the text, its stub, or what changed in it. */
  ghost predicate AnswersText(w: World, key: string, text: string, ctx: Context, f: Fields, level: string, out: Output) {
    || (out.text == text && out.saved == 0)
    || (SameContent(w, text, f.raw) && out.text == FileStub(w, ctx, f))
    || (!SameContent(w, text, f.raw) && out == ChangedOutput(w, key, text, ctx, f, level))
  }

  /** A fresh file read is answered with the cached text, whatever its own text is, if and only if its
      text is taken for a host's "unchanged" notice; otherwise it is answered for its own text. */
  lemma ReplayedIff(w: World, c: Cache, r: Read, ctx: Context)
    requires FreshHit(w, c, r, ctx) && FileLike(ctx)
    ensures var f, text, out := Unpack(c.entries[w.key(ctx)]), w.strip(r.raw), Apply(w, c, r).1;
            && (out.kind.Replayed? <==> HostStub(w, ctx, f.raw, text))
            && (out.kind.Replayed? ==> out.text == f.raw && out.saved == 0)
            && (!out.kind.Replayed? ==> AnswersText(w, w.key(ctx), text, ctx, f, r.level, out))
  {
    FileIsNoCommand(ctx);
    var f, text := Unpack(c.entries[w.key(ctx)]), w.strip(r.raw);
    assert Apply(w, c, r) == Hit(w, c, w.key(ctx), text, ctx, f, r);
  }

  /** A text is taken for a host's notice if it is empty or holds, in any letter case, one of two phrases.
      The third test, for short texts, finds nothing more unless a hash collides. */
  lemma NoticeIff(w: World, c: Context, cached: string, text: string)
    requires text != "" && cached != "" && w.hash16(text) == w.hash16(cached) ==> text == cached
    ensures HostStub(w, c, cached, text) <==>
            && FileLike(c) && cached != ""
            && (text == "" || Contains(Lower(text), "unchanged since last read") || Contains(Lower(text), "|unchanged|cached"))
  {
  }

  /** A file that was completely read and is unchanged is answered by its stub if and only if that is
      shorter than its text, and the text is not below 2000 characters for a tool-compatible host. */
  lemma StubServedIff(w: World, c: Cache, r: Read, ctx: Context)
    requires FreshHit(w, c, r, ctx) && FileLike(ctx) && !ReleaseCritical(ctx) && !w.precision(ctx)
    requires var f := Unpack(c.entries[w.key(ctx)]);
             SameContent(w, w.strip(r.raw), f.raw) && !HostStub(w, ctx, f.raw, w.strip(r.raw))
    ensures var f, text, out := Unpack(c.entries[w.key(ctx)]), w.strip(r.raw), Apply(w, c, r).1;
            && (out.kind.FileUnchanged? <==>
                  f.complete && |FileStub(w, ctx, f)| < |text| && !(r.toolCompatible && |text| < 2000))
            && (out.kind.FileUnchanged? ==> out.text == FileStub(w, ctx, f) && out.saved == |text| - |out.text|)
            && (!out.kind.FileUnchanged? ==> out.text == text && out.saved == 0)
  {
    FileIsNoCommand(ctx);
  }

  /** Precision reads are never shortened. */
  lemma PrecisionInFull(w: World, c: Cache, r: Read, ctx: Context)
    requires FreshHit(w, c, r, ctx) && w.precision(ctx) && !(FileLike(ctx) && ReleaseCritical(ctx))
    requires var f := Unpack(c.entries[w.key(ctx)]); SameContent(w, w.strip(r.raw), f.raw) || HostStub(w, ctx, f.raw, w.strip(r.raw))
    ensures var f, out := Unpack(c.entries[w.key(ctx)]), Apply(w, c, r).1;
            out.saved == 0 && out.text == if HostStub(w, ctx, f.raw, w.strip(r.raw)) then f.raw else w.strip(r.raw)
  {
  }

  /** Unless it is a file, a first result that is an error is answered by the error's short form, provided
      its text is not kept as evidence; a later result that is stored anew never is. */
  lemma FirstErrorShortened(w: World, c: Cache, r: Read, ctx: Context)
    requires CachedContext(w, r) == Some(ctx) && !FileLike(ctx) && !Fresh(c, w.key(ctx), ctx, r)
    ensures var text := w.strip(r.raw);
            var shown := if w.key(ctx) !in c.entries && w.normalizeError(text) != "" && !w.preserveEvidence(text, ctx)
                         then w.normalizeError(text) else w.toolResult(text, r.level, ctx);
            Apply(w, c, r).1 == Output(shown, |text| - |shown|, StoredNew, Some(w.key(ctx)))
  {
  }

  /** A repeated search is answered in full if it held exact content and was completely read, and
      otherwise by its compressed matches if they are shorter. */
  lemma SearchServed(w: World, c: Cache, r: Read, ctx: Context)
    requires FreshHit(w, c, r, ctx) && SearchLike(ctx) && !CommandLike(ctx) && !FileLike(ctx) && !w.precision(ctx)
    requires SameContent(w, w.strip(r.raw), Unpack(c.entries[w.key(ctx)]).raw)
    ensures var f, text, out := Unpack(c.entries[w.key(ctx)]), w.strip(r.raw), Apply(w, c, r).1;
            && (w.exactEvidence(f.raw) && f.complete ==> out.text == text && out.saved == 0)
            && (!(w.exactEvidence(f.raw) && f.complete) ==>
                  (out.kind.SearchRepeat? <==> |w.grep(text, ctx)| < |text|)
                  && (out.kind.SearchRepeat? ==> IsSuffix(w.grep(text, ctx), out.text)))
  {
    var text, f := w.strip(r.raw), Unpack(c.entries[w.key(ctx)]);
    var header, matches := SearchHeader(ctx, f), w.grep(text, ctx);
    assert (header + matches)[|header|..] == matches;
    assert Apply(w, c, r) == Hit(w, c, w.key(ctx), text, ctx, f, r);
  }

  /** The stub of a command ends with its first 160 characters. */
  lemma CommandStubNames(c: Context, f: Fields)
    requires c.command != ""
    ensures IsSuffix("|command:" + c.command[..if |c.command| < 160 then |c.command| else 160], CommandStub(c, f))
  {
    var front := ">>> tool:" + ShownName(c) + UNCHANGED + Confidence(f.hash);
    var shown := c.command[..if |c.command| < 160 then |c.command| else 160];
    assert |c.command| <= 160 ==> shown == c.command || |c.command| == 160;
    assert CommandStub(c, f) == front + ("|command:" + shown);
    assert (front + ("|command:" + shown))[|front|..] == "|command:" + shown;
  }

  /** A call that bypasses the cache leaves it as it is. */
  lemma BypassLeavesCache(w: World, c: Cache, r: Read)
    requires r.bypass
    ensures Apply(w, c, r).0 == c && Apply(w, c, r).1.key == None
  {
  }

  /** The text is taken for a host's notice while the cache holds another text. */
  predicate Mistaken(w: World, c: Cache, r: Read, ctx: Context) {
    && Fresh(c, w.key(ctx), ctx, r)
    && var raw := Unpack(c.entries[w.key(ctx)]).raw; HostStub(w, ctx, raw, w.strip(r.raw)) && raw != w.strip(r.raw)
  }

  /** A release-critical document is answered in full, unless its text is taken for a host's notice. */
  lemma ReleaseDocsInFullIff(w: World, c: Cache, r: Read)
    requires FileLike(r.context) && ReleaseCritical(r.context) && !r.bypass
    ensures Apply(w, c, r).1.text == w.strip(r.raw) <==> !Mistaken(w, c, r, r.context)
    ensures Apply(w, c, r).1.saved == 0
  {
    FileIsNoCommand(r.context);
  }

  /** A new text that holds the marker, here at its end, is answered with the text cached before. */
  lemma MarkedTextMissed(w: World, c: Cache, r: Read, ctx: Context)
    requires FreshHit(w, c, r, ctx) && FileLike(ctx)
    ensures var raw := Unpack(c.entries[w.key(ctx)]).raw;
            raw != "" && w.strip(r.raw) == raw + UNCHANGED ==>
              Apply(w, c, r).1.text == raw != w.strip(r.raw)
  {
    var raw := Unpack(c.entries[w.key(ctx)]).raw;
    if raw != "" && w.strip(r.raw) == raw + UNCHANGED {
      MarkedText(raw, "");
      assert raw + UNCHANGED + "" == raw + UNCHANGED;
      HostStubBringsContent(w, c, r, ctx);
      assert |raw + UNCHANGED| > |raw|;
    }
  }

  /** A host's own "unchanged" notice, or an empty answer, for a cached file brings the file back. */
  lemma HostStubBringsContent(w: World, c: Cache, r: Read, ctx: Context)
    requires FreshHit(w, c, r, ctx) && HostStub(w, ctx, Unpack(c.entries[w.key(ctx)]).raw, w.strip(r.raw))
    ensures Apply(w, c, r).1.text == Unpack(c.entries[w.key(ctx)]).raw && Apply(w, c, r).1.saved == 0
  {
  }

  lemma LowerConcat(a: string, b: string)
    ensures Lower(a + b) == Lower(a) + Lower(b)
  {
  }

  lemma StubIsRecognized(w: World, c: Context, f: Fields)
    ensures FileStub(w, c, f) != "" && Contains(Lower(FileStub(w, c, f)), UNCHANGED)
  {
    var stub := FileStub(w, c, f);
    var head := ">>> tool:" + ShownName(c);
    assert head + UNCHANGED <= stub;
    MarkedText(head, stub[|head + UNCHANGED|..]);
    assert stub == head + UNCHANGED + stub[|head + UNCHANGED|..];
  }

  lemma MarkedText(head: string, tail: string)
    ensures Contains(Lower(head + UNCHANGED + tail), UNCHANGED)
  {
    LowerConcat(head + UNCHANGED, tail);
    LowerConcat(head, UNCHANGED);
    assert Lower(UNCHANGED) == UNCHANGED;
    ContainsAnywhere(Lower(head), UNCHANGED, Lower(tail));
  }

  /** The stub is recoverable: a host that sends it back for the same call gets the file it stands for. */
  lemma StubRecoversContent(w: World, c: Cache, r: Read, ctx: Context, again: Read)
    requires Tells(w, c, r) && CachedContext(w, r) == Some(ctx)
    ensures var (next, out) := Apply(w, c, r);
            && out.kind.FileUnchanged? && w.strip(r.raw) != ""
            && w.strip(again.raw) == out.text && FreshHit(w, next, again, ctx) ==>
              Apply(w, next, again).1.text == w.strip(r.raw)
  {
    var (next, out) := Apply(w, c, r);
    if out.kind.FileUnchanged? && w.strip(r.raw) != "" && w.strip(again.raw) == out.text && FreshHit(w, next, again, ctx) {
      StubMeansRewritten(w, c, r);
      RewritingDelivers(w, c, r, ctx);
      ApplyRewrites(w, c, r);
      StubIsRecognized(w, ctx, Unpack(c.entries[w.key(ctx)]));
      HostStubBringsContent(w, next, again, ctx);
    }
  }
}
