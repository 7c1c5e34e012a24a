/**
 * The rust-analyzer client: its heuristic for "does type S implement or derive T?",
 * its capability assertion and its readiness after `initialized`.
 *
 * The heuristic looks, in order, at `#[derive(...)]` attributes in the ten lines above
 * the declaration, at `impl T for S` blocks in the current file, and at `impl` blocks
 * in the first fifty `.rs` files of the workspace. The `impl` patterns are matched
 * case-insensitively on the whole file text, so whitespace may span lines.
 */
module RustAnalyzer {
  import opened Wrappers
  import opened PyJson
  import opened Text
  import Declaration
  import Capabilities
  import Handlers

  /** How far above the declaration the derive scan starts. */
  const DeriveLookBack := 10
  /** How many workspace files are read at most. */
  const MaxFiles := 50

  /** rust-analyzer answers type-hierarchy requests with "unknown request"; the heuristic is used. */
  function SupportsLspTypeHierarchy(): (r: bool)
    ensures !r
  {
    false
  }

  // ---- derive attributes ----

  /** The first line of the derive scan: `max(0, s - 10)`. */
  function DeriveStart(s: int): (r: int)
    ensures r >= 0 && (s >= DeriveLookBack ==> r == s - DeriveLookBack)
    ensures s - DeriveLookBack <= r
    ensures r == 0 || r == s - DeriveLookBack
  {
    if s - DeriveLookBack > 0 then s - DeriveLookBack else 0
  }

  /**
   * The derive text begun at line j: the stripped lines that follow are appended
   * until the text holds `)]` or the file ends.
   */
  function Grow(lines: seq<string>, j: int, acc: string): (r: string)
    requires 0 <= j < |lines|
    ensures StartsWith(r, acc)
    ensures Contains(acc, ")]") ==> r == acc
    decreases |lines| - j
  {
    if Contains(acc, ")]") || j + 1 >= |lines| then acc
    else
      var r := Grow(lines, j + 1, acc + Strip(lines[j + 1]));
      assert r[..|acc|] == (acc + Strip(lines[j + 1]))[..|acc|];
      r
  }

  /** The derive attribute starting at line i names T. */
  predicate DeriveAt(lines: seq<string>, i: int, t: string)
    requires 0 <= i < |lines|
  {
    StartsWith(Strip(lines[i]), "#[derive(") && Contains(Grow(lines, i, Strip(lines[i])), t)
  }

  /** Some derive attribute from `max(0, s - 10)` to the declaration line s names T. */
  predicate DeriveEvidence(lines: seq<string>, s: int, t: string)
    requires 0 <= s < |lines|
  {
    exists i | DeriveStart(s) <= i <= s :: DeriveAt(lines, i, t)
  }

  /** The derive scan, as the loop with the inner `while` that grows the derive text. */
  method DeriveScan(lines: seq<string>, s: int, t: string) returns (found: bool)
    requires 0 <= s < |lines|
    ensures found <==> DeriveEvidence(lines, s, t)
  {
    for i := DeriveStart(s) to s + 1
      invariant forall k | DeriveStart(s) <= k < i :: !DeriveAt(lines, k, t)
    {
      var line := Strip(lines[i]);
      if StartsWith(line, "#[derive(") {
        var content := line;
        var j := i;
        while j < |lines| && !Contains(content, ")]")
          invariant i <= j <= |lines|
          invariant j < |lines| ==> Grow(lines, j, content) == Grow(lines, i, line)
          invariant j == |lines| ==> content == Grow(lines, i, line)
          decreases |lines| - j
        {
          j := j + 1;
          if j < |lines| {
            content := content + Strip(lines[j]);
          }
        }
        assert content == Grow(lines, i, line);
        if Contains(content, t) {
          assert DeriveAt(lines, i, t);
          return true;
        }
      }
    }
    return false;
  }

  /** A derive line that itself names T is evidence, whatever follows it. */
  lemma DeriveLineNamesTarget(lines: seq<string>, s: int, i: int, t: string)
    requires 0 <= s < |lines| && DeriveStart(s) <= i <= s
    requires StartsWith(Strip(lines[i]), "#[derive(") && Contains(Strip(lines[i]), t)
    ensures DeriveEvidence(lines, s, t)
  {
    var g := Grow(lines, i, Strip(lines[i]));
    assert g == Strip(lines[i]) + g[|Strip(lines[i])|..];
    ContainsPrefix(Strip(lines[i]), g[|Strip(lines[i])|..]);
    ContainsTransitive(g, Strip(lines[i]), t);
    assert DeriveAt(lines, i, t);
  }

  /** A one-line derive attribute is read alone: the lines after it are not appended. */
  lemma ClosedDeriveReadAlone(lines: seq<string>, i: int)
    requires 0 <= i < |lines| && Contains(Strip(lines[i]), ")]")
    ensures Grow(lines, i, Strip(lines[i])) == Strip(lines[i])
  {
  }

  // ---- impl blocks ----

  /** `\s+` spans c[a..b]. */
  predicate SpaceRun(c: string, a: int, b: int)
  {
    0 <= a < b <= |c| && AllSpace(c[a..b])
  }

  /** `\s*` spans c[a..b]. */
  predicate SpaceOpt(c: string, a: int, b: int)
  {
    0 <= a <= b <= |c| && AllSpace(c[a..b])
  }

  /** `\s+for\s+S\b` starts at k. */
  predicate ForType(c: string, k: int, s: string)
  {
    exists m | 0 <= m <= |c| :: SpaceRun(c, k, m) && OccursAt(c, "for", m)
      && (exists n | 0 <= n <= |c| :: SpaceRun(c, m + 3, n) && OccursAt(c, s, n) && Boundary(c, n + |s|))
  }

  /** `impl\s+T\s+for\s+S\b` somewhere in c. */
  predicate ImplDirect(c: string, t: string, s: string)
  {
    exists i | 0 <= i <= |c| :: OccursAt(c, "impl", i)
      && (exists k | 0 <= k <= |c| :: SpaceRun(c, i + 4, k) && OccursAt(c, t, k) && ForType(c, k + |t|, s))
  }

  /** `impl\s*` ends at a, where `<` stands. */
  predicate GenericOpens(c: string, i: int, a: int)
  {
    SpaceOpt(c, i + 4, a) && a < |c| && c[a] == '<'
  }

  /** `impl\s+` ends at w. */
  predicate KeywordSpace(c: string, i: int, w: int)
  {
    SpaceRun(c, i + 4, w)
  }

  /** `<[^>]*>` spans c[a..b + 1]. */
  predicate AngleGroup(c: string, a: int, b: int)
  {
    0 <= a < b < |c| && c[a] == '<' && c[b] == '>' && '>' !in c[a + 1..b]
  }

  /** `impl\s*<[^>]*>\s*T\s+for\s+S\b` somewhere in c. */
  predicate ImplGeneric(c: string, t: string, s: string)
  {
    exists i | 0 <= i <= |c| :: OccursAt(c, "impl", i) &&
        exists a | 0 <= a < |c| :: GenericOpens(c, i, a) &&
          exists b | 0 <= b < |c| :: AngleGroup(c, a, b) &&
            exists k | 0 <= k <= |c| :: SpaceOpt(c, b + 1, k) && OccursAt(c, t, k) && ForType(c, k + |t|, s)
  }

  /** `\w+::` spans c[w..k]. */
  predicate PathPrefix(c: string, w: int, k: int)
  {
    0 <= w < k - 2 && k <= |c| && AllWord(c[w..k - 2]) && c[k - 2..k] == "::"
  }

  /** `impl\s+\w+::T\s+for\s+S\b` somewhere in c. */
  predicate ImplQualified(c: string, t: string, s: string)
  {
    exists i | 0 <= i <= |c| :: OccursAt(c, "impl", i) &&
        exists w | 0 <= w <= |c| :: KeywordSpace(c, i, w) &&
          exists k | 0 <= k <= |c| :: PathPrefix(c, w, k) && OccursAt(c, t, k) && ForType(c, k + |t|, s)
  }

  /**
   * Impl evidence in a file's text: one of the four patterns, matched ignoring ASCII
   * case; the fourth is `impl T for Self`.
   */
  predicate ImplEvidence(content: string, t: string, s: string)
  {
    var c := Lower(content);
    var lt := Lower(t);
    var ls := Lower(s);
    ImplDirect(c, lt, ls) || ImplGeneric(c, lt, ls) || ImplQualified(c, lt, ls) || ImplDirect(c, lt, "self")
  }

  /** Every impl pattern names the target (ignoring case). */
  lemma ImplNamesTarget(content: string, t: string, s: string)
    requires ImplEvidence(content, t, s)
    ensures Contains(Lower(content), Lower(t))
  {
  }

  /** A match inside u is still a match once v is appended. */
  lemma OccursExtend(u: string, v: string, x: string, i: int)
    requires OccursAt(u, x, i)
    ensures OccursAt(u + v, x, i)
  {
    assert (u + v)[i..i + |x|] == u[i..i + |x|];
  }

  /** A run of white space inside u is still one once v is appended. */
  lemma SpaceExtend(u: string, v: string, a: int, b: int)
    requires SpaceRun(u, a, b)
    ensures SpaceRun(u + v, a, b)
  {
    assert (u + v)[a..b] == u[a..b];
  }

  /** x occurs where it is appended. */
  lemma OccursAtEnd(u: string, x: string)
    ensures OccursAt(u + x, x, |u|)
  {
    assert (u + x)[|u|..|u| + |x|] == x;
  }

  /** `impl t for s` followed by a non-word character matches the first pattern. */
  lemma DirectLine(p: string, t: string, s: string, q: string)
    requires s != [] && IsWordChar(s[|s| - 1])
    requires q == [] || !IsWordChar(q[0])
    ensures ImplDirect(p + "impl " + t + " for " + s + q, t, s)
  {
    var i := |p|;
    var k := i + 5;
    var c2 := p + "impl " + t;
    var m := |c2| + 1;
    var n := m + 4;
    var c4 := c2 + " for " + s;
    var c := c4 + q;
    assert OccursAt(c4, "impl", i) && SpaceRun(c4, i + 4, k) && OccursAt(c4, t, k) by {
      var c1 := p + "impl ";
      assert c1[i..i + 4] == "impl" && c1[i + 4..k] == " ";
      OccursAtEnd(c1, t);
      OccursExtend(c1, t, "impl", i);
      SpaceExtend(c1, t, i + 4, k);
      OccursExtend(c2, " for ", "impl", i);
      SpaceExtend(c2, " for ", i + 4, k);
      OccursExtend(c2, " for ", t, k);
      OccursExtend(c2 + " for ", s, "impl", i);
      SpaceExtend(c2 + " for ", s, i + 4, k);
      OccursExtend(c2 + " for ", s, t, k);
    }
    assert SpaceRun(c4, |c2|, m) && OccursAt(c4, "for", m) && SpaceRun(c4, m + 3, n) && OccursAt(c4, s, n) by {
      var c3 := c2 + " for ";
      assert c3[|c2|..m] == " " && c3[m..m + 3] == "for" && c3[m + 3..n] == " ";
      OccursAtEnd(c3, s);
      SpaceExtend(c3, s, |c2|, m);
      OccursExtend(c3, s, "for", m);
      SpaceExtend(c3, s, m + 3, n);
    }
    OccursExtend(c4, q, "impl", i);
    SpaceExtend(c4, q, i + 4, k);
    OccursExtend(c4, q, t, k);
    SpaceExtend(c4, q, |c2|, m);
    OccursExtend(c4, q, "for", m);
    SpaceExtend(c4, q, m + 3, n);
    OccursExtend(c4, q, s, n);
    assert Boundary(c, |c4|) by {
      assert c[|c4| - 1] == s[|s| - 1];
      if q != [] {
        assert c[|c4|] == q[0];
      }
    }
    assert ForType(c, k + |t|, s);
  }

  /** Lower-casing an impl line lower-cases its parts. */
  lemma LowerImplLine(pre: string, t: string, s: string, post: string)
    ensures Lower(pre + "impl " + t + " for " + s + post)
         == Lower(pre) + "impl " + Lower(t) + " for " + Lower(s) + Lower(post)
  {
    LowerUnchanged("impl ");
    LowerUnchanged(" for ");
    LowerConcat(pre, "impl ");
    LowerConcat(pre + "impl ", t);
    LowerConcat(pre + "impl " + t, " for ");
    LowerConcat(pre + "impl " + t + " for ", s);
    LowerConcat(pre + "impl " + t + " for " + s, post);
  }

  /**
   * A text holding `impl T for S` followed by a non-word character or its end is
   * evidence, for a type name ending in a word character. This is the form of
   * `impl Processable for ChildStruct {` (child.rs:24) and of the `impl` blocks of
   * MultipleInterfaces (processor.rs).
   */
  lemma ImplLineIsEvidence(pre: string, t: string, s: string, post: string)
    requires s != [] && IsWordChar(s[|s| - 1])
    requires post == [] || !IsWordChar(post[0])
    ensures ImplEvidence(pre + "impl " + t + " for " + s + post, t, s)
  {
    LowerImplLine(pre, t, s, post);
    LowerWordChar(s[|s| - 1]);
    if post != [] {
      LowerWordChar(post[0]);
    }
    DirectLine(Lower(pre), Lower(t), Lower(s), Lower(post));
  }

  // ---- the workspace ----

  /** Reading a file: its text, or one of the errors the scan tells apart. */
  datatype FileRead =
    | Text(text: string)
    | Undecodable   // UnicodeDecodeError: the file is skipped
    | Unpermitted   // PermissionError: the file is skipped
    | Failed        // any other error: the workspace search stops

  /** A file os.walk reaches: the directories from the workspace root to it, its name, its contents. */
  datatype WalkEntry = WalkEntry(dirs: seq<string>, name: string, read: FileRead)

  /** Directories the walk does not descend into. */
  const Pruned: seq<string> := ["target", "node_modules", ".git"]

  /** A file under no pruned directory, with the `.rs` extension. */
  predicate IsRustSource(e: WalkEntry)
  {
    (forall k | 0 <= k < |e.dirs| :: e.dirs[k] !in Pruned) && EndsWith(e.name, ".rs")
  }

  /** The Rust sources among the walked files, in walk order. */
  function RustFiles(entries: seq<WalkEntry>): (r: seq<WalkEntry>)
    ensures |r| <= |entries|
    ensures forall e | e in r :: e in entries && IsRustSource(e)
    ensures forall e | e in entries && IsRustSource(e) :: e in r
  {
    if entries == [] then []
    else (if IsRustSource(entries[0]) then [entries[0]] else []) + RustFiles(entries[1..])
  }

  /** Filtering distributes over concatenation, so the Rust sources keep walk order. */
  lemma {:induction false} RustFilesConcat(a: seq<WalkEntry>, b: seq<WalkEntry>)
    ensures RustFiles(a + b) == RustFiles(a) + RustFiles(b)
  {
    if a == [] {
      assert a + b == b;
    } else {
      assert (a + b)[0] == a[0];
      assert (a + b)[1..] == a[1..] + b;
      RustFilesConcat(a[1..], b);
    }
  }

  /** `rust_files`, appended to during the walk. */
  method CollectRustFiles(entries: seq<WalkEntry>) returns (files: seq<WalkEntry>)
    ensures files == RustFiles(entries)
  {
    files := [];
    var i := 0;
    while i < |entries|
      invariant 0 <= i <= |entries|
      invariant files == RustFiles(entries[..i])
    {
      var e := entries[i];
      assert entries[..i + 1] == entries[..i] + [e];
      RustFilesConcat(entries[..i], [e]);
      assert [e][1..] == [];
      if IsRustSource(e) {
        files := files + [e];
      }
      i := i + 1;
    }
    assert entries[..i] == entries;
  }

  /** The number of files read: `rust_files[:50]`. */
  function Scanned(n: int): (r: int)
    ensures r <= MaxFiles && (n >= 0 ==> 0 <= r <= n)
    ensures 0 <= n <= MaxFiles ==> r == n
  {
    if n < MaxFiles then n else MaxFiles
  }

  /**
   * Some of the first fifty Rust files holds impl evidence and is read before any
   * read fails outright; undecodable and unreadable files are skipped.
   */
  predicate WorkspaceEvidence(files: seq<WalkEntry>, t: string, s: string)
  {
    exists i | 0 <= i < Scanned(|files|) ::
      && (forall j | 0 <= j < i :: !files[j].read.Failed?)
      && files[i].read.Text? && ImplEvidence(files[i].read.text, t, s)
  }

  /** The workspace part of the heuristic, over files already collected. */
  method ScanWorkspace(files: seq<WalkEntry>, t: string, s: string) returns (found: bool)
    ensures found <==> WorkspaceEvidence(files, t, s)
  {
    var n := Scanned(|files|);
    var i := 0;
    while i < n
      invariant 0 <= i <= n
      invariant forall j | 0 <= j < i :: !files[j].read.Failed?
      invariant forall j | 0 <= j < i :: !(files[j].read.Text? && ImplEvidence(files[j].read.text, t, s))
    {
      match files[i].read {
        case Text(text) =>
          if ImplEvidence(text, t, s) {
            assert files[i].read.Text? && ImplEvidence(files[i].read.text, t, s);
            return true;
          }
        case Undecodable =>
        case Unpermitted =>
        case Failed =>
          ScanStopped(files, i, t, s);
          return false;
      }
      i := i + 1;
    }
    ScanStopped(files, n, t, s);
    return false;
  }

  /**
   * When no file before i holds evidence and the scan stops at i, because file i
   * failed or the fifty files are done, there is no workspace evidence.
   */
  lemma ScanStopped(files: seq<WalkEntry>, i: int, t: string, s: string)
    requires 0 <= i <= Scanned(|files|)
    requires i < Scanned(|files|) ==> files[i].read.Failed?
    requires forall j | 0 <= j < i :: !(files[j].read.Text? && ImplEvidence(files[j].read.text, t, s))
    ensures !WorkspaceEvidence(files, t, s)
  {
  }

  /** A file beyond the fiftieth is never read. */
  lemma OnlyFirstFiftyRead(files: seq<WalkEntry>, extra: seq<WalkEntry>, t: string, s: string)
    requires |files| >= MaxFiles
    ensures WorkspaceEvidence(files + extra, t, s) <==> WorkspaceEvidence(files, t, s)
  {
    if WorkspaceEvidence(files + extra, t, s) {
      var i :| 0 <= i < Scanned(|files + extra|)
               && (forall j | 0 <= j < i :: !(files + extra)[j].read.Failed?)
               && (files + extra)[i].read.Text? && ImplEvidence((files + extra)[i].read.text, t, s);
      assert (files + extra)[i] == files[i];
      assert forall j | 0 <= j < i :: (files + extra)[j] == files[j];
    }
    if WorkspaceEvidence(files, t, s) {
      var i :| 0 <= i < Scanned(|files|)
               && (forall j | 0 <= j < i :: !files[j].read.Failed?)
               && files[i].read.Text? && ImplEvidence(files[i].read.text, t, s);
      assert (files + extra)[i] == files[i];
      assert forall j | 0 <= j < i :: (files + extra)[j] == files[j];
    }
  }

  /** Files inside `target/` are never collected, whatever they hold. */
  lemma TargetPruned(dirs: seq<string>, name: string, read: FileRead, k: int)
    requires 0 <= k < |dirs| && dirs[k] == "target"
    ensures !IsRustSource(WalkEntry(dirs, name, read))
  {
    assert Pruned[0] == "target";
  }

  // ---- the heuristic ----

  /** The type's name: `class_symbol.get("name", "")`. */
  function Name(symbol: Json): Result<Json, PyError>
  {
    Get(symbol, "name", JStr(""))
  }

  /**
   * `_is_inheriting_from`. The file (None when it does not exist) is given as its
   * lines, as `content.split('\n')` yields them; the file text is those lines joined
   * by newlines. The workspace is what os.walk reaches, in walk order.
   */
  method IsInheritingFrom(file: Option<seq<string>>, symbol: Json, target: string, workspace: seq<WalkEntry>)
    returns (r: bool)
    ensures r <==> && Name(symbol).Ok? && Truthy(Name(symbol).value)
                   && file.Some?
                   && Declaration.InBounds(Declaration.RangeOrLocationLine(symbol), |file.value|)
                   && var s := Declaration.RangeOrLocationLine(symbol).value;
                      var name := Name(symbol).value;
                      || DeriveEvidence(file.value, s, target)
                      || (name.JStr? && ImplEvidence(Join(file.value, "\n"), target, name.s))
                      || (name.JStr? && WorkspaceEvidence(RustFiles(workspace), target, name.s))
  {
    var name := Name(symbol);
    if name.Err? || !Truthy(name.value) {
      return false;
    }
    if file.None? {
      return false;
    }
    var lines := file.value;
    var startLine := Declaration.RangeOrLocationLine(symbol);
    if startLine.None? || startLine.value < 0 || startLine.value >= |lines| {
      return false;
    }
    var s := startLine.value;
    r := DeriveScan(lines, s, target);
    if r {
      return;
    }
    if !name.value.JStr? {
      // re.escape raises on a name that is not a string
      return false;
    }
    var content := Join(lines, "\n");
    if ImplEvidence(content, target, name.value.s) {
      return true;
    }
    var files := CollectRustFiles(workspace);
    r := ScanWorkspace(files, target, name.value.s);
  }

  /** An empty or missing name gives False before any file is read. */
  lemma EmptyNameFalse(symbol: Json)
    requires symbol.JObj? && ("name" !in symbol.fields || symbol.fields["name"] == JStr(""))
    ensures !Truthy(Name(symbol).value)
  {
  }

  // ---- start-up ----

  /** The completion options rust-analyzer must announce. */
  const CompletionOptions: Json := JObj(map[
    "resolveProvider" := JBool(true),
    "triggerCharacters" := Strings([":", ".", "'", "("]),
    "completionItem" := JObj(map["labelDetailsSupport" := JBool(true)])])

  /** The assertions on the initialize response: Incremental sync and exactly these completion options. */
  function CheckCapabilities(resp: Json): (r: Outcome<PyError>)
    ensures r.Pass? <==> Capabilities.IncrementalSync(resp)
                         && Capabilities.CompletionProviderIs(resp, CompletionOptions)
  {
    Capabilities.CheckSyncAndCompletion(resp, CompletionOptions)
  }

  /** A provider without the completion-item options fails the assertion. */
  lemma CompletionItemRequired()
    ensures CheckCapabilities(Capabilities.Response(JInt(2), JObj(map[
              "resolveProvider" := JBool(true),
              "triggerCharacters" := Strings([":", ".", "'", "("])]))).Fail?
  {
    var c := JObj(map["resolveProvider" := JBool(true), "triggerCharacters" := Strings([":", ".", "'", "("])]);
    Capabilities.ResponseChecked(JInt(2), c, CompletionOptions);
    assert "completionItem" !in c.fields;
  }

  /** After `initialized`, completions are available; readiness waits for `experimental/serverStatus`. */
  method Initialized(ev: Handlers.ClientEvents)
    modifies ev
    ensures ev.completionsAvailable
    ensures ev.serverReady == old(ev.serverReady)
    ensures ev.searcherAvailable == old(ev.searcherAvailable)
    ensures ev.resolveMainAvailable == old(ev.resolveMainAvailable)
    ensures ev.serviceReady == old(ev.serviceReady)
  {
    ev.completionsAvailable := true;
  }
}
