/**
 * The gopls (Go) client: its struct-embedding heuristic for "does struct S embed T?",
 * its capability key checks, and its readiness after `initialized`.
 *
 * The heuristic takes the struct's window of lines (starting at the declaration, at
 * most 50 lines, closed by brace balance) and searches it, line by line, for one of
 * four embedding forms: `T`, `*T`, `pkg.T`, `*pkg.T`, each a whole word followed only
 * by whitespace, an optional `//` comment and/or a backtick tag.
 */
module Gopls {
  import opened Wrappers
  import opened PyJson
  import opened Text
  import Declaration
  import Capabilities
  import Handlers

  /** The window holds at most this many lines. */
  const MaxWindow := 50

  /** gopls's own answer is not trusted for type hierarchy; the heuristic is used instead. */
  function SupportsLspTypeHierarchy(): (r: bool)
    ensures !r
  {
    false
  }

  // ---- the four embedding patterns, one line at a time ----

  /** No backtick in s. */
  predicate NoBacktick(s: string)
  {
    forall k | 0 <= k < |s| :: s[k] != '`'
  }

  /** x is a backtick tag `` `...` `` followed only by whitespace. */
  predicate TagThenSpace(x: string)
  {
    |x| >= 2 && x[0] == '`'
    && exists b | 1 <= b < |x| :: x[b] == '`' && NoBacktick(x[1..b]) && AllSpace(x[b + 1..])
  }

  /**
   * What may follow the target on its line: `\s*(?://.*)?(?:`[^`]*`)?\s*$`, that is
   * whitespace, then nothing but whitespace, or a `//` comment, or a tag and whitespace.
   */
  predicate TailOk(r: string)
  {
    exists a | 0 <= a <= |r| :: AllSpace(r[..a])
      && (AllSpace(r[a..]) || StartsWith(r[a..], "//") || TagThenSpace(r[a..]))
  }

  /** The target at k is a whole word at its end and the rest of the line is an allowed tail. */
  predicate EndsLine(line: string, t: string, k: int)
    requires OccursAt(line, t, k)
  {
    Boundary(line, k + |t|) && TailOk(line[k + |t|..])
  }

  /** `\bT\b...$`: the target as a whole word. */
  predicate Direct(line: string, t: string)
  {
    exists k | 0 <= k <= |line| :: OccursAt(line, t, k) && Boundary(line, k) && EndsLine(line, t, k)
  }

  /** `\*T\b...$`: the target after a `*`. */
  predicate Pointer(line: string, t: string)
  {
    exists k | 1 <= k <= |line| :: OccursAt(line, t, k) && line[k - 1] == '*' && EndsLine(line, t, k)
  }

  /** `\w+\.T\b...$`: the target qualified by a package name. */
  predicate Qualified(line: string, t: string)
  {
    exists k | 2 <= k <= |line| ::
      OccursAt(line, t, k) && line[k - 1] == '.' && IsWordChar(line[k - 2]) && EndsLine(line, t, k)
  }

  /** `\*\w+\.T\b...$`: a pointer to the qualified target. */
  predicate QualifiedPointer(line: string, t: string)
  {
    exists k | 3 <= k <= |line| :: OccursAt(line, t, k) && line[k - 1] == '.' && EndsLine(line, t, k)
      && exists a | 0 <= a < k - 2 :: line[a] == '*' && AllWord(line[a + 1..k - 1])
  }

  /** Some pattern matches the line. */
  predicate LineEmbeds(line: string, t: string)
  {
    Direct(line, t) || Pointer(line, t) || Qualified(line, t) || QualifiedPointer(line, t)
  }

  // ---- the struct window ----

  /** `line.count(c)` for one character. */
  function Count(line: string, c: char): (r: nat)
    ensures r <= |line|
    ensures r == 0 <==> c !in line
  {
    if line == [] then 0
    else (if line[0] == c then 1 else 0) + Count(line[1..], c)
  }

  /**
   * The window scan from line i on, given whether a `{` was seen and the running
   * count: the end of the window (exclusive) and whether a `{` was seen. Once a `{`
   * was seen, the window ends after the first line whose count drops to zero or below.
   */
  function Scan(lines: seq<string>, i: int, stop: int, found: bool, count: int): (r: (int, bool))
    requires 0 <= i <= stop <= |lines|
    ensures i <= r.0 <= stop
    ensures found ==> r.1
    ensures r.0 < stop ==> r.1
    ensures !found && !r.1 ==> r.0 == stop && forall j | i <= j < stop :: '{' !in lines[j]
    ensures r.1 && !found ==> exists j | i <= j < r.0 :: '{' in lines[j]
    decreases stop - i
  {
    if i == stop then (i, found)
    else
      var line := lines[i];
      var seen := found || '{' in line;
      var count1 := if '{' in line then count + Count(line, '{') else count;
      if seen then
        var count2 := count1 - Count(line, '}');
        if count2 <= 0 then (i + 1, true)
        else Scan(lines, i + 1, stop, true, count2)
      else Scan(lines, i + 1, stop, false, count1)
  }

  /** The window of the struct declared at line s: where it ends and whether it has a `{`. */
  function Window(lines: seq<string>, s: int): (r: (int, bool))
    requires 0 <= s < |lines|
    ensures s <= r.0 <= |lines| && r.0 - s <= MaxWindow
  {
    Scan(lines, s, if s + MaxWindow < |lines| then s + MaxWindow else |lines|, false, 0)
  }

  /**
   * The heuristic as a property of the file: the struct's window has a `{`, and some
   * line of it embeds the target.
   */
  predicate EmbedsInWindow(lines: seq<string>, s: int, t: string)
    requires 0 <= s < |lines|
  {
    var w := Window(lines, s);
    w.1 && exists i | s <= i < w.0 :: LineEmbeds(lines[i], t)
  }

  /**
   * `_is_inheriting_from`: the file (None when it does not exist) split at newlines;
   * the start line from `range` or `location.range`; False when either is missing or
   * the line is out of bounds, or when the window has no `{`.
   */
  method IsInheritingFrom(file: Option<seq<string>>, symbol: Json, target: string) returns (r: bool)
    ensures r <==> && file.Some?
                   && Declaration.InBounds(Declaration.RangeOrLocationLine(symbol), |file.value|)
                   && EmbedsInWindow(file.value, Declaration.RangeOrLocationLine(symbol).value, target)
  {
    if file.None? {
      return false;
    }
    var lines := file.value;
    var startLine := Declaration.RangeOrLocationLine(symbol);
    if startLine.None? || startLine.value < 0 || startLine.value >= |lines| {
      return false;
    }
    r := ScanWindow(lines, startLine.value, target);
  }

  /** The loops of `_is_inheriting_from`: find the struct's window, then a line in it that embeds the target. */
  method ScanWindow(lines: seq<string>, s: int, target: string) returns (r: bool)
    requires 0 <= s < |lines|
    ensures r <==> EmbedsInWindow(lines, s, target)
  {
    var stop := if s + MaxWindow < |lines| then s + MaxWindow else |lines|;
    var found := false;
    var count := 0;
    var i := s;
    var end := stop;
    while i < stop
      invariant s <= i <= stop
      invariant Scan(lines, i, stop, found, count) == Window(lines, s)
    {
      var line := lines[i];
      if '{' in line {
        found := true;
        count := count + Count(line, '{');
      }
      if found {
        count := count - Count(line, '}');
        if count <= 0 {
          end := i + 1;
          break;
        }
      }
      i := i + 1;
    }
    if i == stop {
      end := stop;
    }
    assert (end, found) == Window(lines, s);
    if !found {
      return false;
    }
    var k := s;
    while k < end
      invariant s <= k <= end
      invariant forall j | s <= j < k :: !LineEmbeds(lines[j], target)
    {
      if LineEmbeds(lines[k], target) {
        return true;
      }
      k := k + 1;
    }
    return false;
  }

  // ---- what the patterns mean ----

  /** Every pattern names the target on the line. */
  lemma EmbedsNamesTarget(line: string, t: string)
    requires LineEmbeds(line, t)
    ensures Contains(line, t)
  {
  }

  /** A window in which no line names the target embeds nothing (BaseStruct does not embed ChildStruct). */
  lemma NoMentionNoEmbedding(lines: seq<string>, s: int, t: string)
    requires 0 <= s < |lines|
    requires forall j | s <= j < |lines| :: !Contains(lines[j], t)
    ensures !EmbedsInWindow(lines, s, t)
  {
  }

  /** `*pkg.T` is also matched by the qualified pattern. */
  lemma QualifiedPointerIsQualified(line: string, t: string)
    requires QualifiedPointer(line, t)
    ensures Qualified(line, t)
  {
    var k :| 3 <= k <= |line| && OccursAt(line, t, k) && line[k - 1] == '.' && EndsLine(line, t, k)
             && exists a | 0 <= a < k - 2 :: line[a] == '*' && AllWord(line[a + 1..k - 1]);
    var a :| 0 <= a < k - 2 && line[a] == '*' && AllWord(line[a + 1..k - 1]);
    assert line[a + 1..k - 1][k - 2 - (a + 1)] == line[k - 2];
  }

  /**
   * For a target that starts with a word character, `*T` and `pkg.T` are already
   * matched by the whole-word pattern: `*` and `.` are word boundaries.
   */
  lemma WordTargetDirect(line: string, t: string)
    requires t != [] && IsWordChar(t[0]) && LineEmbeds(line, t)
    ensures Direct(line, t)
  {
    if QualifiedPointer(line, t) {
      QualifiedPointerIsQualified(line, t);
    }
  }

  /**
   * A field line `pre T` followed by whitespace and optionally a `//` comment embeds
   * T, when pre ends in a non-word character (indentation, `*`, `.`) or is empty and
   * T is a word. This covers `\tBaseStruct // Embedded struct ...` (child.go:7); it
   * also covers a named field `base BaseStruct`, which the patterns do not tell apart
   * from an embedding.
   */
  lemma FieldLineEmbeds(pre: string, t: string, sp: string, comment: string)
    requires pre == [] || !IsWordChar(pre[|pre| - 1])
    requires t != [] && IsWordChar(t[0]) && IsWordChar(t[|t| - 1])
    requires AllSpace(sp) && (comment == [] || StartsWith(comment, "//"))
    ensures Direct(pre + t + sp + comment, t)
  {
    var line := pre + t + sp + comment;
    var k := |pre|;
    assert OccursAt(line, t, k) && Boundary(line, k) by {
      assert line[k..k + |t|] == t;
      assert line[k] == t[0];
      assert k > 0 ==> line[k - 1] == pre[|pre| - 1];
    }
    assert Boundary(line, k + |t|) by {
      assert line[k + |t| - 1] == t[|t| - 1];
      if sp != [] {
        assert line[k + |t|] == sp[0];
        assert IsSpace(sp[0]);
      } else if comment != [] {
        assert line[k + |t|] == comment[0];
      }
    }
    assert line[k + |t|..] == sp + comment;
    SpaceThenComment(sp, comment);
  }

  /** Whitespace followed by nothing or by a `//` comment is an allowed tail. */
  lemma SpaceThenComment(sp: string, comment: string)
    requires AllSpace(sp) && (comment == [] || StartsWith(comment, "//"))
    ensures TailOk(sp + comment)
  {
    var rest := sp + comment;
    assert rest[..|sp|] == sp && rest[|sp|..] == comment;
    if comment == [] {
      assert AllSpace(rest[|sp|..]);
    }
  }

  /** With no `{` among the (at most 50) lines from the declaration, the answer is False. */
  lemma NoBraceNoEmbedding(lines: seq<string>, s: int, t: string)
    requires 0 <= s < |lines|
    requires forall j | s <= j < |lines| :: '{' !in lines[j]
    ensures !EmbedsInWindow(lines, s, t)
  {
  }

  /** A struct whose first line opens and closes its braces (`type E struct{}`) is a one-line window. */
  lemma BalancedFirstLine(lines: seq<string>, s: int)
    requires 0 <= s < |lines| && '{' in lines[s]
    requires Count(lines[s], '{') <= Count(lines[s], '}')
    ensures Window(lines, s) == (s + 1, true)
  {
  }

  /** What one line adds to the brace count: its `{` minus its `}`. */
  function Net(line: string): int
  {
    Count(line, '{') - Count(line, '}')
  }

  /** The running brace count after line m, counted from the first brace line f. */
  function Balance(lines: seq<string>, f: int, m: int): int
    requires 0 <= f <= m < |lines|
    decreases m - f
  {
    if m == f then Net(lines[f]) else Balance(lines, f, m - 1) + Net(lines[m])
  }

  /** The first line from i on, before stop, that holds `{`; stop when there is none. */
  function FirstBrace(lines: seq<string>, i: int, stop: int): (r: int)
    requires 0 <= i <= stop <= |lines|
    ensures i <= r <= stop
    ensures forall j | i <= j < r :: '{' !in lines[j]
    ensures r < stop ==> '{' in lines[r]
    decreases stop - i
  {
    if i == stop || '{' in lines[i] then i else FirstBrace(lines, i + 1, stop)
  }

  /** The lines before the first `{` change neither the count nor the flag. */
  lemma {:induction false} ScanBeforeBrace(lines: seq<string>, i: int, stop: int)
    requires 0 <= i <= stop <= |lines|
    ensures Scan(lines, i, stop, false, 0) == Scan(lines, FirstBrace(lines, i, stop), stop, false, 0)
    decreases stop - i
  {
    if i < stop && '{' !in lines[i] {
      ScanBeforeBrace(lines, i + 1, stop);
    }
  }

  /**
   * After the first brace line f, with the count still positive through line i - 1,
   * the scan ends after the first line whose running count is zero or below, or at stop.
   */
  lemma {:induction false} ScanAfterBrace(lines: seq<string>, f: int, i: int, stop: int)
    requires 0 <= f < i <= stop <= |lines|
    ensures var r := Scan(lines, i, stop, true, Balance(lines, f, i - 1));
            r.1 && i <= r.0
            && (forall m | i <= m < r.0 - 1 :: Balance(lines, f, m) > 0)
            && (r.0 == stop || (i < r.0 && Balance(lines, f, r.0 - 1) <= 0))
    decreases stop - i
  {
    if i < stop {
      var line := lines[i];
      assert '{' !in line ==> Count(line, '{') == 0;
      assert Balance(lines, f, i) == Balance(lines, f, i - 1) + Net(line);
      if Balance(lines, f, i) > 0 {
        ScanAfterBrace(lines, f, i + 1, stop);
      }
    }
  }

  /**
   * Where the window closes: it has a `{` iff one of its at most 50 lines holds one;
   * after the first brace line f, it ends after the first line whose running count
   * drops to zero or below, and runs to its limit when there is no such line.
   */
  lemma ClosesAtBalance(lines: seq<string>, s: int)
    requires 0 <= s < |lines|
    ensures var stop := if s + MaxWindow < |lines| then s + MaxWindow else |lines|;
            var f := FirstBrace(lines, s, stop);
            var w := Window(lines, s);
            && (w.1 <==> f < stop)
            && (!w.1 ==> w.0 == stop)
            && (w.1 ==> && f < w.0
                        && (forall m | f <= m < w.0 - 1 :: Balance(lines, f, m) > 0)
                        && (w.0 == stop || Balance(lines, f, w.0 - 1) <= 0))
  {
    var stop := if s + MaxWindow < |lines| then s + MaxWindow else |lines|;
    var f := FirstBrace(lines, s, stop);
    ScanBeforeBrace(lines, s, stop);
    if f < stop {
      assert Balance(lines, f, f) == Count(lines[f], '{') - Count(lines[f], '}');
      if Balance(lines, f, f) > 0 {
        ScanAfterBrace(lines, f, f + 1, stop);
      }
    }
  }

  // ---- start-up ----

  const RequiredCapabilities: seq<string> := ["textDocumentSync", "completionProvider", "definitionProvider"]

  /** `init_response["capabilities"]` must hold the sync, completion and definition keys. */
  function CheckCapabilities(resp: Json): (r: Outcome<PyError>)
    ensures r.Pass? <==> Index(resp, "capabilities").Ok?
                         && forall k | 0 <= k < |RequiredCapabilities| ::
                              In(RequiredCapabilities[k], Index(resp, "capabilities").value) == Ok(true)
  {
    match Index(resp, "capabilities")
    case Err(e) => Fail(e)
    case Ok(caps) => Capabilities.CheckKeys(caps, RequiredCapabilities)
  }

  /** Only the presence of the keys matters, not their values. */
  lemma AnyValuesPass(sync: Json, completion: Json, definition: Json)
    ensures CheckCapabilities(JObj(map["capabilities" := JObj(map[
              "textDocumentSync" := sync, "completionProvider" := completion,
              "definitionProvider" := definition])])).Pass?
  {
  }

  /** A response without a definition provider fails. */
  lemma DefinitionRequired(sync: Json, completion: Json)
    ensures CheckCapabilities(JObj(map["capabilities" := JObj(map[
              "textDocumentSync" := sync, "completionProvider" := completion])])).Fail?
  {
    assert RequiredCapabilities[2] == "definitionProvider";
  }

  /** gopls is taken to be ready as soon as `initialized` is sent. */
  method Initialized(ev: Handlers.ClientEvents)
    modifies ev
    ensures ev.completionsAvailable && ev.serverReady
    ensures ev.searcherAvailable == old(ev.searcherAvailable)
    ensures ev.resolveMainAvailable == old(ev.resolveMainAvailable)
    ensures ev.serviceReady == old(ev.serviceReady)
  {
    ev.completionsAvailable := true;
    ev.serverReady := true;
  }
}
