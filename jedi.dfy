/**
 * The jedi (Python) client: its heuristic for "does class S inherit from T?" on the
 * class statement and up to two continuation lines, its capability assertion, and
 * the readiness event its server-status handler raises.
 */
module Jedi {
  import opened Wrappers
  import opened PyJson
  import opened Text
  import Declaration
  import Capabilities
  import Handlers

  /** At most this many lines after the declaration are read as continuation lines. */
  const MaxContinuation := 2

  /** jedi has no type-hierarchy support; the heuristic is used. */
  function SupportsLspTypeHierarchy(): (r: bool)
    ensures !r
  {
    false
  }

  /** The stripped class line names T as a base: it contains `(T`, `, T` or `T)`. */
  predicate DeclNames(line: string, t: string)
  {
    Contains(line, "(" + t) || Contains(line, ", " + t) || Contains(line, t + ")")
  }

  /** A stripped line that looks like part of a base list: it ends with `):` or `,`. */
  predicate Continues(line: string)
  {
    EndsWith(line, "):") || EndsWith(line, ",")
  }

  /** The last line the continuation scan may read (exclusive): `min(s + 3, n)`. */
  function ScanEnd(s: int, n: int): (r: int)
    ensures r <= s + 1 + MaxContinuation && r <= n
    ensures r == s + 1 + MaxContinuation || r == n
  {
    if s + 1 + MaxContinuation < n then s + 1 + MaxContinuation else n
  }

  /**
   * Some continuation line names T: the lines after the declaration are read while
   * they continue the base list, and one of those read names T.
   */
  predicate ContinuationNames(lines: seq<string>, s: int, t: string)
    requires 0 <= s < |lines|
  {
    exists i | s + 1 <= i < ScanEnd(s, |lines|) ::
      && (forall j | s + 1 <= j < i :: Continues(Strip(lines[j])))
      && Continues(Strip(lines[i])) && Contains(Strip(lines[i]), t)
  }

  /**
   * `_is_inheriting_from`: the file as lines (None when it does not exist); a start
   * line that is missing, negative or past the end gives False.
   */
  method IsInheritingFrom(file: Option<seq<string>>, symbol: Json, target: string) returns (r: bool)
    ensures r <==> && file.Some?
                   && Declaration.InBounds(Declaration.RangeLine(symbol), |file.value|)
                   && var s := Declaration.RangeLine(symbol).value;
                      DeclNames(Strip(file.value[s]), target) || ContinuationNames(file.value, s, target)
  {
    if file.None? {
      return false;
    }
    var lines := file.value;
    var startLine := Declaration.RangeLine(symbol);
    if startLine.None? || startLine.value < 0 || startLine.value >= |lines| {
      return false;
    }
    var s := startLine.value;
    var classLine := Strip(lines[s]);
    if Contains(classLine, "(" + target) || Contains(classLine, ", " + target) || Contains(classLine, target + ")") {
      return true;
    }
    var stop := ScanEnd(s, |lines|);
    var i := s + 1;
    while i < stop
      invariant s + 1 <= i <= stop || (i == s + 1 && stop <= s + 1)
      invariant forall j | s + 1 <= j < i :: Continues(Strip(lines[j])) && !Contains(Strip(lines[j]), target)
    {
      var line := Strip(lines[i]);
      if EndsWith(line, "):") || EndsWith(line, ",") {
        if Contains(line, target) {
          return true;
        }
      } else {
        // the base list has ended: no later line can be a witness
        return false;
      }
      i := i + 1;
    }
    return false;
  }

  /** A class statement `class S(T):` names T. */
  lemma SingleBaseNamed(name: string, t: string)
    ensures DeclNames("class " + name + "(" + t + "):", t)
  {
    var line := "class " + name + "(" + t + "):";
    var q := "class " + name;
    assert line == q + ("(" + t) + "):";
    assert line[|q|..|q| + |t| + 1] == "(" + t;
    assert OccursAt(line, "(" + t, |q|);
  }

  /** A class statement `class S(A, T):` names T. */
  lemma LaterBaseNamed(name: string, a: string, t: string)
    ensures DeclNames("class " + name + "(" + a + ", " + t + "):", t)
  {
    var line := "class " + name + "(" + a + ", " + t + "):";
    var q := "class " + name + "(" + a;
    assert line == q + (", " + t) + "):";
    assert line[|q|..|q| + |t| + 2] == ", " + t;
    assert OccursAt(line, ", " + t, |q|);
  }

  /** When the line after the declaration does not continue a base list, only the declaration line counts. */
  lemma FirstLineEndsScan(lines: seq<string>, s: int, t: string)
    requires 0 <= s && s + 1 < |lines| && !Continues(Strip(lines[s + 1]))
    ensures !ContinuationNames(lines, s, t)
  {
  }

  /** A base named on the third line after the declaration is never seen. */
  lemma ScanReadsTwoLines(lines: seq<string>, s: int, t: string)
    requires 0 <= s < |lines|
    requires forall j | s + 1 <= j < |lines| && j <= s + MaxContinuation :: !Contains(Strip(lines[j]), t)
    ensures !ContinuationNames(lines, s, t)
  {
  }

  /** The completion options jedi must announce: trigger characters `. ' "`, with resolve. */
  const CompletionOptions: Json := JObj(map[
    "triggerCharacters" := Strings([".", "'", "\""]),
    "resolveProvider" := JBool(true)])

  /** The assertions on the initialize response: Incremental sync and exactly jedi's completion options. */
  function CheckCapabilities(resp: Json): (r: Outcome<PyError>)
    ensures r.Pass? <==> Capabilities.IncrementalSync(resp)
                         && Capabilities.CompletionProviderIs(resp, CompletionOptions)
  {
    Capabilities.CheckSyncAndCompletion(resp, CompletionOptions)
  }

  /** A provider without resolve support fails the assertion. */
  lemma ResolveRequired()
    ensures CheckCapabilities(Capabilities.Response(JInt(2), JObj(map[
              "triggerCharacters" := Strings([".", "'", "\""]),
              "resolveProvider" := JBool(false)]))).Fail?
  {
    var c := JObj(map["triggerCharacters" := Strings([".", "'", "\""]), "resolveProvider" := JBool(false)]);
    Capabilities.ResponseChecked(JInt(2), c, CompletionOptions);
    assert !PyEq(c.fields["resolveProvider"], JBool(true));
  }

  /**
   * `experimental/serverStatus` in jedi: `params["quiescent"] == True` makes completions
   * available; a missing key raises.
   */
  method ExperimentalStatus(ev: Handlers.ClientEvents, params: Json) returns (r: Outcome<PyError>)
    modifies ev
    ensures r.Pass? <==> Index(params, "quiescent").Ok?
    ensures ev.completionsAvailable == (old(ev.completionsAvailable) || Handlers.Quiescent(params))
    ensures ev.serverReady == old(ev.serverReady) && ev.serviceReady == old(ev.serviceReady)
    ensures ev.searcherAvailable == old(ev.searcherAvailable)
    ensures ev.resolveMainAvailable == old(ev.resolveMainAvailable)
  {
    var q := Index(params, "quiescent");
    if q.Err? {
      return Fail(q.error);
    }
    if PyEq(q.value, JBool(true)) {
      ev.completionsAvailable := true;
    }
    return Pass;
  }
}
