/**
 * The clangd (C/C++) client: its text heuristic for "does class S inherit from T?",
 * its capability assertion on the initialize response, and its claim to support
 * LSP 3.17 type hierarchy natively.
 */
module Clangd {
  import opened Wrappers
  import opened PyJson
  import opened Text
  import Declaration
  import Capabilities
  import Handlers

  /** The heuristic looks at the declaration line and at most four lines after it. */
  const WindowSize := 5

  /** clangd answers type-hierarchy requests itself, so the fallback is not used by default. */
  function SupportsLspTypeHierarchy(): (r: bool)
    ensures r
  {
    true
  }

  /** The completion options clangd must announce: trigger characters `. < > : " / *`, no resolve. */
  const CompletionOptions: Json := JObj(map[
    "triggerCharacters" := Strings([".", "<", ">", ":", "\"", "/", "*"]),
    "resolveProvider" := JBool(false)])

  /** The assertions on the initialize response: Incremental sync and exactly clangd's completion options. */
  function CheckCapabilities(resp: Json): (r: Outcome<PyError>)
    ensures r.Pass? <==> Capabilities.IncrementalSync(resp)
                         && Capabilities.CompletionProviderIs(resp, CompletionOptions)
  {
    Capabilities.CheckSyncAndCompletion(resp, CompletionOptions)
  }

  /** Python's `==` lets `0` stand for `False`, so a provider announcing resolveProvider 0 passes. */
  lemma ResolveZeroAccepted()
    ensures CheckCapabilities(Capabilities.Response(JInt(2), JObj(map[
              "triggerCharacters" := Strings([".", "<", ">", ":", "\"", "/", "*"]),
              "resolveProvider" := JInt(0)]))).Pass?
  {
    var c := JObj(map[
              "triggerCharacters" := Strings([".", "<", ">", ":", "\"", "/", "*"]),
              "resolveProvider" := JInt(0)]);
    Capabilities.ResponseChecked(JInt(2), c, CompletionOptions);
    PyEqReflexive(Strings([".", "<", ">", ":", "\"", "/", "*"]));
  }

  /** List equality is ordered: the same trigger characters in another order fail the assertion. */
  lemma ReorderedTriggersRejected()
    ensures CheckCapabilities(Capabilities.Response(JInt(2), JObj(map[
              "triggerCharacters" := Strings(["<", ".", ">", ":", "\"", "/", "*"]),
              "resolveProvider" := JBool(false)]))).Fail?
  {
    var c := JObj(map[
              "triggerCharacters" := Strings(["<", ".", ">", ":", "\"", "/", "*"]),
              "resolveProvider" := JBool(false)]);
    Capabilities.ResponseChecked(JInt(2), c, CompletionOptions);
    assert c.fields["triggerCharacters"].items[0] == JStr("<");
  }

  /** A server that syncs whole documents (`change` 1) fails the assertion. */
  lemma FullSyncRejected()
    ensures CheckCapabilities(Capabilities.Response(JInt(1), CompletionOptions)).Fail?
  {
    Capabilities.ResponseChecked(JInt(1), CompletionOptions, CompletionOptions);
  }

  /** After `initialized` is sent, completions are available and the server is ready. */
  method Initialized(ev: Handlers.ClientEvents)
    modifies ev
    ensures ev.completionsAvailable && ev.serverReady
    ensures ev.searcherAvailable == old(ev.searcherAvailable)
    ensures ev.resolveMainAvailable == old(ev.resolveMainAvailable)
    ensures ev.serviceReady == old(ev.serviceReady)
  {
    ev.completionsAvailable := true;
    ev.serverReady := true;
  }

  /** `s` with the access specifiers "public", "private" and "protected" removed, in that order. */
  function RemoveAccess(s: string): string
  {
    RemoveAll(RemoveAll(RemoveAll(s, "public"), "private"), "protected")
  }

  /**
   * Evidence on one stripped line: the line has a colon and names the target, and the
   * target still occurs after the first colon once access specifiers are removed.
   */
  predicate ColonClauseNames(line: string, target: string)
  {
    && ':' in line
    && Contains(line, target)
    && Contains(RemoveAccess(AfterFirst(line, ':')), target)
  }

  /**
   * The heuristic as a property of the file: within the window that starts at the
   * declaration line s, spans at most five lines and ends with the first line holding
   * `{`, some stripped line carries evidence.
   */
  predicate InheritsInWindow(lines: seq<string>, s: int, target: string)
    requires 0 <= s < |lines|
  {
    exists i | s <= i < |lines| && i < s + WindowSize ::
      && (forall j | s <= j < i :: '{' !in Strip(lines[j]))
      && ColonClauseNames(Strip(lines[i]), target)
  }

  /**
   * `_is_inheriting_from`: the file (None when it does not exist) is read as lines; a
   * start line that is missing, negative or past the end gives False.
   */
  method IsInheritingFrom(file: Option<seq<string>>, symbol: Json, target: string) returns (r: bool)
    ensures r <==> && file.Some?
                   && Declaration.InBounds(Declaration.RangeLine(symbol), |file.value|)
                   && InheritsInWindow(file.value, Declaration.RangeLine(symbol).value, target)
  {
    if file.None? {
      return false;
    }
    var lines := file.value;
    var startLine := Declaration.RangeLine(symbol);
    if startLine.None? || startLine.value < 0 || startLine.value >= |lines| {
      return false;
    }
    r := ScanWindow(lines, startLine.value, target);
  }

  /** The loop of `_is_inheriting_from`: the lines from the declaration on, until `{` or five lines. */
  method ScanWindow(lines: seq<string>, s: int, target: string) returns (r: bool)
    requires 0 <= s < |lines|
    ensures r <==> InheritsInWindow(lines, s, target)
  {
    var stop := if s + WindowSize < |lines| then s + WindowSize else |lines|;
    var i := s;
    while i < stop
      invariant s <= i <= stop
      invariant forall j | s <= j < i :: '{' !in Strip(lines[j])
      invariant forall j | s <= j < i :: !ColonClauseNames(Strip(lines[j]), target)
    {
      var line := Strip(lines[i]);
      if ':' in line && Contains(line, target) {
        var inheritancePart := AfterFirst(line, ':');
        var inheritanceClean := RemoveAccess(inheritancePart);
        if Contains(inheritanceClean, target) {
          assert ColonClauseNames(Strip(lines[i]), target);
          return true;
        }
      }
      assert !ColonClauseNames(line, target);
      if '{' in line {
        // the window ends here: no later line can be a witness
        WindowClosed(lines, s, i, target);
        return false;
      }
      i := i + 1;
    }
    WindowExhausted(lines, s, target);
    return false;
  }

  /** When no line of the five-line window is evidence, the window holds none. */
  lemma WindowExhausted(lines: seq<string>, s: int, target: string)
    requires 0 <= s < |lines|
    requires forall j | s <= j < |lines| && j < s + WindowSize :: !ColonClauseNames(Strip(lines[j]), target)
    ensures !InheritsInWindow(lines, s, target)
  {
  }

  /** When line k holds `{` and no line up to k is evidence, the window holds none. */
  lemma WindowClosed(lines: seq<string>, s: int, k: int, target: string)
    requires 0 <= s <= k < |lines|
    requires '{' in Strip(lines[k])
    requires forall j | s <= j <= k :: !ColonClauseNames(Strip(lines[j]), target)
    ensures !InheritsInWindow(lines, s, target)
  {
  }

  /** The line holding `{` ends the window, but is itself checked first. */
  lemma {:induction false} BraceLineDecides(lines: seq<string>, s: int, k: int, target: string)
    requires 0 <= s <= k < |lines| && k < s + WindowSize
    requires '{' in Strip(lines[k])
    ensures InheritsInWindow(lines, s, target)
            <==> exists i | s <= i <= k :: (forall j | s <= j < i :: '{' !in Strip(lines[j]))
                                           && ColonClauseNames(Strip(lines[i]), target)
  {
    if InheritsInWindow(lines, s, target) {
      var i :| s <= i < |lines| && i < s + WindowSize
               && (forall j | s <= j < i :: '{' !in Strip(lines[j]))
               && ColonClauseNames(Strip(lines[i]), target);
      if i > k {
        assert false;
      }
    }
  }

  /** Evidence names the target, on a line with a colon. */
  lemma EvidenceNamesTarget(line: string, target: string)
    requires ColonClauseNames(line, target)
    ensures ':' in line && Contains(line, target)
  {
  }

  // ---- the repository's own fixtures ----

  /** `c` occurs in neither part, so the split at the first `c` is where they are glued. */
  lemma AfterFirstAt(a: string, c: char, b: string)
    requires c !in a
    ensures c in a + [c] + b && AfterFirst(a + [c] + b, c) == b
    decreases |a|
  {
    if a != [] {
      assert (a + [c] + b)[1..] == a[1..] + [c] + b;
      AfterFirstAt(a[1..], c, b);
    } else {
      assert (a + [c] + b)[1..] == b;
    }
  }
  /**
   * A base clause ` kw B1, kw B2, ..., kw Bn`: every base preceded by the access
   * keyword kw, which may be empty.
   */
  function Clause(kw: string, bases: seq<string>): string
  {
    if bases == [] then ""
    else if |bases| == 1 then " " + (kw + (" " + bases[0]))
    else " " + (kw + (" " + (bases[0] + ("," + Clause(kw, bases[1..])))))
  }

  /** The base clause ` public B1, public B2, ..., public Bn` of a class declaration. */
  function PublicBases(bases: seq<string>): string
  {
    Clause("public", bases)
  }

  /** The same clause once the access specifiers are removed: `  B1,  B2, ...,  Bn`. */
  function BareBases(bases: seq<string>): string
  {
    Clause("", bases)
  }

  /**
   * No base name contains an access keyword, so removing the keywords cannot cut
   * into a name (a base named `republic` would lose its `public`).
   */
  predicate NoAccessInBases(bases: seq<string>)
  {
    forall k | 0 <= k < |bases| ::
      !Contains(bases[k], "public") && !Contains(bases[k], "private") && !Contains(bases[k], "protected")
  }

  /**
   * Removing p, which holds neither a space nor a comma, from a clause removes it
   * from the keyword alone, when no base name contains p.
   */
  lemma {:induction false} ClauseRemove(kw: string, bases: seq<string>, p: string)
    requires p != [] && ' ' !in p && ',' !in p
    requires forall k | 0 <= k < |bases| :: !Contains(bases[k], p)
    ensures RemoveAll(Clause(kw, bases), p) == Clause(RemoveAll(kw, p), bases)
    decreases |bases|
  {
    if |bases| == 1 {
      RemoveAllNotContained(bases[0], p);
      KeywordRemove(kw, bases[0], bases[0], p);
    } else if |bases| > 1 {
      assert forall k | 0 <= k < |bases[1..]| :: bases[1..][k] == bases[k + 1];
      ClauseRemove(kw, bases[1..], p);
      HeadRemove(kw, bases[0], Clause(kw, bases[1..]), Clause(RemoveAll(kw, p), bases[1..]), p);
    }
  }

  /** A base ` kw B,` before the rest t of the clause keeps its name. */
  lemma HeadRemove(kw: string, b: string, t: string, rt: string, p: string)
    requires p != [] && ' ' !in p && ',' !in p && !Contains(b, p) && RemoveAll(t, p) == rt
    ensures RemoveAll(" " + (kw + (" " + (b + ("," + t)))), p) == " " + (RemoveAll(kw, p) + (" " + (b + ("," + rt))))
  {
    RemoveAllNotContained(b, p);
    RemoveAllSplit(b, ',', t, p);
    assert b + ("," + t) == b + [','] + t;
    assert b + ("," + rt) == b + [','] + rt;
    KeywordRemove(kw, b + ("," + t), b + ("," + rt), p);
  }

  /** ` kw x` loses p from kw and from x separately. */
  lemma KeywordRemove(kw: string, x: string, rx: string, p: string)
    requires p != [] && ' ' !in p && RemoveAll(x, p) == rx
    ensures RemoveAll(" " + (kw + (" " + x)), p) == " " + (RemoveAll(kw, p) + (" " + rx))
  {
    RemoveAllSplit(kw, ' ', x, p);
    assert kw + (" " + x) == kw + [' '] + x;
    RemoveAllSplit([], ' ', kw + [' '] + x, p);
    assert " " + (kw + (" " + x)) == [] + [' '] + (kw + [' '] + x);
    assert RemoveAll([], p) == [];
  }

  /** Removing p from `x {` removes it from x alone. */
  lemma BraceRemove(x: string, p: string)
    requires |p| > 1 && ' ' !in p
    ensures RemoveAll(x + " {", p) == RemoveAll(x, p) + " {"
  {
    RemoveAllShort("{", p);
    RemoveAllSplit(x, ' ', "{", p);
    assert x + " {" == x + [' '] + "{";
  }

  /** Removing the access specifiers from a base clause and the brace that follows it. */
  lemma RemoveAccessBases(bases: seq<string>)
    requires NoAccessInBases(bases)
    ensures RemoveAccess(PublicBases(bases) + " {") == BareBases(bases) + " {"
  {
    ClauseRemove("public", bases, "public");
    RemoveAllDropsHead([], "public");
    assert RemoveAll("public", "public") == [];
    BraceRemove(PublicBases(bases), "public");
    ClauseRemove("", bases, "private");
    BraceRemove(BareBases(bases), "private");
    ClauseRemove("", bases, "protected");
    BraceRemove(BareBases(bases), "protected");
  }

  /** Every base of the list occurs in its clause. */
  lemma {:induction false} ClauseName(kw: string, bases: seq<string>, k: int)
    requires 0 <= k < |bases|
    ensures Contains(Clause(kw, bases), bases[k])
    decreases |bases|
  {
    var b := Clause(kw, bases);
    var at := 2 + |kw|;
    if k == 0 {
      assert b[at..at + |bases[0]|] == bases[0];
      assert OccursAt(b, bases[0], at);
    } else {
      ClauseName(kw, bases[1..], k - 1);
      var tail := Clause(kw, bases[1..]);
      var i :| 0 <= i <= |tail| && OccursAt(tail, bases[k], i);
      var off := at + |bases[0]| + 1;
      assert b == " " + kw + " " + bases[0] + "," + tail;
      assert b[off + i..off + i + |bases[k]|] == tail[i..i + |bases[k]|];
      assert OccursAt(b, bases[k], off + i);
    }
  }

  /** The declaration `class S : public B1, ..., public Bn {`. */
  function ClassDecl(name: string, bases: seq<string>): string
  {
    "class " + name + " :" + PublicBases(bases) + " {"
  }

  /**
   * A declaration `class S : public B1, ..., public Bn {` (ChildClass.h,
   * MultipleInterfaces.h) is evidence that S inherits from each Bi, for base names
   * that hold no access keyword (so that removing the keywords cannot cut into
   * them) and a class name without a colon.
   */
  lemma PublicBaseIsEvidence(name: string, bases: seq<string>, k: int)
    requires ':' !in name && NoAccessInBases(bases) && 0 <= k < |bases|
    ensures ColonClauseNames(Strip(ClassDecl(name, bases)), bases[k])
  {
    var line := ClassDecl(name, bases);
    var pre := "class " + name + " ";
    var after := PublicBases(bases) + " {";
    assert Strip(line) == line by {
      assert line[0] == 'c' && line[|line| - 1] == '{';
      StripUnchanged(line);
    }
    assert AfterFirst(line, ':') == after by {
      assert line == pre + [':'] + after;
      AfterFirstAt(pre, ':', after);
    }
    BareClauseNames(bases, k);
    DeclarationNames(name, bases, k);
  }

  /** After the access specifiers are removed, the clause still names every base. */
  lemma BareClauseNames(bases: seq<string>, k: int)
    requires NoAccessInBases(bases) && 0 <= k < |bases|
    ensures Contains(RemoveAccess(PublicBases(bases) + " {"), bases[k])
  {
    RemoveAccessBases(bases);
    ClauseName("", bases, k);
    ContainsPrefix(BareBases(bases), " {");
    ContainsTransitive(BareBases(bases) + " {", BareBases(bases), bases[k]);
  }

  /** The declaration names every base. */
  lemma DeclarationNames(name: string, bases: seq<string>, k: int)
    requires 0 <= k < |bases|
    ensures Contains(ClassDecl(name, bases), bases[k])
  {
    var line := ClassDecl(name, bases);
    var pre := "class " + name + " ";
    ClauseName("public", bases, k);
    assert line == pre + ":" + PublicBases(bases) + " {";
    assert line[|pre| + 1..|pre| + 1 + |PublicBases(bases)|] == PublicBases(bases);
    assert OccursAt(line, PublicBases(bases), |pre| + 1);
    ContainsTransitive(line, PublicBases(bases), bases[k]);
  }

  /** The declaration line of ChildClass.h has this form. */
  lemma ChildClassDeclaration()
    ensures ClassDecl("ChildClass", ["BaseClass"]) == "class ChildClass : public BaseClass {"
  {
    assert PublicBases(["BaseClass"]) == " public BaseClass";
  }

  /**
   * A base with a lower-case `p` is found too: `class Circle : public Shape {` has the
   * form above, and `Shape` holds no access keyword, so PublicBaseIsEvidence applies.
   */
  lemma ShapeBaseIsEvidence()
    ensures ClassDecl("Circle", ["Shape"]) == "class Circle : public Shape {"
    ensures NoAccessInBases(["Shape"])
  {
    assert PublicBases(["Shape"]) == " public Shape";
    ShorterNotContained("Shape", "public");
    ShorterNotContained("Shape", "private");
    ShorterNotContained("Shape", "protected");
  }

  lemma ShorterNotContained(s: string, p: string)
    requires |s| < |p|
    ensures !Contains(s, p)
  {
  }

  /** A window in which no line names the target holds no evidence (NonExistentClass). */
  lemma NoMentionNoInheritance(lines: seq<string>, s: int, target: string)
    requires 0 <= s < |lines|
    requires forall j | s <= j < |lines| && j < s + WindowSize :: !Contains(Strip(lines[j]), target)
    ensures !InheritsInWindow(lines, s, target)
  {
  }

  /** `class BaseClass {` (BaseClass.h) does not inherit from ChildClass: no colon, and `{` ends the window. */
  lemma BaseClassDoesNotInheritChildClass(lines: seq<string>, s: int)
    requires 0 <= s < |lines| && lines[s] == "class BaseClass {"
    ensures !InheritsInWindow(lines, s, "ChildClass")
  {
    var line := lines[s];
    StripUnchanged(line);
    assert ':' !in line;
    assert line[16] == '{';
    BraceLineDecides(lines, s, s, "ChildClass");
  }
}
