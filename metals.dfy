/**
 * The Scala client for Metals: which action it picks for a `window/showMessageRequest`,
 * the readiness flags its handlers raise, the compile tracking that tells it when to
 * ask for references again, and the merge of the two reference answers.
 */
module Metals {
  import opened Wrappers
  import opened PyJson
  import opened Text
  import Handlers

  /** Seconds to wait for the compile-finished signal before answering references. */
  const CrossFileWaitTime := 10

  const ImportBuild := "Import build"
  const Completion := "textDocument/completion"
  const DocumentSymbol := "textDocument/documentSymbol"
  const Definition := "textDocument/definition"

  // ---- window/showMessageRequest ----

  /** The action's title equals "Import build" (`action.get("title") == "Import build"`). */
  predicate Titled(action: Json)
  {
    Get(action, "title", JNull).Ok? && PyEq(Get(action, "title", JNull).value, JStr(ImportBuild))
  }

  /** Action k is the first one titled "Import build", and every action before it is a dict. */
  predicate FirstTitled(actions: seq<Json>, k: int)
  {
    0 <= k < |actions| && Titled(actions[k])
    && forall j | 0 <= j < k :: actions[j].JObj? && !Titled(actions[j])
  }

  /** The loop over a list of actions looking for "Import build". */
  function ImportIn(actions: seq<Json>): (r: Result<Option<Json>, PyError>)
    ensures forall k | FirstTitled(actions, k) :: r == Ok(Some(actions[k]))
    ensures r == Ok(None) <==> forall k | 0 <= k < |actions| :: actions[k].JObj? && !Titled(actions[k])
    ensures r.Err? ==> r.error == AttributeError
    ensures r.Ok? && r.value.Some? ==> exists k :: FirstTitled(actions, k)
    ensures (forall k | 0 <= k < |actions| :: actions[k].JObj?) ==> r.Ok?
  {
    if actions == [] then Ok(None)
    else
      match Get(actions[0], "title", JNull)
      case Err(e) => Err(e)
      case Ok(title) =>
        if PyEq(title, JStr(ImportBuild)) then
          assert FirstTitled(actions, 0);
          Ok(Some(actions[0]))
        else
          var r := ImportIn(actions[1..]);
          assert forall k | FirstTitled(actions, k) :: FirstTitled(actions[1..], k - 1);
          assert forall k | FirstTitled(actions[1..], k) :: FirstTitled(actions, k + 1);
          assert (forall k | 0 <= k < |actions[1..]| :: actions[1..][k].JObj? && !Titled(actions[1..][k]))
              <==> (forall k | 1 <= k < |actions| :: actions[k].JObj? && !Titled(actions[k]));
          r
  }

  /**
   * `for action in actions` on a truthy value: a list yields its items; a non-empty
   * string or dict yields strings, which have no `.get`; anything else is not iterable.
   */
  function ImportAction(actions: Json): (r: Result<Option<Json>, PyError>)
    requires Truthy(actions)
    ensures actions.JArr? ==> r == ImportIn(actions.items)
    ensures !actions.JArr? ==> r.Err?
  {
    match actions
    case JArr(items) => ImportIn(items)
    case JStr(_) => Err(AttributeError)
    case JObj(_) => Err(AttributeError)
    case _ => Err(TypeError)
  }

  /** `window_show_message_request`: the action to answer with, None for no action, or what raises. */
  function ChooseAction(params: Json): (r: Result<Option<Json>, PyError>)
    ensures !params.JObj? ==> r == Err(AttributeError)
    ensures r == Ok(None) ==> !Truthy(Get(params, "actions", JArr([])).value)
  {
    match Get(params, "message", JStr(""))
    case Err(e) => Err(e)
    case Ok(message) =>
      var actions := Get(params, "actions", JArr([])).value;
      match In(ImportBuild, message)
      case Err(e) => Err(e)
      case Ok(mentions) =>
        var imported := if mentions && Truthy(actions) then ImportAction(actions) else Ok(None);
        match imported
        case Err(e) => Err(e)
        case Ok(Some(a)) => Ok(Some(a))
        case Ok(None) =>
          if !Truthy(actions) then Ok(None)
          else
            match First(actions)
            case Err(e) => Err(e)
            case Ok(a) => Ok(Some(a))
  }

  /** A request with a string message and a list of actions. */
  function ShowMessageRequest(message: string, actions: seq<Json>): Json
  {
    JObj(map["type" := JInt(3), "message" := JStr(message), "actions" := JArr(actions)])
  }

  /** For dict actions, there is no answer exactly when there are no actions. */
  lemma NoActionIffEmpty(message: string, actions: seq<Json>)
    requires forall k | 0 <= k < |actions| :: actions[k].JObj?
    ensures ChooseAction(ShowMessageRequest(message, actions)).Ok?
    ensures ChooseAction(ShowMessageRequest(message, actions)) == Ok(None) <==> actions == []
  {
    var p := ShowMessageRequest(message, actions);
    assert Get(p, "message", JStr("")) == Ok(JStr(message));
    assert Get(p, "actions", JArr([])) == Ok(JArr(actions));
    assert ImportIn(actions).Ok?;
  }

  /** A message mentioning "Import build" is answered with the first action so titled. */
  lemma ImportBuildChosen(message: string, actions: seq<Json>, k: int)
    requires Contains(message, ImportBuild) && FirstTitled(actions, k)
    ensures ChooseAction(ShowMessageRequest(message, actions)) == Ok(Some(actions[k]))
  {
    var p := ShowMessageRequest(message, actions);
    assert Get(p, "message", JStr("")) == Ok(JStr(message));
    assert Get(p, "actions", JArr([])) == Ok(JArr(actions));
    assert actions != [];
  }

  /** Otherwise the first action is the answer. */
  lemma FirstActionChosen(message: string, actions: seq<Json>)
    requires actions != []
    requires forall k | 0 <= k < |actions| :: actions[k].JObj?
    requires !Contains(message, ImportBuild) || forall k | 0 <= k < |actions| :: !Titled(actions[k])
    ensures ChooseAction(ShowMessageRequest(message, actions)) == Ok(Some(actions[0]))
  {
    var p := ShowMessageRequest(message, actions);
    assert Get(p, "message", JStr("")) == Ok(JStr(message));
    assert Get(p, "actions", JArr([])) == Ok(JArr(actions));
    if Contains(message, ImportBuild) {
      assert ImportIn(actions) == Ok(None);
    }
  }

  // ---- metals/status compile tracking ----

  /**
   * One `metals/status` step of the compile tracker on (compiling, retry): a shown
   * status mentioning "compile" starts a compilation; a hide during a compilation ends
   * it and raises the retry signal.
   */
  function StatusStep(compiling: bool, retry: bool, show: bool, hidden: bool, mentionsCompile: bool): (r: (bool, bool))
  {
    var started := compiling || (show && mentionsCompile);
    if hidden && started then (false, true) else (started, retry)
  }

  /** A shown "compile" status without a hide leaves the tracker compiling. */
  lemma ShowCompileStarts(retry: bool, compiling: bool)
    ensures StatusStep(compiling, retry, true, false, true) == (true, retry)
  {
  }

  /** A hide while compiling ends the compilation and raises the retry signal. */
  lemma HideWhileCompilingSignals(retry: bool, show: bool, mentionsCompile: bool)
    ensures StatusStep(true, retry, show, true, mentionsCompile) == (false, true)
  {
  }

  /** A status that starts no compilation changes nothing while idle. */
  lemma IdleUnchanged(retry: bool, hidden: bool, show: bool, mentionsCompile: bool)
    requires !(show && mentionsCompile)
    ensures StatusStep(false, retry, show, hidden, mentionsCompile) == (false, retry)
  {
  }

  /** The retry signal is raised only by a hide that ends a compilation, and never lowered. */
  lemma RetryOnlyAfterCompile(compiling: bool, retry: bool, show: bool, hidden: bool, mentionsCompile: bool)
    ensures retry ==> StatusStep(compiling, retry, show, hidden, mentionsCompile).1
    ensures StatusStep(compiling, retry, show, hidden, mentionsCompile).1 && !retry
            ==> hidden && (compiling || (show && mentionsCompile))
    ensures StatusStep(compiling, retry, show, hidden, mentionsCompile).1 && !retry
            ==> !StatusStep(compiling, retry, show, hidden, mentionsCompile).0
  {
  }

  /** `re.search(r"compile", text, re.I)` on a string. */
  predicate MentionsCompile(text: string)
  {
    Contains(Lower(text), "compile")
  }

  /** `(params or {}).get("text", "")`. */
  function StatusText(params: Json): Json
    requires params.JObj?
  {
    Get(params, "text", JStr("")).value
  }

  /** `bool(params.get("show"))`. */
  predicate Shown(params: Json)
    requires params.JObj?
  {
    Truthy(Get(params, "show", JNull).value)
  }

  /** `bool(params.get("hide"))`. */
  predicate Hidden(params: Json)
    requires params.JObj?
  {
    Truthy(Get(params, "hide", JNull).value)
  }

  /** The status text is a string mentioning "compile". */
  predicate CompileStatus(params: Json)
    requires params.JObj?
  {
    StatusText(params).JStr? && MentionsCompile(StatusText(params).s)
  }

  // ---- window/logMessage ----

  /** The message a `window/logMessage` notification carries: `(msg or {}).get("message", "")`. */
  function LogText(msg: Json): Result<Json, PyError>
  {
    Get(if Truthy(msg) then msg else JObj(map[]), "message", JStr(""))
  }

  /**
   * Whether a log message asks for references again: its text, lower-cased, mentions
   * "find references" or "references again". A truthy message that is not a dict has
   * no `get`; a text that is not a string has no `lower`.
   */
  function LogAsksForReferences(msg: Json): (r: Result<bool, PyError>)
    ensures r.Err? <==> (Truthy(msg) && !msg.JObj?)
                        || (msg.JObj? && "message" in msg.fields && !msg.fields["message"].JStr?)
    ensures r == Ok(true) ==> msg.JObj? && "message" in msg.fields && msg.fields["message"].JStr?
                              && var m := Lower(msg.fields["message"].s);
                                 Contains(m, "find references") || Contains(m, "references again")
    ensures msg.JObj? && "message" in msg.fields && msg.fields["message"].JStr?
            && (var m := Lower(msg.fields["message"].s);
                Contains(m, "find references") || Contains(m, "references again"))
            ==> r == Ok(true)
  {
    match LogText(msg)
    case Err(e) => Err(e)
    case Ok(text) =>
      if !text.JStr? then Err(AttributeError)
      else
        var m := Lower(text.s);
        Ok(Contains(m, "find references") || Contains(m, "references again"))
  }

  /** The client's events and the compile tracker. */
  class MetalsClient {
    var serverReady: bool
    var completionsAvailable: bool
    var searcherAvailable: bool
    var compiling: bool
    var refsRetry: bool

    /** A freshly constructed client: nothing set, not compiling. */
    constructor ()
      ensures !serverReady && !completionsAvailable && !searcherAvailable && !compiling && !refsRetry
    {
      serverReady := false;
      completionsAvailable := false;
      searcherAvailable := false;
      compiling := false;
      refsRetry := false;
    }

    /**
     * `register_capability_handler`: executeCommand sets the searcher event, completion
     * the completions event, documentSymbol or definition the ready event.
     */
    method RegisterCapability(params: Json) returns (r: Outcome<PyError>)
      modifies this
      ensures var rm := Handlers.RegisteredMethods(params);
              && (r.Pass? <==> Handlers.RegistrationsRead(rm))
              && searcherAvailable == (old(searcherAvailable) || Handlers.RegistrationAnnounces(rm, Handlers.ExecuteCommand))
              && completionsAvailable == (old(completionsAvailable) || Handlers.RegistrationAnnounces(rm, Completion))
              && serverReady == (old(serverReady) || Handlers.RegistrationAnnounces(rm, DocumentSymbol)
                                                  || Handlers.RegistrationAnnounces(rm, Definition))
      ensures compiling == old(compiling) && refsRetry == old(refsRetry)
    {
      var present := In("registrations", params);
      if present.Err? {
        return Fail(present.error);
      }
      if !present.value {
        return Fail(AssertionError);
      }
      var v := Index(params, "registrations");
      if v.Err? {
        return Fail(v.error);
      }
      var items := Handlers.RegistrationItems(v.value);
      if items.Err? {
        return Fail(items.error);
      }
      r := Announce(items.value);
    }

    /** The loop of `register_capability_handler` over the registrations, in order. */
    method Announce(regs: seq<Json>) returns (r: Outcome<PyError>)
      modifies this
      ensures r.Pass? <==> Handlers.Methods(regs).1.None?
      ensures searcherAvailable == (old(searcherAvailable) || Handlers.Announces(Handlers.Methods(regs).0, Handlers.ExecuteCommand))
      ensures completionsAvailable == (old(completionsAvailable) || Handlers.Announces(Handlers.Methods(regs).0, Completion))
      ensures serverReady == (old(serverReady) || Handlers.Announces(Handlers.Methods(regs).0, DocumentSymbol)
                                               || Handlers.Announces(Handlers.Methods(regs).0, Definition))
      ensures compiling == old(compiling) && refsRetry == old(refsRetry)
    {
      ghost var ms := Handlers.Methods(regs);
      var i := 0;
      while i < |regs|
        invariant 0 <= i <= |regs| && i <= |ms.0|
        invariant searcherAvailable == (old(searcherAvailable) || Handlers.Announces(ms.0[..i], Handlers.ExecuteCommand))
        invariant completionsAvailable == (old(completionsAvailable) || Handlers.Announces(ms.0[..i], Completion))
        invariant serverReady == (old(serverReady) || Handlers.Announces(ms.0[..i], DocumentSymbol)
                                                   || Handlers.Announces(ms.0[..i], Definition))
        invariant compiling == old(compiling) && refsRetry == old(refsRetry)
      {
        var m := Index(regs[i], "method");
        if m.Err? {
          assert ms.0[..i] == ms.0;
          return Fail(m.error);
        }
        assert ms.0[i] == m.value;
        // Python's `==` against a string literal is equality (PyEqString)
        if m.value == JStr(Handlers.ExecuteCommand) {
          searcherAvailable := true;
        }
        if m.value == JStr(Completion) {
          completionsAvailable := true;
        }
        if m.value == JStr(DocumentSymbol) || m.value == JStr(Definition) {
          serverReady := true;
        }
        assert ms.0[..i + 1] == ms.0[..i] + [m.value];
        Handlers.AnnouncesSnoc(ms.0[..i], m.value, Handlers.ExecuteCommand);
        Handlers.AnnouncesSnoc(ms.0[..i], m.value, Completion);
        Handlers.AnnouncesSnoc(ms.0[..i], m.value, DocumentSymbol);
        Handlers.AnnouncesSnoc(ms.0[..i], m.value, Definition);
        i := i + 1;
      }
      assert ms.0[..i] == ms.0;
      return Pass;
    }

    /** `check_experimental_status`: `params.get("quiescent") == True` sets ready and completions. */
    method CheckExperimentalStatus(params: Json) returns (r: Outcome<PyError>)
      modifies this
      ensures r.Pass? <==> params.JObj?
      ensures var q := Get(params, "quiescent", JNull);
              && serverReady == (old(serverReady) || (q.Ok? && PyEq(q.value, JBool(true))))
              && completionsAvailable == (old(completionsAvailable) || (q.Ok? && PyEq(q.value, JBool(true))))
      ensures searcherAvailable == old(searcherAvailable)
      ensures compiling == old(compiling) && refsRetry == old(refsRetry)
    {
      var q := Get(params, "quiescent", JNull);
      if q.Err? {
        return Fail(q.error);
      }
      if PyEq(q.value, JBool(true)) {
        serverReady := true;
        completionsAvailable := true;
      }
      return Pass;
    }

    /**
     * `check_metals_status`: "Indexing finished" sets the ready event; then one step
     * of the compile tracker. Searching a text that is not a string raises TypeError,
     * after the ready event may have been set.
     */
    method CheckMetalsStatus(params: Json) returns (r: Outcome<PyError>)
      modifies this
      ensures !params.JObj? ==> r == Fail(AttributeError) && serverReady == old(serverReady)
      ensures params.JObj? ==>
                serverReady == (old(serverReady) || ("text" in params.fields && PyEq(params.fields["text"], JStr("Indexing finished"))))
      ensures params.JObj? && Shown(params) && !StatusText(params).JStr? ==>
                r == Fail(TypeError) && compiling == old(compiling) && refsRetry == old(refsRetry)
      ensures params.JObj? && !(Shown(params) && !StatusText(params).JStr?) ==>
                r.Pass? && (compiling, refsRetry) == StatusStep(old(compiling), old(refsRetry), Shown(params),
                                                                Hidden(params), CompileStatus(params))
      ensures completionsAvailable == old(completionsAvailable) && searcherAvailable == old(searcherAvailable)
    {
      var indexed := Get(params, "text", JNull);
      if indexed.Err? {
        return Fail(indexed.error);
      }
      if PyEq(indexed.value, JStr("Indexing finished")) {
        serverReady := true;
      }
      var text := Get(params, "text", JStr("")).value;
      var show := Truthy(Get(params, "show", JNull).value);
      var hidden := Truthy(Get(params, "hide", JNull).value);
      if show {
        if !text.JStr? {
          return Fail(TypeError);
        }
        if MentionsCompile(text.s) {
          compiling := true;
        }
      }
      if hidden && compiling {
        compiling := false;
        refsRetry := true;
      }
      return Pass;
    }

    /**
     * `window_log_message` as written: after logging it reads `params`, a name bound
     * neither in the handler nor around it, so every log message raises NameError and
     * no log message ever raises the retry signal.
     */
    method WindowLogMessageAsWritten(msg: Json) returns (r: Outcome<PyError>)
      ensures r == Fail(NameError)
    {
      return Fail(NameError);
    }

    /** `window_log_message` reading its own argument: a message asking for references raises the retry signal. */
    method WindowLogMessage(msg: Json) returns (r: Outcome<PyError>)
      modifies this
      ensures r.Pass? <==> LogAsksForReferences(msg).Ok?
      ensures refsRetry == (old(refsRetry) || LogAsksForReferences(msg) == Ok(true))
      ensures serverReady == old(serverReady) && completionsAvailable == old(completionsAvailable)
      ensures searcherAvailable == old(searcherAvailable) && compiling == old(compiling)
    {
      var asks := LogAsksForReferences(msg);
      if asks.Err? {
        return Fail(asks.error);
      }
      if asks.value {
        refsRetry := true;
      }
      return Pass;
    }

    /** After `initialized` the client treats Metals as ready: both events are set. */
    method Initialized()
      modifies this
      ensures serverReady && completionsAvailable
      ensures searcherAvailable == old(searcherAvailable)
      ensures compiling == old(compiling) && refsRetry == old(refsRetry)
    {
      serverReady := true;
      completionsAvailable := true;
    }

    /** `request_references` clears the retry signal before its first request. */
    method BeginReferences()
      modifies this
      ensures !refsRetry
      ensures serverReady == old(serverReady) && completionsAvailable == old(completionsAvailable)
      ensures searcherAvailable == old(searcherAvailable) && compiling == old(compiling)
    {
      refsRetry := false;
    }
  }

  /** The match ignores case: a status reading "Compile" counts. */
  lemma CompileMatchesIgnoringCase()
    ensures MentionsCompile("Compile")
  {
    assert Lower("Compile") == "compile";
    assert OccursAt(Lower("Compile"), "compile", 0);
  }

  /** "Compiling" does not contain "compile": such a status starts no compilation. */
  lemma CompilingDoesNotMatch()
    ensures !MentionsCompile("Compiling")
  {
    var c := Lower("Compiling");
    assert c == "compiling";
    forall i | 0 <= i <= |c|
      ensures !OccursAt(c, "compile", i)
    {
      if i + 7 <= |c| {
        assert c[i..i + 7][6] == c[i + 6];
      }
    }
  }

  /**
   * A log message reading "Please run Find References again" asks for references, in
   * any case: read as intended, it raises the retry signal that the handler as
   * written never raises.
   */
  lemma RetryRequestLogged()
    ensures LogAsksForReferences(JObj(map["message" := JStr("Please run Find References again")])) == Ok(true)
  {
    var m := Lower("Please run Find References again");
    assert m == "please run " + "find references" + " again";
    assert m[11..26] == "find references";
    assert OccursAt(m, "find references", 11);
  }

  /** A log message without a text, or no message at all, asks for nothing. */
  lemma EmptyLogAsksNothing(msg: Json)
    requires !Truthy(msg) || msg == JObj(map["type" := JInt(3)])
    ensures LogAsksForReferences(msg) == Ok(false)
  {
    assert LogText(msg) == Ok(JStr(""));
    assert !Contains("", "find references") by {
      forall i | 0 <= i <= 0 ensures !OccursAt("", "find references", i) {}
    }
    assert !Contains("", "references again") by {
      forall i | 0 <= i <= 0 ensures !OccursAt("", "references again", i) {}
    }
  }

  // ---- the references merge ----

  /** `xs` with every element after its first occurrence removed. */
  function Dedup<T(==)>(xs: seq<T>): (r: seq<T>)
  {
    if xs == [] then []
    else
      var d := Dedup(xs[..|xs| - 1]);
      if xs[|xs| - 1] in d then d else d + [xs[|xs| - 1]]
  }

  /** No element occurs twice. */
  predicate Distinct<T(==)>(xs: seq<T>)
  {
    forall i, j | 0 <= i < j < |xs| :: xs[i] != xs[j]
  }

  /** The index of the first occurrence of x. */
  function FirstIndex<T(==)>(xs: seq<T>, x: T): (r: nat)
    requires x in xs
    ensures r < |xs| && xs[r] == x && x !in xs[..r]
  {
    if xs[0] == x then 0 else 1 + FirstIndex(xs[1..], x)
  }

  lemma FirstIndexAppend<T>(xs: seq<T>, y: T, x: T)
    requires x in xs
    ensures FirstIndex(xs + [y], x) == FirstIndex(xs, x)
  {
    var i := FirstIndex(xs, x);
    var j := FirstIndex(xs + [y], x);
    assert (xs + [y])[..j] == xs[..j] || j == |xs|;
  }

  lemma FirstIndexLast<T>(xs: seq<T>, y: T)
    requires y !in xs
    ensures FirstIndex(xs + [y], y) == |xs|
  {
  }

  /** The merge keeps exactly the elements of its input. */
  lemma {:induction false} DedupElements<T>(xs: seq<T>)
    ensures forall x :: x in Dedup(xs) <==> x in xs
  {
    if xs != [] {
      var init := xs[..|xs| - 1];
      DedupElements(init);
      assert xs == init + [xs[|xs| - 1]];
    }
  }

  lemma DedupMember<T>(xs: seq<T>, i: int)
    requires 0 <= i < |Dedup(xs)|
    ensures Dedup(xs)[i] in xs
  {
    DedupElements(xs);
    assert Dedup(xs)[i] in Dedup(xs);
  }

  /** The merge has no duplicates. */
  lemma {:induction false} DedupDistinct<T>(xs: seq<T>)
    ensures Distinct(Dedup(xs))
  {
    if xs != [] {
      DedupDistinct(xs[..|xs| - 1]);
    }
  }

  /** The merge is no longer than its input. */
  lemma {:induction false} DedupLength<T>(xs: seq<T>)
    ensures |Dedup(xs)| <= |xs|
  {
    if xs != [] {
      DedupLength(xs[..|xs| - 1]);
    }
  }

  /** The merge lists elements in the order of their first occurrence. */
  lemma {:induction false} DedupFirstSeenOrder<T>(xs: seq<T>)
    ensures forall i, j | 0 <= i < j < |Dedup(xs)| ::
              Dedup(xs)[i] in xs && Dedup(xs)[j] in xs && FirstIndex(xs, Dedup(xs)[i]) < FirstIndex(xs, Dedup(xs)[j])
  {
    if xs != [] {
      var init := xs[..|xs| - 1];
      var y := xs[|xs| - 1];
      var d := Dedup(init);
      var r := Dedup(xs);
      DedupFirstSeenOrder(init);
      DedupElements(init);
      assert xs == init + [y];
      forall i, j | 0 <= i < j < |r|
        ensures r[i] in xs && r[j] in xs && FirstIndex(xs, r[i]) < FirstIndex(xs, r[j])
      {
        assert r[i] == d[i];
        DedupMember(init, i);
        FirstIndexAppend(init, y, d[i]);
        if j < |d| {
          assert r[j] == d[j];
          DedupMember(init, j);
          FirstIndexAppend(init, y, d[j]);
        } else {
          assert r[j] == y && y !in init;
          FirstIndexLast(init, y);
        }
      }
    }
  }

  /** A list without duplicates is its own merge. */
  lemma {:induction false} DedupDistinctUnchanged<T>(xs: seq<T>)
    requires Distinct(xs)
    ensures Dedup(xs) == xs
  {
    if xs != [] {
      var init := xs[..|xs| - 1];
      assert Distinct(init);
      DedupDistinctUnchanged(init);
      assert xs[|xs| - 1] !in init;
    }
  }

  /** Merging twice is merging once. */
  lemma DedupIdempotent<T>(xs: seq<T>)
    ensures Dedup(Dedup(xs)) == Dedup(xs)
  {
    DedupDistinct(xs);
    DedupDistinctUnchanged(Dedup(xs));
  }

  /**
   * The end of `request_references`: without the retry signal the first answer is
   * returned as it is; with it, both answers concatenated and deduplicated, a
   * location being kept at its first occurrence. Locations are compared whole.
   */
  method MergeReferences<L(==)>(first: seq<L>, second: seq<L>, signalled: bool) returns (refs: seq<L>)
    ensures !signalled ==> refs == first
    ensures signalled ==> refs == Dedup(first + second)
  {
    refs := first;
    if signalled {
      var all := first + second;
      var unique: seq<L> := [];
      var seen: set<L> := {};
      for i := 0 to |all|
        invariant unique == Dedup(all[..i])
        invariant forall x :: x in seen <==> x in unique
      {
        assert all[..i + 1][..i] == all[..i];
        if all[i] !in seen {
          unique := unique + [all[i]];
          seen := seen + {all[i]};
        }
      }
      assert all[..|all|] == all;
      refs := unique;
    }
  }

  // ---- the references merge as written ----

  /** A value Python cannot hash: a list or a dict. */
  predicate Unhashable(v: Json)
  {
    v.JArr? || v.JObj?
  }

  /**
   * `tuple(sorted(ref.items()))` followed by a set lookup: a reference that is not a
   * dict has no `.items`; a dict holding a list or dict value gives an unhashable key.
   */
  function AsWrittenKey(ref: Json): (r: Result<map<string, Json>, PyError>)
    ensures r.Err? ==> r.error == AttributeError || r.error == TypeError
  {
    if !ref.JObj? then Err(AttributeError)
    else if exists k | k in ref.fields :: Unhashable(ref.fields[k]) then Err(TypeError)
    else Ok(ref.fields)
  }

  /**
   * The merge loop as written, keyed by `tuple(sorted(ref.items()))`: it raises at the
   * first reference whose key cannot be formed or hashed.
   */
  method MergeAsWritten(first: seq<Json>, second: seq<Json>, signalled: bool) returns (r: Result<seq<Json>, PyError>)
    ensures !signalled ==> r == Ok(first)
    ensures signalled ==> (r.Err? <==> exists i | 0 <= i < |first + second| :: AsWrittenKey((first + second)[i]).Err?)
  {
    if !signalled {
      return Ok(first);
    }
    var all := first + second;
    var unique: seq<Json> := [];
    var seen: set<map<string, Json>> := {};
    for i := 0 to |all|
      invariant forall j | 0 <= j < i :: AsWrittenKey(all[j]).Ok?
    {
      var key := AsWrittenKey(all[i]);
      if key.Err? {
        return Err(key.error);
      }
      if key.value !in seen {
        unique := unique + [all[i]];
        seen := seen + {key.value};
      }
    }
    return Ok(unique);
  }

  /** An LSP Location: a uri and a range dict. */
  function Location(uri: string, startLine: int, endLine: int): Json
  {
    JObj(map[
      "uri" := JStr(uri),
      "range" := JObj(map[
        "start" := JObj(map["line" := JInt(startLine), "character" := JInt(0)]),
        "end" := JObj(map["line" := JInt(endLine), "character" := JInt(0)])])])
  }

  /**
   * Every Location holds its `range` as a dict, so its key cannot be hashed: as
   * written, a merge that sees any Location raises TypeError.
   */
  lemma LocationKeyUnhashable(uri: string, startLine: int, endLine: int)
    ensures AsWrittenKey(Location(uri, startLine, endLine)) == Err(TypeError)
  {
    assert "range" in Location(uri, startLine, endLine).fields;
  }

  /** With whole-location equality, the same reference answered twice is kept once. */
  lemma RepeatedLocationKeptOnce(uri: string, startLine: int, endLine: int)
    ensures Dedup([Location(uri, startLine, endLine)] + [Location(uri, startLine, endLine)])
            == [Location(uri, startLine, endLine)]
  {
    var loc := Location(uri, startLine, endLine);
    assert ([loc] + [loc])[..1] == [loc];
    assert [loc][..0] == [];
    assert Dedup([loc]) == [loc];
  }

  // ---- initialize params ----

  /** The Metals client's `initializationOptions`. */
  const InitializationOptions: Json := JObj(map[
    "compilerOptions" := JObj(map[
      "completionCommand" := JNull,
      "isCompletionItemDetailEnabled" := JBool(true),
      "isCompletionItemDocumentationEnabled" := JBool(true),
      "isCompletionItemResolve" := JBool(true),
      "isHoverDocumentationEnabled" := JBool(true),
      "isSignatureHelpDocumentationEnabled" := JBool(true),
      "overrideDefFormat" := JStr("ascli"),
      "snippetAutoIndent" := JBool(false)]),
    "debuggingProvider" := JBool(true),
    "decorationProvider" := JBool(false),
    "didFocusProvider" := JBool(false),
    "doctorProvider" := JBool(false),
    "executeClientCommandProvider" := JBool(false),
    "globSyntax" := JStr("uri"),
    "icons" := JStr("unicode"),
    "inputBoxProvider" := JBool(false),
    "isVirtualDocumentSupported" := JBool(false),
    "isExitOnShutdown" := JBool(true),
    "isHttpEnabled" := JBool(true),
    "openFilesOnRenameProvider" := JBool(false),
    "quickPickProvider" := JBool(false),
    "renameFileThreshold" := JInt(200),
    "statusBarProvider" := JStr("false"),
    "treeViewProvider" := JBool(false),
    "testExplorerProvider" := JBool(false),
    "openNewWindowProvider" := JBool(false),
    "copyWorksheetOutputProvider" := JBool(false),
    "doctorVisibilityProvider" := JBool(false)])

  /**
   * `_get_initialize_params`: the root path as given, its file URI (`Path.as_uri`, a
   * parameter) as rootUri, the process id, English locale and the options above.
   */
  function InitializeParams(root: string, asUri: string -> string, pid: int): (r: Json)
    ensures r.JObj? && r.fields.Keys == {"locale", "processId", "rootPath", "rootUri", "initializationOptions"}
    ensures r.fields["rootPath"] == JStr(root) && r.fields["rootUri"] == JStr(asUri(root))
    ensures r.fields["processId"] == JInt(pid) && r.fields["locale"] == JStr("en")
  {
    JObj(map[
      "locale" := JStr("en"),
      "processId" := JInt(pid),
      "rootPath" := JStr(root),
      "rootUri" := JStr(asUri(root)),
      "initializationOptions" := InitializationOptions])
  }
}
