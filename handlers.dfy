/**
 * The notification and request handlers a client registers before it starts its
 * server, and the readiness flags they raise. A flag is a one-way event: a handler
 * may set it, never clear it. A handler that raises (a missing key, an assertion)
 * returns `Fail`; flags it set before raising stay set.
 */
module Handlers {
  import opened Wrappers
  import opened PyJson

  const ExecuteCommand := "workspace/executeCommand"

  /**
   * What `for registration in v` followed by `registration["method"]` can reach: a
   * list yields its items; a non-empty dict or string yields a string first, and
   * indexing a string by a key raises TypeError; anything else is not iterable.
   */
  function RegistrationItems(v: Json): (r: Result<seq<Json>, PyError>)
    ensures v.JArr? ==> r == Ok(v.items)
    ensures r.Err? ==> r.error == TypeError
    ensures r.Ok? && r.value != [] ==> v.JArr?
    ensures r.Ok? <==> v.JArr? || v == JObj(map[]) || v == JStr("")
  {
    match v
    case JArr(items) => Ok(items)
    case JObj(fields) => if fields == map[] then Ok([]) else Err(TypeError)
    case JStr(s) => if s == [] then Ok([]) else Err(TypeError)
    case _ => Err(TypeError)
  }

  /**
   * `registration["method"]` for the registrations in order, up to the first lookup
   * that raises, together with that error.
   */
  function Methods(regs: seq<Json>): (r: (seq<Json>, Option<PyError>))
    ensures |r.0| <= |regs|
    ensures r.1.None? <==> |r.0| == |regs|
    ensures forall k | 0 <= k < |r.0| :: Index(regs[k], "method") == Ok(r.0[k])
    ensures r.1.Some? ==> Index(regs[|r.0|], "method") == Err(r.1.value)
  {
    if regs == [] then ([], None)
    else
      match Index(regs[0], "method")
      case Err(e) => ([], Some(e))
      case Ok(m) =>
        var rest := Methods(regs[1..]);
        ([m] + rest.0, rest.1)
  }

  /** The methods a `client/registerCapability` request announces, or why reading them raises. */
  function RegisteredMethods(params: Json): (r: Result<(seq<Json>, Option<PyError>), PyError>)
    ensures r.Ok? ==> In("registrations", params) == Ok(true)
    ensures In("registrations", params) == Ok(false) ==> r == Err(AssertionError)
  {
    match In("registrations", params)
    case Err(e) => Err(e)
    case Ok(present) =>
      if !present then Err(AssertionError)
      else
        match Index(params, "registrations")
        case Err(e) => Err(e)
        case Ok(v) =>
          match RegistrationItems(v)
          case Err(e) => Err(e)
          case Ok(items) => Ok(Methods(items))
  }

  /** Some announced method equals m under Python's `==`, which for a string is equality (PyEqString). */
  predicate Announces(methods: seq<Json>, m: string)
  {
    JStr(m) in methods
  }

  /** The request raises nowhere. */
  predicate RegistrationsRead(rm: Result<(seq<Json>, Option<PyError>), PyError>)
  {
    rm.Ok? && rm.value.1.None?
  }

  /** The request announces m before anything raises. */
  predicate RegistrationAnnounces(rm: Result<(seq<Json>, Option<PyError>), PyError>, m: string)
  {
    rm.Ok? && Announces(rm.value.0, m)
  }

  /** A well-formed request announcing the given methods. */
  function Registration(methods: seq<string>): (r: Json)
    ensures RegisteredMethods(r).Ok?
  {
    JObj(map["registrations" := JArr(seq(|methods|, k requires 0 <= k < |methods| =>
      JObj(map["id" := JStr(methods[k]), "method" := JStr(methods[k])])))])
  }

  /** Reading a well-formed request yields exactly its methods. */
  lemma RegistrationMethods(methods: seq<string>)
    ensures RegisteredMethods(Registration(methods)) == Ok((seq(|methods|, k requires 0 <= k < |methods| => JStr(methods[k])), None))
  {
    var items := Registration(methods).fields["registrations"].items;
    assert |items| == |methods|;
    assert forall k | 0 <= k < |items| :: Index(items[k], "method") == Ok(JStr(methods[k]));
    var r := Methods(items);
    assert r.1.None?;
    var expected := seq(|methods|, k requires 0 <= k < |methods| => JStr(methods[k]));
    assert r.0 == expected;
  }

  /** A well-formed request announces exactly the methods it lists. */
  lemma RegistrationAnnouncesListed(methods: seq<string>, m: string)
    ensures RegistrationAnnounces(RegisteredMethods(Registration(methods)), m) <==> m in methods
  {
    RegistrationMethods(methods);
    var ms := seq(|methods|, k requires 0 <= k < |methods| => JStr(methods[k]));
    if m in methods {
      var k :| 0 <= k < |methods| && methods[k] == m;
      assert ms[k] == JStr(m);
    }
    if Announces(ms, m) {
      var k :| 0 <= k < |ms| && ms[k] == JStr(m);
      assert methods[k] == m;
    }
  }

  /**
   * The readiness events of a client (asyncio or threading events, each modelled
   * by whether it is set).
   */
  class ClientEvents {
    var serverReady: bool
    var completionsAvailable: bool
    var searcherAvailable: bool
    var resolveMainAvailable: bool
    var serviceReady: bool

    /** A freshly constructed client: no event is set. */
    constructor ()
      ensures !serverReady && !completionsAvailable && !searcherAvailable
      ensures !resolveMainAvailable && !serviceReady
    {
      serverReady := false;
      completionsAvailable := false;
      searcherAvailable := false;
      resolveMainAvailable := false;
      serviceReady := false;
    }

    /**
     * `client/registerCapability` in clangd and rust-analyzer: each registration whose
     * method is `workspace/executeCommand` sets the searcher and main-method events.
     */
    method RegisterCapability(params: Json) returns (r: Outcome<PyError>)
      modifies this
      ensures var rm := RegisteredMethods(params);
              && (r.Pass? <==> RegistrationsRead(rm))
              && searcherAvailable == (old(searcherAvailable) || RegistrationAnnounces(rm, ExecuteCommand))
              && resolveMainAvailable == (old(resolveMainAvailable) || RegistrationAnnounces(rm, ExecuteCommand))
      ensures serverReady == old(serverReady) && completionsAvailable == old(completionsAvailable)
      ensures serviceReady == old(serviceReady)
    {
      var present := In("registrations", params);
      if present.Err? {
        return Fail(present.error);
      }
      if !present.value {
        return Fail(AssertionError);
      }
      var v := Index(params, "registrations");
      if v.Err? {
        return Fail(v.error);
      }
      var items := RegistrationItems(v.value);
      if items.Err? {
        return Fail(items.error);
      }
      var regs := items.value;
      ghost var ms := Methods(regs);
      var i := 0;
      while i < |regs|
        invariant 0 <= i <= |regs|
        invariant i <= |ms.0|
        invariant searcherAvailable == (old(searcherAvailable) || Announces(ms.0[..i], ExecuteCommand))
        invariant resolveMainAvailable == (old(resolveMainAvailable) || Announces(ms.0[..i], ExecuteCommand))
        invariant serverReady == old(serverReady) && completionsAvailable == old(completionsAvailable)
        invariant serviceReady == old(serviceReady)
      {
        var m := Index(regs[i], "method");
        if m.Err? {
          assert |ms.0| == i;
          assert ms.0[..i] == ms.0;
          return Fail(m.error);
        }
        assert ms.0[i] == m.value;
        // Python's `==` against a string literal is equality (PyEqString)
        if m.value == JStr(ExecuteCommand) {
          searcherAvailable := true;
          resolveMainAvailable := true;
        }
        assert ms.0[..i + 1] == ms.0[..i] + [m.value];
        AnnouncesSnoc(ms.0[..i], m.value, ExecuteCommand);
        i := i + 1;
      }
      assert ms.0[..i] == ms.0;
      return Pass;
    }

    /**
     * `language/status`: a status whose type and message are both "ServiceReady" sets
     * the service-ready event; a missing key raises.
     */
    method LanguageStatus(params: Json) returns (r: Outcome<PyError>)
      modifies this
      ensures r.Pass? <==> Index(params, "type").Ok?
                           && (PyEq(Index(params, "type").value, JStr("ServiceReady")) ==> Index(params, "message").Ok?)
      ensures serviceReady == (old(serviceReady) || ServiceReadyStatus(params))
      ensures serverReady == old(serverReady) && completionsAvailable == old(completionsAvailable)
      ensures searcherAvailable == old(searcherAvailable) && resolveMainAvailable == old(resolveMainAvailable)
    {
      var t := Index(params, "type");
      if t.Err? {
        return Fail(t.error);
      }
      if PyEq(t.value, JStr("ServiceReady")) {
        var m := Index(params, "message");
        if m.Err? {
          return Fail(m.error);
        }
        if PyEq(m.value, JStr("ServiceReady")) {
          serviceReady := true;
        }
      }
      return Pass;
    }

    /**
     * `experimental/serverStatus` in clangd and rust-analyzer: `params["quiescent"] == True`
     * sets the server-ready event; a missing key raises.
     */
    method ExperimentalStatus(params: Json) returns (r: Outcome<PyError>)
      modifies this
      ensures r.Pass? <==> Index(params, "quiescent").Ok?
      ensures serverReady == (old(serverReady) || Quiescent(params))
      ensures completionsAvailable == old(completionsAvailable) && serviceReady == old(serviceReady)
      ensures searcherAvailable == old(searcherAvailable) && resolveMainAvailable == old(resolveMainAvailable)
    {
      var q := Index(params, "quiescent");
      if q.Err? {
        return Fail(q.error);
      }
      if PyEq(q.value, JBool(true)) {
        serverReady := true;
      }
      return Pass;
    }
  }

  /** `params["type"] == "ServiceReady" and params["message"] == "ServiceReady"` holds without raising. */
  predicate ServiceReadyStatus(params: Json)
  {
    && Index(params, "type").Ok? && PyEq(Index(params, "type").value, JStr("ServiceReady"))
    && Index(params, "message").Ok? && PyEq(Index(params, "message").value, JStr("ServiceReady"))
  }

  /** `params["quiescent"] == True` holds without raising. */
  predicate Quiescent(params: Json)
  {
    Index(params, "quiescent").Ok? && PyEq(Index(params, "quiescent").value, JBool(true))
  }

  /** Python's `== True` also holds for the number 1, and for nothing else but True. */
  lemma QuiescentValues(q: Json)
    ensures Quiescent(JObj(map["quiescent" := q])) <==> q == JBool(true) || q == JInt(1)
  {
  }

  lemma AnnouncesSnoc(ms: seq<Json>, m: Json, name: string)
    ensures Announces(ms + [m], name) <==> Announces(ms, name) || m == JStr(name)
  {
  }
}
