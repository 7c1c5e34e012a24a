/**
 * The capability assertions the clients make on the `initialize` response before they
 * send `initialized`. A failed assertion (or a lookup that raises on the way) aborts the
 * start-up; the model returns it as `Fail`.
 */
module Capabilities {
  import opened Wrappers
  import opened PyJson

  /** TextDocumentSyncKind of LSP 3.17: None = 0, Full = 1, Incremental = 2. */
  datatype SyncKind = SyncNone | SyncFull | SyncIncremental

  function SyncKindCode(k: SyncKind): int
  {
    match k
    case SyncNone => 0
    case SyncFull => 1
    case SyncIncremental => 2
  }

  /** The sync kind a `change` value denotes, if any. */
  function SyncKindOf(change: Json): (r: Option<SyncKind>)
    ensures r.Some? ==> NumberOf(change) == Some(SyncKindCode(r.value))
    ensures NumberOf(change).Some? && 0 <= NumberOf(change).value <= 2 ==> r.Some?
  {
    match NumberOf(change)
    case Some(0) => Some(SyncNone)
    case Some(1) => Some(SyncFull)
    case Some(2) => Some(SyncIncremental)
    case _ => None
  }

  /** The response is a dict whose `capabilities` is a dict. */
  predicate HasCapabilityDict(resp: Json)
  {
    resp.JObj? && "capabilities" in resp.fields && resp.fields["capabilities"].JObj?
  }

  function Caps(resp: Json): map<string, Json>
    requires HasCapabilityDict(resp)
  {
    resp.fields["capabilities"].fields
  }

  /** `capabilities.textDocumentSync` is a dict whose `change` equals 2 (Incremental). */
  predicate IncrementalSync(resp: Json)
  {
    && HasCapabilityDict(resp)
    && "textDocumentSync" in Caps(resp)
    && Caps(resp)["textDocumentSync"].JObj?
    && "change" in Caps(resp)["textDocumentSync"].fields
    && PyEq(Caps(resp)["textDocumentSync"].fields["change"], JInt(2))
  }

  /** `capabilities.completionProvider` exists and equals `expected` under Python's `==`. */
  predicate CompletionProviderIs(resp: Json, expected: Json)
  {
    HasCapabilityDict(resp) && "completionProvider" in Caps(resp)
    && PyEq(Caps(resp)["completionProvider"], expected)
  }

  /**
   * The three assertions shared by clangd, rust-analyzer and jedi:
   * `caps["textDocumentSync"]["change"] == 2`, `"completionProvider" in caps`,
   * `caps["completionProvider"] == expected`.
   */
  function CheckSyncAndCompletion(resp: Json, expected: Json): (r: Outcome<PyError>)
    ensures r.Pass? <==> IncrementalSync(resp) && CompletionProviderIs(resp, expected)
  {
    match Index(resp, "capabilities")
    case Err(e) => Fail(e)
    case Ok(caps) =>
      match Index(caps, "textDocumentSync")
      case Err(e) => Fail(e)
      case Ok(sync) =>
        match Index(sync, "change")
        case Err(e) => Fail(e)
        case Ok(change) =>
          if !PyEq(change, JInt(2)) then Fail(AssertionError)
          else if !caps.JObj? || "completionProvider" !in caps.fields then Fail(AssertionError)
          else if !PyEq(caps.fields["completionProvider"], expected) then Fail(AssertionError)
          else Pass
  }

  /** Python's `==` against 2 holds exactly for the values that denote Incremental sync. */
  lemma ChangeTwoIsIncremental(change: Json)
    ensures PyEq(change, JInt(2)) <==> SyncKindOf(change) == Some(SyncIncremental)
  {
  }

  /** An initialize response whose capabilities hold the given sync `change` and completion provider. */
  function Response(change: Json, completion: Json): (r: Json)
    ensures HasCapabilityDict(r)
  {
    JObj(map["capabilities" := JObj(map[
      "textDocumentSync" := JObj(map["openClose" := JBool(true), "change" := change]),
      "completionProvider" := completion])])
  }

  /** Such a response passes exactly when its `change` is Incremental and its provider equals the expected one. */
  lemma ResponseChecked(change: Json, completion: Json, expected: Json)
    ensures CheckSyncAndCompletion(Response(change, completion), expected).Pass?
            <==> SyncKindOf(change) == Some(SyncIncremental) && PyEq(completion, expected)
  {
    ChangeTwoIsIncremental(change);
  }

  /** `assert key in caps` for each key in turn; the first that fails (or raises) aborts. */
  function CheckKeys(caps: Json, keys: seq<string>): (r: Outcome<PyError>)
    ensures r.Pass? <==> forall k | 0 <= k < |keys| :: In(keys[k], caps) == Ok(true)
  {
    if keys == [] then Pass
    else
      match In(keys[0], caps)
      case Err(e) => Fail(e)
      case Ok(present) =>
        if !present then Fail(AssertionError)
        else
          var rest := CheckKeys(caps, keys[1..]);
          assert forall k | 1 <= k < |keys| :: keys[k] == keys[1..][k - 1];
          rest
  }
}
