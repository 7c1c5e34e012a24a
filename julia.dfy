/**
 * The Julia client (LanguageServer.jl): its initialize params, the capability it
 * requires of the server, and its readiness after `initialized`.
 */
module Julia {
  import opened Wrappers
  import opened PyJson
  import InitParams
  import Handlers

  /** Seconds to wait for workspace indexing before cross-file requests. */
  const CrossFileWaitTime: real := 5.0

  /** `{"dynamicRegistration": True}`. */
  const Dynamic: Json := JObj(map["dynamicRegistration" := JBool(true)])

  /** `list(range(1, 27))`: every SymbolKind of LSP 3.17, File (1) to TypeParameter (26). */
  const SymbolKinds: Json := JArr(seq(26, i requires 0 <= i < 26 => JInt(i + 1)))

  /** The client capabilities the Julia client announces. */
  const ClientCapabilities: Json := JObj(map[
    "textDocument" := JObj(map[
      "synchronization" := JObj(map["didSave" := JBool(true), "dynamicRegistration" := JBool(true)]),
      "completion" := JObj(map[
        "dynamicRegistration" := JBool(true),
        "completionItem" := JObj(map[
          "snippetSupport" := JBool(true),
          "commitCharactersSupport" := JBool(true),
          "documentationFormat" := Strings(["markdown", "plaintext"]),
          "deprecatedSupport" := JBool(true),
          "preselectSupport" := JBool(true)])]),
      "hover" := JObj(map["dynamicRegistration" := JBool(true), "contentFormat" := Strings(["markdown", "plaintext"])]),
      "definition" := Dynamic,
      "references" := Dynamic,
      "documentSymbol" := JObj(map[
        "dynamicRegistration" := JBool(true),
        "hierarchicalDocumentSymbolSupport" := JBool(true),
        "symbolKind" := JObj(map["valueSet" := SymbolKinds])]),
      "formatting" := Dynamic,
      "rangeFormatting" := Dynamic]),
    "workspace" := JObj(map[
      "workspaceFolders" := JBool(true),
      "didChangeConfiguration" := Dynamic,
      "symbol" := JObj(map[
        "dynamicRegistration" := JBool(true),
        "symbolKind" := JObj(map["valueSet" := SymbolKinds])])])])

  /**
   * `_get_initialize_params`: the root path as given, its URI (`Path.as_uri`, a
   * parameter) as rootUri and as the one workspace folder, named by the basename.
   */
  function InitializeParams(root: string, asUri: string -> string, pid: int): (r: Json)
    ensures InitParams.RootUriIsFolderUri(r)
    ensures r.fields.Keys == {"locale", "capabilities", "processId", "rootPath", "rootUri", "workspaceFolders"}
    ensures r.fields["capabilities"] == ClientCapabilities
    ensures "name" in InitParams.FirstFolder(r)
    ensures r.fields["rootPath"] == JStr(root) && r.fields["rootUri"] == JStr(asUri(root))
    ensures InitParams.FirstFolder(r)["name"] == JStr(InitParams.Basename(root))
    ensures |r.fields["workspaceFolders"].items| == 1
  {
    var rootUri := asUri(root);
    JObj(map[
      "locale" := JStr("en"),
      "capabilities" := ClientCapabilities,
      "processId" := JInt(pid),
      "rootPath" := JStr(root),
      "rootUri" := JStr(rootUri),
      "workspaceFolders" := JArr([JObj(map["uri" := JStr(rootUri), "name" := JStr(InitParams.Basename(root))])])])
  }

  /**
   * Both symbol-kind lists of the client capabilities, for document symbols and for
   * workspace symbols, are the numbers 1 to 26 in order.
   */
  lemma SymbolKindsOneToTwentySix()
    ensures var doc := ClientCapabilities.fields["textDocument"].fields["documentSymbol"];
            doc.JObj? && "symbolKind" in doc.fields && doc.fields["symbolKind"].JObj?
            && doc.fields["symbolKind"].fields["valueSet"] == SymbolKinds
    ensures var ws := ClientCapabilities.fields["workspace"].fields["symbol"];
            ws.JObj? && "symbolKind" in ws.fields && ws.fields["symbolKind"].JObj?
            && ws.fields["symbolKind"].fields["valueSet"] == SymbolKinds
    ensures |SymbolKinds.items| == 26
    ensures forall k | 0 <= k < 26 :: SymbolKinds.items[k] == JInt(k + 1)
  {
  }

  /**
   * The check on the initialize response: `capabilities` (an empty dict when absent)
   * must contain `textDocumentSync`; the completion and definition providers are only
   * logged.
   */
  function CheckCapabilities(resp: Json): (r: Outcome<PyError>)
    ensures r.Pass? <==> resp.JObj? && "capabilities" in resp.fields
                         && In("textDocumentSync", resp.fields["capabilities"]) == Ok(true)
  {
    match Get(resp, "capabilities", JObj(map[]))
    case Err(e) => Fail(e)
    case Ok(caps) =>
      match In("textDocumentSync", caps)
      case Err(e) => Fail(e)
      case Ok(present) => if present then Pass else Fail(AssertionError)
  }

  /** Whether the server offers completion or definition does not change the outcome. */
  lemma OptionalProvidersIgnored(caps: map<string, Json>, completion: Json, definition: Json)
    ensures var with := JObj(map["capabilities" := JObj(caps["completionProvider" := completion]["definitionProvider" := definition])]);
            var without := JObj(map["capabilities" := JObj(caps - {"completionProvider", "definitionProvider"})]);
            CheckCapabilities(with) == CheckCapabilities(without)
  {
    var with := caps["completionProvider" := completion]["definitionProvider" := definition];
    var without := caps - {"completionProvider", "definitionProvider"};
    assert "textDocumentSync" in with <==> "textDocumentSync" in without;
  }

  /** A response without capabilities fails the assertion. */
  lemma MissingCapabilitiesFail()
    ensures CheckCapabilities(JObj(map[])) == Fail(AssertionError)
  {
  }

  /** After `initialized`, both completions and readiness are set, whatever the server said. */
  method Initialized(ev: Handlers.ClientEvents)
    modifies ev
    ensures ev.completionsAvailable && ev.serverReady
    ensures ev.searcherAvailable == old(ev.searcherAvailable)
    ensures ev.resolveMainAvailable == old(ev.resolveMainAvailable)
    ensures ev.serviceReady == old(ev.serviceReady)
  {
    ev.completionsAvailable := true;
    ev.serverReady := true;
  }
}
