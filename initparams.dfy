/**
 * The initialize-params builder shared, line for line, by the clangd, gopls,
 * rust-analyzer and jedi clients: load the backend's JSON template, drop its
 * `_description`, set `processId`, and replace the four placeholders after asserting
 * that each is still the placeholder. `Path.as_uri` and `os.getpid` stay abstract
 * (a function parameter and a number); `os.path.basename` is modelled.
 */
module InitParams {
  import opened Wrappers
  import opened PyJson
  import Text

  /** `os.path.basename` on POSIX: what follows the last `/`. */
  function Basename(p: string): string
  {
    if p == [] then []
    else if p[|p| - 1] == '/' then []
    else Basename(p[..|p| - 1]) + [p[|p| - 1]]
  }

  /** The basename is the path's last component: a suffix without `/`, preceded by `/` unless it is the whole path. */
  lemma {:induction false} BasenameIsLastComponent(p: string)
    ensures var r := Basename(p);
            && '/' !in r
            && |r| <= |p| && r == p[|p| - |r|..]
            && (|r| < |p| ==> p[|p| - |r| - 1] == '/')
  {
    if p != [] && p[|p| - 1] != '/' {
      var q := p[..|p| - 1];
      BasenameIsLastComponent(q);
      var r := Basename(q);
      assert q[|q| - |r|..] + [p[|p| - 1]] == p[|p| - |r| - 1..];
      if |r| < |q| {
        assert p[|p| - |r| - 2] == q[|q| - |r| - 1];
      }
    }
  }

  /** A template that still carries all four placeholders where the builder expects them. */
  predicate IsPlaceholderTemplate(t: Json)
  {
    && t.JObj?
    && "_description" in t.fields
    && "rootPath" in t.fields && t.fields["rootPath"] == JStr("$rootPath")
    && "rootUri" in t.fields && t.fields["rootUri"] == JStr("$rootUri")
    && "workspaceFolders" in t.fields
    && t.fields["workspaceFolders"].JArr?
    && |t.fields["workspaceFolders"].items| > 0
    && var folder := t.fields["workspaceFolders"].items[0];
       && folder.JObj?
       && "uri" in folder.fields && folder.fields["uri"] == JStr("$uri")
       && "name" in folder.fields && folder.fields["name"] == JStr("$name")
  }

  /** The first workspace folder of built params (a dict). */
  function FirstFolder(params: Json): map<string, Json>
    requires params.JObj? && "workspaceFolders" in params.fields
    requires params.fields["workspaceFolders"].JArr? && |params.fields["workspaceFolders"].items| > 0
    requires params.fields["workspaceFolders"].items[0].JObj?
  {
    params.fields["workspaceFolders"].items[0].fields
  }

  /**
   * The params built from a placeholder template with the root path, its URI and its
   * folder name: `_description` dropped, `processId` added, the root path and URI set,
   * the first folder's URI and name replaced; every other entry is the template's.
   */
  function Substituted(template: Json, root: string, uri: string, name: string, pid: int): (d: Json)
    requires IsPlaceholderTemplate(template)
    ensures d.JObj?
    ensures forall k :: k in d.fields <==> (k in template.fields && k != "_description") || k == "processId"
    ensures "processId" in d.fields && d.fields["processId"] == JInt(pid)
    ensures "rootPath" in d.fields && d.fields["rootPath"] == JStr(root)
    ensures "rootUri" in d.fields && d.fields["rootUri"] == JStr(uri)
    ensures forall k :: k in d.fields && k !in {"processId", "rootPath", "rootUri", "workspaceFolders"}
                        ==> d.fields[k] == template.fields[k]
    ensures "workspaceFolders" in d.fields && d.fields["workspaceFolders"].JArr?
    ensures var folders := d.fields["workspaceFolders"].items;
            var old0 := template.fields["workspaceFolders"].items[0];
            && |folders| == |template.fields["workspaceFolders"].items|
            && folders[1..] == template.fields["workspaceFolders"].items[1..]
            && folders[0] == JObj(old0.fields["uri" := JStr(uri)]["name" := JStr(name)])
    ensures RootUriIsFolderUri(d) && FirstFolder(d)["name"] == JStr(name)
  {
    var folders := template.fields["workspaceFolders"].items;
    var f := folders[0].fields["uri" := JStr(uri)]["name" := JStr(name)];
    var rest := [JObj(f)] + folders[1..];
    assert rest[1..] == folders[1..];
    JObj((template.fields - {"_description"})["processId" := JInt(pid)]
           ["rootPath" := JStr(root)]["rootUri" := JStr(uri)]
           ["workspaceFolders" := JArr(rest)])
  }

  /**
   * `_get_initialize_params`: substitutes the repository's path, URI, basename and the
   * process id into the template; any missing key or changed placeholder raises.
   */
  method FromTemplate(template: Json, root: string, asUri: string -> string, pid: int)
    returns (r: Result<Json, PyError>)
    ensures r.Ok? <==> IsPlaceholderTemplate(template)
    ensures r.Ok? ==> r.value == Substituted(template, root, asUri(root), Basename(root), pid)
  {
    // each `assert x == "$placeholder"` compares with a string literal: equality (PyEqString)
    if !template.JObj? { return Err(TypeError); }
    var d := template.fields;
    if "_description" !in d { return Err(KeyError); }
    d := d - {"_description"};
    d := d["processId" := JInt(pid)];
    if "rootPath" !in d { return Err(KeyError); }
    if d["rootPath"] != JStr("$rootPath") { return Err(AssertionError); }
    d := d["rootPath" := JStr(root)];
    if "rootUri" !in d { return Err(KeyError); }
    if d["rootUri"] != JStr("$rootUri") { return Err(AssertionError); }
    d := d["rootUri" := JStr(asUri(root))];
    if "workspaceFolders" !in d { return Err(KeyError); }
    var folders := d["workspaceFolders"];
    var first := First(folders);
    if first.Err? { return Err(first.error); }
    if !folders.JArr? {
      // a one-character string: indexing it with "uri" raises
      return Err(TypeError);
    }
    var folder := first.value;
    if !folder.JObj? { return Err(TypeError); }
    var f := folder.fields;
    if "uri" !in f { return Err(KeyError); }
    if f["uri"] != JStr("$uri") { return Err(AssertionError); }
    f := f["uri" := JStr(asUri(root))];
    if "name" !in f { return Err(KeyError); }
    if f["name"] != JStr("$name") { return Err(AssertionError); }
    f := f["name" := JStr(Basename(root))];
    d := d["workspaceFolders" := JArr([JObj(f)] + folders.items[1..])];
    r := Ok(JObj(d));
    assert IsPlaceholderTemplate(template);
  }

  /** Built params name the same URI as the root and as the first workspace folder. */
  predicate RootUriIsFolderUri(params: Json)
  {
    && params.JObj? && "rootUri" in params.fields && "workspaceFolders" in params.fields
    && params.fields["workspaceFolders"].JArr? && |params.fields["workspaceFolders"].items| > 0
    && params.fields["workspaceFolders"].items[0].JObj?
    && "uri" in FirstFolder(params)
    && params.fields["rootUri"] == FirstFolder(params)["uri"]
  }
}
