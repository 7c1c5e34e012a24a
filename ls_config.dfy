/**
 * Language and file-name configuration: the supported languages, which of them are
 * experimental, the file-name patterns that mark a language's source files, and the
 * configuration record built from a dict.
 */
module LsConfig {
  import opened Wrappers
  import opened PyJson
  import opened Text

  // ---- file-name patterns ----

  /**
   * `fnmatch.fnmatch` on POSIX (case-sensitive): `*` matches any run of characters,
   * `?` any one character, every other character itself.
   */
  predicate Glob(s: string, p: string)
    decreases |p|
  {
    if p == [] then s == []
    else if p[0] == '*' then exists i | 0 <= i <= |s| :: Glob(s[i..], p[1..])
    else s != [] && (p[0] == '?' || p[0] == s[0]) && Glob(s[1..], p[1..])
  }

  /** A pattern without wildcards. */
  predicate Literal(p: string)
  {
    '*' !in p && '?' !in p
  }

  /** A wildcard-free pattern matches only itself. */
  lemma {:induction false} LiteralGlob(s: string, p: string)
    requires Literal(p)
    ensures Glob(s, p) <==> s == p
    decreases |p|
  {
    if p != [] {
      if s != [] {
        assert '*' !in p[1..] && '?' !in p[1..] by {
          assert forall c | c in p[1..] :: c in p;
        }
        LiteralGlob(s[1..], p[1..]);
        if s == p {
          assert s[1..] == p[1..];
        }
        if Glob(s, p) {
          assert s == [s[0]] + s[1..] && p == [p[0]] + p[1..];
        }
      }
    }
  }

  /** `*.ext`-style patterns: a star, then a literal suffix. */
  lemma StarSuffix(s: string, lit: string)
    requires Literal(lit)
    ensures Glob(s, "*" + lit) <==> EndsWith(s, lit)
  {
    var p := "*" + lit;
    assert p[1..] == lit;
    if Glob(s, p) {
      var i :| 0 <= i <= |s| && Glob(s[i..], lit);
      LiteralGlob(s[i..], lit);
    }
    if EndsWith(s, lit) {
      LiteralGlob(s[|s| - |lit|..], lit);
    }
  }

  /** A pattern set: the patterns a `FilenameMatcher` was built with. */
  datatype FilenameMatcher = FilenameMatcher(patterns: seq<string>)

  /** At least one pattern matches the file name. */
  predicate Relevant(m: FilenameMatcher, fn: string)
  {
    exists k | 0 <= k < |m.patterns| :: Glob(fn, m.patterns[k])
  }

  /** `is_relevant_filename`: tries the patterns in order and stops at the first match. */
  method IsRelevantFilename(m: FilenameMatcher, fn: string) returns (r: bool)
    ensures r <==> Relevant(m, fn)
  {
    for i := 0 to |m.patterns|
      invariant forall k | 0 <= k < i :: !Glob(fn, m.patterns[k])
    {
      if Glob(fn, m.patterns[i]) {
        return true;
      }
    }
    return false;
  }

  /** Every pattern is `*` followed by a wildcard-free suffix. */
  predicate StarPatterns(ps: seq<string>)
  {
    forall k | 0 <= k < |ps| :: |ps[k]| > 0 && ps[k][0] == '*' && Literal(ps[k][1..])
  }

  /** For star patterns, a file is relevant exactly when its name ends with one of the suffixes. */
  lemma RelevantIsSuffix(m: FilenameMatcher, fn: string)
    requires StarPatterns(m.patterns)
    ensures Relevant(m, fn) <==> exists k | 0 <= k < |m.patterns| :: EndsWith(fn, m.patterns[k][1..])
  {
    forall k | 0 <= k < |m.patterns|
      ensures Glob(fn, m.patterns[k]) <==> EndsWith(fn, m.patterns[k][1..])
    {
      assert m.patterns[k] == "*" + m.patterns[k][1..];
      StarSuffix(fn, m.patterns[k][1..]);
    }
  }

  // ---- languages ----

  datatype Language =
    | CSharp | Python | Rust | Java | Kotlin | TypeScript | Go | Ruby | Dart | Cpp
    | Php | R | Clojure | Elixir | Terraform | Swift | Bash | Zig | Lua | Nix | Erlang
    | AL | Julia
    | TypeScriptVts | PythonJedi | CSharpOmniSharp | RubySolargraph

  /** The languages in declaration order, which is the order iterating the enum yields. */
  const AllLanguages: seq<Language> := [
    CSharp, Python, Rust, Java, Kotlin, TypeScript, Go, Ruby, Dart, Cpp,
    Php, R, Clojure, Elixir, Terraform, Swift, Bash, Zig, Lua, Nix, Erlang,
    AL, Julia,
    TypeScriptVts, PythonJedi, CSharpOmniSharp, RubySolargraph]

  /** The enum value of a language. */
  function Value(l: Language): string
  {
    match l
    case CSharp => "csharp"
    case Python => "python"
    case Rust => "rust"
    case Java => "java"
    case Kotlin => "kotlin"
    case TypeScript => "typescript"
    case Go => "go"
    case Ruby => "ruby"
    case Dart => "dart"
    case Cpp => "cpp"
    case Php => "php"
    case R => "r"
    case Clojure => "clojure"
    case Elixir => "elixir"
    case Terraform => "terraform"
    case Swift => "swift"
    case Bash => "bash"
    case Zig => "zig"
    case Lua => "lua"
    case Nix => "nix"
    case Erlang => "erlang"
    case AL => "al"
    case Julia => "julia"
    case TypeScriptVts => "typescript_vts"
    case PythonJedi => "python_jedi"
    case CSharpOmniSharp => "csharp_omnisharp"
    case RubySolargraph => "ruby_solargraph"
  }

  /** `str(lang)`: the language's value. */
  function Str(l: Language): string
  {
    Value(l)
  }

  /** `str(Language.JULIA) == "julia"`. */
  lemma JuliaStr()
    ensures Str(Julia) == "julia"
  {
  }

  /** No two languages share a value, so `Language(value)` names one member. */
  lemma ValueInjective(a: Language, b: Language)
    requires Value(a) == Value(b)
    ensures a == b
  {
  }

  /** The experimental or deprecated servers. */
  predicate IsExperimental(l: Language)
  {
    l.TypeScriptVts? || l.PythonJedi? || l.CSharpOmniSharp? || l.RubySolargraph?
  }

  /** Every language is listed. */
  lemma AllLanguagesListed(l: Language)
    ensures l in AllLanguages
  {
  }

  /** No language is listed twice. */
  lemma AllLanguagesDistinct()
    ensures forall i, j | 0 <= i < j < |AllLanguages| :: AllLanguages[i] != AllLanguages[j]
  {
  }

  /** The languages `iter_all` yields, as a filter over the declaration order. */
  function Yielded(langs: seq<Language>, includeExperimental: bool): (r: seq<Language>)
    ensures |r| <= |langs|
    ensures forall l :: l in r <==> l in langs && (includeExperimental || !IsExperimental(l))
  {
    if langs == [] then []
    else
      (if includeExperimental || !IsExperimental(langs[0]) then [langs[0]] else [])
      + Yielded(langs[1..], includeExperimental)
  }

  /** `iter_all`: the languages in order, the experimental ones only when asked for. */
  method IterAll(includeExperimental: bool) returns (langs: seq<Language>)
    ensures langs == Yielded(AllLanguages, includeExperimental)
  {
    langs := [];
    var i := 0;
    while i < |AllLanguages|
      invariant 0 <= i <= |AllLanguages|
      invariant langs == Yielded(AllLanguages[..i], includeExperimental)
    {
      var l := AllLanguages[i];
      assert AllLanguages[..i + 1] == AllLanguages[..i] + [l];
      YieldedSnoc(AllLanguages[..i], l, includeExperimental);
      if includeExperimental || !IsExperimental(l) {
        langs := langs + [l];
      }
      i := i + 1;
    }
    assert AllLanguages[..i] == AllLanguages;
  }

  /** A filter that keeps everything is the identity. */
  lemma {:induction false} YieldedAll(langs: seq<Language>)
    ensures Yielded(langs, true) == langs
  {
    if langs != [] {
      YieldedAll(langs[1..]);
    }
  }

  /** Filtering distributes over concatenation. */
  lemma {:induction false} YieldedConcat(a: seq<Language>, b: seq<Language>, includeExperimental: bool)
    ensures Yielded(a + b, includeExperimental) == Yielded(a, includeExperimental) + Yielded(b, includeExperimental)
  {
    if a == [] {
      assert a + b == b;
    } else {
      assert (a + b)[0] == a[0];
      assert (a + b)[1..] == a[1..] + b;
      YieldedConcat(a[1..], b, includeExperimental);
    }
  }

  /** Filtering one more language appends it when it is kept. */
  lemma YieldedSnoc(langs: seq<Language>, l: Language, includeExperimental: bool)
    ensures Yielded(langs + [l], includeExperimental)
            == Yielded(langs, includeExperimental) + (if includeExperimental || !IsExperimental(l) then [l] else [])
  {
    YieldedConcat(langs, [l], includeExperimental);
    assert [l][1..] == [];
  }

  /** Without experimental languages the filter keeps everything. */
  lemma {:induction false} YieldedStable(langs: seq<Language>)
    requires forall k | 0 <= k < |langs| :: !IsExperimental(langs[k])
    ensures Yielded(langs, false) == langs
  {
    if langs != [] {
      YieldedStable(langs[1..]);
    }
  }

  /** A list of experimental languages is filtered away entirely. */
  lemma {:induction false} YieldedExperimental(langs: seq<Language>)
    requires forall k | 0 <= k < |langs| :: IsExperimental(langs[k])
    ensures Yielded(langs, false) == []
  {
    if langs != [] {
      YieldedExperimental(langs[1..]);
    }
  }

  /** `iter_all(True)` yields every language, in declaration order. */
  lemma IterAllWithExperimental()
    ensures Yielded(AllLanguages, true) == AllLanguages
  {
    YieldedAll(AllLanguages);
  }

  /** Stable languages followed by experimental ones: the filter keeps the stable part. */
  lemma YieldedSplit(stable: seq<Language>, experimental: seq<Language>)
    requires forall k | 0 <= k < |stable| :: !IsExperimental(stable[k])
    requires forall k | 0 <= k < |experimental| :: IsExperimental(experimental[k])
    ensures Yielded(stable + experimental, false) == stable
  {
    YieldedConcat(stable, experimental, false);
    YieldedStable(stable);
    YieldedExperimental(experimental);
  }

  /** `iter_all()` yields the 23 stable languages, in declaration order. */
  lemma IterAllStable()
    ensures Yielded(AllLanguages, false) == AllLanguages[..23]
  {
    var stable := AllLanguages[..23];
    var experimental := AllLanguages[23..];
    assert AllLanguages == stable + experimental;
    assert forall k | 0 <= k < |stable| :: !IsExperimental(stable[k]);
    assert experimental == [TypeScriptVts, PythonJedi, CSharpOmniSharp, RubySolargraph];
    YieldedSplit(stable, experimental);
  }

  /** `iter_all()` yields a language exactly when it is not experimental. */
  lemma IterAllExcludesExperimental(l: Language)
    ensures l in Yielded(AllLanguages, false) <==> !IsExperimental(l)
  {
    AllLanguagesListed(l);
  }

  // ---- source-file patterns ----

  /** The TypeScript patterns, as the nested loops over prefix, postfix and base produce them. */
  const TypeScriptPatterns: seq<string> := [
    "*.ctsx", "*.cjsx", "*.cts", "*.cjs",
    "*.mtsx", "*.mjsx", "*.mts", "*.mjs",
    "*.tsx", "*.jsx", "*.ts", "*.js"]

  const Prefixes: seq<string> := ["c", "m", ""]
  const Postfixes: seq<string> := ["x", ""]
  const Bases: seq<string> := ["ts", "js"]

  /** `f"*.{prefix}{base_pattern}{postfix}"`. */
  function TypeScriptPattern(a: int, b: int, c: int): string
    requires 0 <= a < 3 && 0 <= b < 2 && 0 <= c < 2
  {
    "*." + Prefixes[a] + Bases[c] + Postfixes[b]
  }

  /** The TypeScript branch of `get_source_fn_matcher`: three nested loops appending patterns. */
  method BuildTypeScriptPatterns() returns (ps: seq<string>)
    ensures ps == TypeScriptPatterns
  {
    ps := [];
    for a := 0 to 3
      invariant |ps| == 4 * a
      invariant forall k | 0 <= k < |ps| :: ps[k] == TypeScriptPattern(k / 4, k / 2 % 2, k % 2)
    {
      for b := 0 to 2
        invariant |ps| == 4 * a + 2 * b
        invariant forall k | 0 <= k < |ps| :: ps[k] == TypeScriptPattern(k / 4, k / 2 % 2, k % 2)
      {
        for c := 0 to 2
          invariant |ps| == 4 * a + 2 * b + c
          invariant forall k | 0 <= k < |ps| :: ps[k] == TypeScriptPattern(k / 4, k / 2 % 2, k % 2)
        {
          ps := ps + ["*." + Prefixes[a] + Bases[c] + Postfixes[b]];
        }
      }
    }
    TypeScriptPatternsEnumerate();
  }

  /** Entry k of the TypeScript list is the pattern of the k-th loop iteration. */
  lemma TypeScriptPatternsEnumerate()
    ensures |TypeScriptPatterns| == 12
    ensures forall k | 0 <= k < 12 :: TypeScriptPatterns[k] == TypeScriptPattern(k / 4, k / 2 % 2, k % 2)
  {
    assert TypeScriptPattern(0, 0, 0) == "*.ctsx" && TypeScriptPattern(0, 0, 1) == "*.cjsx";
    assert TypeScriptPattern(0, 1, 0) == "*.cts" && TypeScriptPattern(0, 1, 1) == "*.cjs";
    assert TypeScriptPattern(1, 0, 0) == "*.mtsx" && TypeScriptPattern(1, 0, 1) == "*.mjsx";
    assert TypeScriptPattern(1, 1, 0) == "*.mts" && TypeScriptPattern(1, 1, 1) == "*.mjs";
    assert TypeScriptPattern(2, 0, 0) == "*.tsx" && TypeScriptPattern(2, 0, 1) == "*.jsx";
    assert TypeScriptPattern(2, 1, 0) == "*.ts" && TypeScriptPattern(2, 1, 1) == "*.js";
  }

  /** The patterns of `get_source_fn_matcher`, per language. */
  function SourcePatterns(l: Language): seq<string>
  {
    match l
    case Python | PythonJedi => ["*.py", "*.pyi"]
    case Java => ["*.java"]
    case TypeScript | TypeScriptVts => TypeScriptPatterns
    case CSharp | CSharpOmniSharp => ["*.cs"]
    case Rust => ["*.rs"]
    case Go => ["*.go"]
    case Ruby => ["*.rb", "*.erb"]
    case RubySolargraph => ["*.rb"]
    case Cpp => ["*.cpp", "*.h", "*.hpp", "*.c", "*.hxx", "*.cc", "*.cxx"]
    case Kotlin => ["*.kt", "*.kts"]
    case Dart => ["*.dart"]
    case Php => ["*.php"]
    case R => ["*.R", "*.r", "*.Rmd", "*.Rnw"]
    case Clojure => ["*.clj", "*.cljs", "*.cljc", "*.edn"]
    case Elixir => ["*.ex", "*.exs"]
    case Terraform => ["*.tf", "*.tfvars", "*.tfstate"]
    case Swift => ["*.swift"]
    case Bash => ["*.sh", "*.bash"]
    case Zig => ["*.zig", "*.zon"]
    case Lua => ["*.lua"]
    case Nix => ["*.nix"]
    case Erlang => ["*.erl", "*.hrl", "*.escript", "*.config", "*.app", "*.app.src"]
    case AL => ["*.al", "*.dal"]
    case Julia => ["*.jl"]
  }

  /** Every language's patterns are `*` plus a wildcard-free suffix. */
  lemma SourcePatternsStar(l: Language)
    ensures StarPatterns(SourcePatterns(l))
  {
    TypeScriptStar();
    StarGroupA();
    StarGroupB();
    StarGroupC();
    StarGroupD();
    StarGroupE();
    StarGroupF();
    StarGroupG();
    StarGroupH();
    StarGroupI();
  }

  // The star property, checked a few languages at a time to keep each proof small.

  lemma StarGroupA()
    ensures StarPatterns(SourcePatterns(Python)) && StarPatterns(SourcePatterns(Java)) && StarPatterns(SourcePatterns(CSharp))
  {
  }

  lemma StarGroupB()
    ensures StarPatterns(SourcePatterns(Rust)) && StarPatterns(SourcePatterns(Go)) && StarPatterns(SourcePatterns(Ruby))
  {
  }

  lemma StarGroupC()
    ensures StarPatterns(SourcePatterns(RubySolargraph)) && StarPatterns(SourcePatterns(Kotlin)) && StarPatterns(SourcePatterns(Dart))
  {
  }

  lemma StarGroupD()
    ensures StarPatterns(SourcePatterns(Cpp)) && StarPatterns(SourcePatterns(Php))
  {
  }

  lemma StarGroupE()
    ensures StarPatterns(SourcePatterns(R)) && StarPatterns(SourcePatterns(Swift))
  {
  }

  lemma StarGroupF()
    ensures StarPatterns(SourcePatterns(Clojure)) && StarPatterns(SourcePatterns(Elixir))
  {
  }

  lemma StarGroupG()
    ensures StarPatterns(SourcePatterns(Terraform)) && StarPatterns(SourcePatterns(Bash)) && StarPatterns(SourcePatterns(Lua))
  {
  }

  lemma StarGroupH()
    ensures StarPatterns(SourcePatterns(Zig)) && StarPatterns(SourcePatterns(Nix)) && StarPatterns(SourcePatterns(AL))
  {
  }

  lemma StarGroupI()
    ensures StarPatterns(SourcePatterns(Erlang)) && StarPatterns(SourcePatterns(Julia))
  {
  }

  /** `get_source_fn_matcher`: every language has a matcher, and every pattern is `*` plus a suffix. */
  function SourceFnMatcher(l: Language): (r: FilenameMatcher)
    ensures r.patterns == SourcePatterns(l) && |r.patterns| > 0
    ensures StarPatterns(r.patterns)
  {
    SourcePatternsStar(l);
    FilenameMatcher(SourcePatterns(l))
  }

  /** Python and Jedi share `*.py` and `*.pyi`; TypeScript and vtsls share the twelve patterns. */
  lemma SharedMatchers()
    ensures SourcePatterns(PythonJedi) == SourcePatterns(Python) == ["*.py", "*.pyi"]
    ensures SourcePatterns(TypeScriptVts) == SourcePatterns(TypeScript) == TypeScriptPatterns
    ensures SourcePatterns(CSharpOmniSharp) == SourcePatterns(CSharp)
  {
  }

  /** A matcher of one pattern `*ext`: the files whose names end with ext. */
  lemma OneSuffix(m: FilenameMatcher, fn: string, ext: string)
    requires |m.patterns| == 1 && m.patterns[0] == "*" + ext && Literal(ext)
    ensures Relevant(m, fn) <==> EndsWith(fn, ext)
  {
    assert Relevant(m, fn) <==> Glob(fn, m.patterns[0]);
    StarSuffix(fn, ext);
  }

  /** The Julia matcher takes `.jl` files and nothing else. */
  lemma JuliaSources(fn: string)
    ensures Relevant(SourceFnMatcher(Julia), fn) <==> EndsWith(fn, ".jl")
    ensures Relevant(SourceFnMatcher(Julia), "script.jl") && Relevant(SourceFnMatcher(Julia), "Main.jl")
    ensures !Relevant(SourceFnMatcher(Julia), "script.py") && !Relevant(SourceFnMatcher(Julia), "README.md")
  {
    var m := SourceFnMatcher(Julia);
    assert m.patterns == ["*.jl"];
    assert "*.jl" == "*" + ".jl";
    OneSuffix(m, fn, ".jl");
    OneSuffix(m, "script.jl", ".jl");
    OneSuffix(m, "Main.jl", ".jl");
    OneSuffix(m, "script.py", ".jl");
    OneSuffix(m, "README.md", ".jl");
  }

  /** Solargraph takes `.rb` files only, so not ERB templates. */
  lemma SolargraphSources(fn: string)
    ensures Relevant(SourceFnMatcher(RubySolargraph), fn) <==> EndsWith(fn, ".rb")
    ensures !Relevant(SourceFnMatcher(RubySolargraph), "view.html.erb")
  {
    var m := SourceFnMatcher(RubySolargraph);
    assert m.patterns == ["*.rb"];
    assert "*.rb" == "*" + ".rb";
    OneSuffix(m, fn, ".rb");
    OneSuffix(m, "view.html.erb", ".rb");
  }

  /** ruby-lsp takes ERB templates as well as `.rb` files. */
  lemma RubyErb()
    ensures Relevant(SourceFnMatcher(Ruby), "view.html.erb")
  {
    var m := SourceFnMatcher(Ruby);
    assert m.patterns[1] == "*" + ".erb";
    StarSuffix("view.html.erb", ".erb");
  }

  /** The twelve TypeScript patterns are `*` followed by a suffix. */
  lemma TypeScriptStar()
    ensures StarPatterns(TypeScriptPatterns)
  {
  }

  /** The TypeScript matcher takes React and ES-module files such as `App.tsx` and `index.mjs`. */
  lemma TypeScriptSources()
    ensures Relevant(SourceFnMatcher(TypeScript), "App.tsx") && Relevant(SourceFnMatcher(TypeScript), "index.mjs")
  {
    var m := SourceFnMatcher(TypeScript);
    assert m.patterns == TypeScriptPatterns;
    assert m.patterns[8] == "*.tsx" == "*" + ".tsx";
    assert m.patterns[7] == "*.mjs" == "*" + ".mjs";
    SuffixRelevant(m, 8, "App.tsx", ".tsx");
    SuffixRelevant(m, 7, "index.mjs", ".mjs");
  }

  /** A file whose name ends with the suffix of one `*suffix` pattern is relevant. */
  lemma SuffixRelevant(m: FilenameMatcher, k: int, fn: string, suffix: string)
    requires 0 <= k < |m.patterns| && m.patterns[k] == "*" + suffix && Literal(suffix)
    requires EndsWith(fn, suffix)
    ensures Relevant(m, fn)
  {
    StarSuffix(fn, suffix);
  }

  /** A name whose last character differs from the suffix's does not end with it. */
  lemma LastCharDiffers(s: string, suffix: string)
    requires s != [] && suffix != [] && s[|s| - 1] != suffix[|suffix| - 1]
    ensures !EndsWith(s, suffix)
  {
    if |suffix| <= |s| {
      assert s[|s| - |suffix|..][|suffix| - 1] == s[|s| - 1];
    }
  }

  /** Every TypeScript suffix ends with `s` or `x`, so `package.json` is not a TypeScript source. */
  lemma PackageJsonNotTypeScript()
    ensures !Relevant(SourceFnMatcher(TypeScript), "package.json")
  {
    TypeScriptStar();
    RelevantIsSuffix(SourceFnMatcher(TypeScript), "package.json");
    forall k | 0 <= k < 12
      ensures !EndsWith("package.json", TypeScriptPatterns[k][1..])
    {
      var e := TypeScriptPatterns[k][1..];
      assert e != [] && (e[|e| - 1] == 's' || e[|e| - 1] == 'x');
      LastCharDiffers("package.json", e);
    }
  }

  // ---- LanguageServerConfig ----

  /** The four constructor parameters, each value kept as given (the dataclass does not convert). */
  datatype LanguageServerConfig = LanguageServerConfig(
    codeLanguage: Json,
    traceLspCommunication: Json,
    startIndependentLspProcess: Json,
    ignoredPaths: Json)

  const Parameters: set<string> := {"code_language", "trace_lsp_communication", "start_independent_lsp_process", "ignored_paths"}

  /** `env.get(k, default)` for a parameter. */
  function Param(env: map<string, Json>, k: string, default: Json): Json
  {
    if k in env then env[k] else default
  }

  /**
   * `from_dict`: keeps the keys that are constructor parameters; `code_language` has
   * no default, so a dict without it raises TypeError.
   */
  function FromDict(env: map<string, Json>): (r: Result<LanguageServerConfig, PyError>)
    ensures r.Err? <==> "code_language" !in env
    ensures r.Err? ==> r.error == TypeError
    ensures r.Ok? ==> r.value.codeLanguage == env["code_language"]
    ensures r.Ok? ==> r.value.traceLspCommunication
                      == (if "trace_lsp_communication" in env then env["trace_lsp_communication"] else JBool(false))
    ensures r.Ok? ==> r.value.startIndependentLspProcess
                      == (if "start_independent_lsp_process" in env then env["start_independent_lsp_process"] else JBool(true))
    ensures r.Ok? ==> r.value.ignoredPaths
                      == (if "ignored_paths" in env then env["ignored_paths"] else JArr([]))
  {
    var kept := map k | k in env && k in Parameters :: env[k];
    if "code_language" !in kept then Err(TypeError)
    else Ok(LanguageServerConfig(
      kept["code_language"],
      Param(kept, "trace_lsp_communication", JBool(false)),
      Param(kept, "start_independent_lsp_process", JBool(true)),
      Param(kept, "ignored_paths", JArr([]))))
  }

  /** Only the constructor parameters matter: other keys are dropped. */
  lemma FromDictIgnoresExtraKeys(env: map<string, Json>, extra: map<string, Json>)
    requires extra.Keys !! Parameters
    ensures FromDict(env + extra) == FromDict(env)
  {
    var a := map k | k in env + extra && k in Parameters :: (env + extra)[k];
    var b := map k | k in env && k in Parameters :: env[k];
    assert a == b;
  }

  /** The defaults: no tracing, an independent process, no ignored paths. */
  lemma FromDictDefaults(lang: Json)
    ensures FromDict(map["code_language" := lang])
         == Ok(LanguageServerConfig(lang, JBool(false), JBool(true), JArr([])))
  {
    var env := map["code_language" := lang];
    var kept := map k | k in env && k in Parameters :: env[k];
    assert kept == env;
  }

  /** Given values win over the defaults. */
  lemma FromDictKeepsGiven(env: map<string, Json>)
    requires "code_language" in env && "ignored_paths" in env
    ensures FromDict(env).Ok? && FromDict(env).value.ignoredPaths == env["ignored_paths"]
  {
  }
}
