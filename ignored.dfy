/**
 * `is_ignored_dirname`: every backend ignores what its base class ignores plus a
 * fixed list of directory names of its own. The base class's answer is an input.
 */
module Ignored {

  /** `super().is_ignored_dirname(dirname) or dirname in extra`. */
  function IsIgnoredDirname(baseIgnored: bool, extra: seq<string>, dirname: string): bool
  {
    baseIgnored || dirname in extra
  }

  const GoplsExtra: seq<string> := ["vendor", "node_modules", "dist", "build"]
  const RustExtra: seq<string> := ["target"]
  const JediExtra: seq<string> := ["venv", "__pycache__"]
  const ScalaExtra: seq<string> := [".bloop", ".metals", "target"]
  const JuliaExtra: seq<string> := ["Manifest.toml", ".julia", "docs"]

  /** gopls adds vendored dependencies, node_modules and the dist/build output directories. */
  lemma GoplsIgnores(baseIgnored: bool, dirname: string)
    ensures IsIgnoredDirname(baseIgnored, GoplsExtra, dirname)
            <==> baseIgnored || dirname == "vendor" || dirname == "node_modules" || dirname == "dist" || dirname == "build"
  {
  }

  /** rust-analyzer adds cargo's `target` directory and nothing else. */
  lemma RustIgnores(baseIgnored: bool, dirname: string)
    ensures IsIgnoredDirname(baseIgnored, RustExtra, dirname) <==> baseIgnored || dirname == "target"
  {
  }

  /** jedi adds virtual environments named `venv` and byte-code caches, but not `.venv`. */
  lemma JediIgnores(baseIgnored: bool, dirname: string)
    ensures IsIgnoredDirname(baseIgnored, JediExtra, dirname) <==> baseIgnored || dirname == "venv" || dirname == "__pycache__"
  {
  }

  /** Metals adds its Bloop and Metals work directories and sbt's `target`. */
  lemma ScalaIgnores(baseIgnored: bool, dirname: string)
    ensures IsIgnoredDirname(baseIgnored, ScalaExtra, dirname)
            <==> baseIgnored || dirname == ".bloop" || dirname == ".metals" || dirname == "target"
  {
  }

  /** The Julia server adds the manifest (a file, matched by name), the package cache and the documentation directory. */
  lemma JuliaIgnores(baseIgnored: bool, dirname: string)
    ensures IsIgnoredDirname(baseIgnored, JuliaExtra, dirname)
            <==> baseIgnored || dirname == "Manifest.toml" || dirname == ".julia" || dirname == "docs"
  {
  }
}
