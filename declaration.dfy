/**
 * Where a symbol's declaration starts, read from the document-symbol dict that the
 * heuristics receive. Every heuristic wraps its body in `try ... except: return False`,
 * so a lookup that would raise yields None here and the heuristic answers False.
 */
module Declaration {
  import opened Wrappers
  import opened PyJson

  /** `rng.get("start", {}).get("line", -1)`, as a number the caller can compare with ints. */
  function StartLine(rng: Json): (r: Option<int>)
    ensures r.Some? ==> rng.JObj?
    ensures rng.JObj? && "start" !in rng.fields ==> r == Some(-1)
  {
    match Get(rng, "start", JObj(map[]))
    case Err(_) => None
    case Ok(start) =>
      match Get(start, "line", JInt(-1))
      case Err(_) => None
      case Ok(line) => NumberOf(line)
  }

  /** The start line as clangd and jedi read it: `symbol.get("range", {})`, start line -1 when absent. */
  function RangeLine(symbol: Json): (r: Option<int>)
    ensures symbol.JObj? && "range" !in symbol.fields ==> r == Some(-1)
    ensures !symbol.JObj? ==> r.None?
  {
    match Get(symbol, "range", JObj(map[]))
    case Err(_) => None
    case Ok(rng) => StartLine(rng)
  }

  /** The start line as gopls and rust-analyzer read it: `range`, else `location.range`, else none. */
  function RangeOrLocationLine(symbol: Json): (r: Option<int>)
    ensures r.Some? ==> symbol.JObj? && ("range" in symbol.fields || "location" in symbol.fields)
    ensures symbol.JObj? && "range" in symbol.fields ==> r == StartLine(symbol.fields["range"])
    ensures symbol.JObj? && "range" !in symbol.fields && "location" in symbol.fields
            && symbol.fields["location"].JObj? && "range" in symbol.fields["location"].fields
            ==> r == StartLine(symbol.fields["location"].fields["range"])
    ensures symbol.JObj? && "range" !in symbol.fields && "location" !in symbol.fields ==> r.None?
  {
    if !symbol.JObj? then None
    else if "range" in symbol.fields then StartLine(symbol.fields["range"])
    else if "location" in symbol.fields && In("range", symbol.fields["location"]) == Ok(true) then
      match Index(symbol.fields["location"], "range")
      case Err(_) => None
      case Ok(rng) => StartLine(rng)
    else None
  }

  /** The start line exists and indexes one of n lines (`0 <= start_line < len(lines)`). */
  predicate InBounds(line: Option<int>, n: int)
  {
    line.Some? && 0 <= line.value < n
  }

  /** A symbol dict whose `range.start.line` is the given number. */
  function SymbolAt(line: int): Json
  {
    JObj(map["range" := JObj(map["start" := JObj(map["line" := JInt(line), "character" := JInt(0)])])])
  }

  lemma SymbolAtLine(line: int)
    ensures RangeLine(SymbolAt(line)) == Some(line)
    ensures RangeOrLocationLine(SymbolAt(line)) == Some(line)
  {
  }
}
