/** The block-style YAML printer for manifests, a reader for what it prints,
    and exactly which documents the reader recovers. */
module Yaml {
  import opened Text
  import opened JsonText

  datatype Scalar = Bool(b: bool) | Null | Int(n: int) | Str(text: string)

  datatype Entry = Entry(key: string, value: Node)

  datatype Node =
    | Leaf(scalar: Scalar)
    | Map(entries: seq<Entry>)
    | List(items: seq<Node>)

  // ---------------------------------------------------------------- the printer

  predicate NeedsQuotes(text: string) {
    || text == ""
    || text[0] in {'{', '[', '*', '&', '!', '@'}
    || ContainsColonSpace(text)
  }

  predicate ContainsColonSpace(text: string) {
    exists i :: 0 <= i < |text| - 1 && text[i] == ':' && text[i + 1] == ' '
  }

  function YamlScalar(s: Scalar): string {
    match s
    case Bool(b) => if b then "true" else "false"
    case Null => "null"
    case Int(n) => IntText(n)
    case Str(text) => if NeedsQuotes(text) then JsonDumps(text) else text
  }

  function Spaces(n: nat): (s: string)
    ensures |s| == n && NoNewline(s)
  {
    seq(n, _ => ' ')
  }

  /** The text of a value at an indentation, lines separated by newlines. */
  function Render(value: Node, indent: nat): string
    decreases value, 1
  {
    match value
    case Leaf(s) => Spaces(indent) + YamlScalar(s)
    case Map(entries) => Join("\n", RenderEntries(entries, indent))
    case List(items) => Join("\n", RenderItems(items, indent))
  }

  function RenderEntries(entries: seq<Entry>, indent: nat): seq<string>
    decreases entries, 0
  {
    if entries == [] then []
    else
      var e := entries[0];
      (if e.value.Leaf?
       then [Spaces(indent) + e.key + ": " + YamlScalar(e.value.scalar)]
       else [Spaces(indent) + e.key + ":", Render(e.value, indent + 2)])
      + RenderEntries(entries[1..], indent)
  }

  function RenderItems(items: seq<Node>, indent: nat): seq<string>
    decreases items, 0
  {
    if items == [] then []
    else
      var v := items[0];
      (if v.Leaf?
       then [Spaces(indent) + "- " + YamlScalar(v.scalar)]
       else [Spaces(indent) + "-", Render(v, indent + 2)])
      + RenderItems(items[1..], indent)
  }

  const SEPARATOR := "---"

  function Rendered(docs: seq<Node>): seq<string> {
    seq(|docs|, i requires 0 <= i < |docs| => Render(docs[i], 0))
  }

  /** The documents of a manifest, joined by separator lines and closed by a newline. */
  function RenderManifest(docs: seq<Node>): string {
    Join("\n---\n", Rendered(docs)) + "\n"
  }

  // ---------------------------------------------------------------- the reader

  datatype Parsed<+T> = Fail | Parsed(value: T, rest: seq<string>)

  /** Plain text up to the end of the line, or a quoted string. */
  function ReadScalar(text: string): (r: Option<string>)
    ensures r.Some? ==> |r.value| <= |text|
  {
    if text != "" && text[0] == '"' then JsonLoads(text) else Some(text)
  }

  /** A line that cannot belong to a block at this indentation. */
  predicate Ends(line: string, indent: nat) {
    !(Spaces(indent) <= line) || line == SEPARATOR
  }

  predicate IsItem(body: string) {
    body == "-" || "- " <= body
  }

  function ReadBlock(lines: seq<string>, indent: nat): (r: Parsed<Node>)
    ensures r.Parsed? ==> |r.rest| <= |lines|
    decreases |lines|, 1
  {
    if lines == [] || Ends(lines[0], indent) then Fail
    else if IsItem(lines[0][indent..]) then
      (match ReadItems(lines, indent)
       case Fail => Fail
       case Parsed(items, rest) => Parsed(List(items), rest))
    else
      (match ReadEntries(lines, indent)
       case Fail => Fail
       case Parsed(entries, rest) => Parsed(Map(entries), rest))
  }

  function ReadEntries(lines: seq<string>, indent: nat): (r: Parsed<seq<Entry>>)
    ensures r.Parsed? ==> |r.rest| <= |lines|
    decreases |lines|, 0
  {
    if lines == [] || Ends(lines[0], indent) then Parsed([], lines)
    else
      var body := lines[0][indent..];
      var colon := IndexOf(body, ':');
      if IsItem(body) || " " <= body || colon == |body| then Fail
      else
        match ReadValue(body[colon + 1..], lines[1..], indent)
        case Fail => Fail
        case Parsed(value, rest) =>
          match ReadEntries(rest, indent)
          case Fail => Fail
          case Parsed(more, last) => Parsed([Entry(body[..colon], value)] + more, last)
  }

  function ReadItems(lines: seq<string>, indent: nat): (r: Parsed<seq<Node>>)
    ensures r.Parsed? ==> |r.rest| <= |lines|
    decreases |lines|, 0
  {
    if lines == [] || Ends(lines[0], indent) then Parsed([], lines)
    else
      var body := lines[0][indent..];
      if !IsItem(body) then Fail
      else
        match ReadValue(body[1..], lines[1..], indent)
        case Fail => Fail
        case Parsed(value, rest) =>
          match ReadItems(rest, indent)
          case Fail => Fail
          case Parsed(more, last) => Parsed([value] + more, last)
  }

  /** What follows a `key:` or a `-`: nothing and then a nested block, or a space and a scalar. */
  function ReadValue(after: string, lines: seq<string>, indent: nat): (r: Parsed<Node>)
    ensures r.Parsed? ==> |r.rest| <= |lines|
    decreases |lines|, 2
  {
    if after == "" then ReadBlock(lines, indent + 2)
    else if after[0] != ' ' then Fail
    else
      match ReadScalar(after[1..])
      case None => Fail
      case Some(text) => Parsed(Leaf(Str(text)), lines)
  }

  function ReadDocuments(lines: seq<string>): Option<seq<Node>>
    decreases |lines|
  {
    match ReadBlock(lines, 0)
    case Fail => None
    case Parsed(doc, rest) =>
      if rest == [] then Some([doc])
      else if rest[0] != SEPARATOR then None
      else
        match ReadDocuments(rest[1..])
        case None => None
        case Some(docs) => Some([doc] + docs)
  }

  /** The documents of a manifest; its last line must be closed. */
  function ReadManifest(text: string): Option<seq<Node>> {
    var lines := SplitLines(text);
    if lines[|lines| - 1] != "" then None else ReadDocuments(lines[..|lines| - 1])
  }

  // ---------------------------------------------------------------- which documents are recovered

  /** The text a scalar stands for. */
  function ScalarText(s: Scalar): string {
    match s
    case Bool(b) => if b then "true" else "false"
    case Null => "null"
    case Int(n) => if n < 0 then "-" + NatText(-n) else NatText(n)
    case Str(text) => text
  }

  /** The document with every scalar replaced by its text. */
  function Erase(value: Node): Node
    decreases value, 1
  {
    match value
    case Leaf(s) => Leaf(Str(ScalarText(s)))
    case Map(entries) => Map(EraseEntries(entries))
    case List(items) => List(EraseItems(items))
  }

  function EraseEntries(entries: seq<Entry>): (r: seq<Entry>)
    ensures |r| == |entries|
    decreases entries, 0
  {
    if entries == [] then []
    else [Entry(entries[0].key, Erase(entries[0].value))] + EraseEntries(entries[1..])
  }

  function EraseItems(items: seq<Node>): (r: seq<Node>)
    ensures |r| == |items|
    decreases items, 0
  {
    if items == [] then [] else [Erase(items[0])] + EraseItems(items[1..])
  }

  /** A string the printer quotes, or one without newlines that does not look quoted. */
  predicate Survives(text: string) {
    NeedsQuotes(text) || (NoNewline(text) && text[0] != '"')
  }

  predicate CleanKey(key: string) {
    && NoNewline(key)
    && ':' !in key
    && !(" " <= key)
    && !("- " <= key)
  }

  /** No empty container, clean keys and surviving strings. */
  predicate Readable(value: Node)
    decreases value, 1
  {
    match value
    case Leaf(s) => s.Str? ==> Survives(s.text)
    case Map(entries) => entries != [] && ReadableEntries(entries)
    case List(items) => items != [] && ReadableItems(items)
  }

  predicate ReadableEntries(entries: seq<Entry>)
    decreases entries, 0
  {
    entries == [] ||
    (CleanKey(entries[0].key) && Readable(entries[0].value) && ReadableEntries(entries[1..]))
  }

  predicate ReadableItems(items: seq<Node>)
    decreases items, 0
  {
    items == [] || (Readable(items[0]) && ReadableItems(items[1..]))
  }

  /** A document that a manifest can hold: a readable mapping or sequence. */
  predicate ReadableDocument(doc: Node) {
    !doc.Leaf? && Readable(doc)
  }

  // ---------------------------------------------------------------- the lines of a printed value

  function Lines(value: Node, indent: nat): seq<string>
    decreases value, 1
  {
    match value
    case Leaf(s) => SplitLines(Spaces(indent) + YamlScalar(s))
    case Map(entries) => if entries == [] then [""] else EntriesLines(entries, indent)
    case List(items) => if items == [] then [""] else ItemsLines(items, indent)
  }

  function ValueLines(head: string, value: Node, indent: nat): seq<string>
    decreases value, 2
  {
    if value.Leaf? then SplitLines(head + " " + YamlScalar(value.scalar))
    else SplitLines(head) + Lines(value, indent + 2)
  }

  function EntriesLines(entries: seq<Entry>, indent: nat): seq<string>
    decreases entries, 0
  {
    if entries == [] then []
    else ValueLines(Spaces(indent) + entries[0].key + ":", entries[0].value, indent)
         + EntriesLines(entries[1..], indent)
  }

  function ItemsLines(items: seq<Node>, indent: nat): seq<string>
    decreases items, 0
  {
    if items == [] then []
    else ValueLines(Spaces(indent) + "-", items[0], indent) + ItemsLines(items[1..], indent)
  }

  function DocumentLines(docs: seq<Node>): seq<string> {
    if docs == [] then [""]
    else if |docs| == 1 then Lines(docs[0], 0)
    else Lines(docs[0], 0) + [SEPARATOR] + DocumentLines(docs[1..])
  }
}
