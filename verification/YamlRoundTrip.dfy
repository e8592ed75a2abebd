/** Reading back a printed manifest: it recovers the documents exactly when they are readable. */
module YamlRoundTrip {
  import opened Text
  import opened JsonText
  import opened Yaml

  // ---------------------------------------------------------------- the lines of the printed text

  function SplitAll(parts: seq<string>): seq<string> {
    if parts == [] then [] else SplitLines(parts[0]) + SplitAll(parts[1..])
  }

  lemma {:induction false} SplitAllAppend(a: seq<string>, b: seq<string>)
    ensures SplitAll(a + b) == SplitAll(a) + SplitAll(b)
  {
    if a == [] {
      assert a + b == b;
    } else {
      SplitAllAppend(a[1..], b);
      assert (a + b)[1..] == a[1..] + b;
    }
  }

  lemma {:induction false} SplitJoined(parts: seq<string>)
    requires parts != []
    ensures SplitLines(Join("\n", parts)) == SplitAll(parts)
  {
    if |parts| > 1 {
      SplitJoined(parts[1..]);
      SplitAtNewline(parts[0], Join("\n", parts[1..]));
    } else {
      assert SplitAll(parts[1..]) == [];
    }
  }

  lemma {:induction false} RenderLines(value: Node, indent: nat)
    ensures SplitLines(Render(value, indent)) == Lines(value, indent)
    decreases value, 1
  {
    match value
    case Leaf(_) =>
    case Map(entries) =>
      if entries != [] {
        RenderEntriesLines(entries, indent);
        SplitJoined(RenderEntries(entries, indent));
      }
    case List(items) =>
      if items != [] {
        RenderItemsLines(items, indent);
        SplitJoined(RenderItems(items, indent));
      }
  }

  lemma {:induction false} RenderEntriesLines(entries: seq<Entry>, indent: nat)
    ensures SplitAll(RenderEntries(entries, indent)) == EntriesLines(entries, indent)
    decreases entries, 0
  {
    if entries != [] {
      var e := entries[0];
      var head := Spaces(indent) + e.key + ":";
      RenderEntriesLines(entries[1..], indent);
      if e.value.Leaf? {
        var line := Spaces(indent) + e.key + ": " + YamlScalar(e.value.scalar);
        assert line == head + " " + YamlScalar(e.value.scalar);
        SplitAllAppend([line], RenderEntries(entries[1..], indent));
      } else {
        RenderLines(e.value, indent + 2);
        SplitAllPair(head, Render(e.value, indent + 2), RenderEntries(entries[1..], indent));
      }
    }
  }

  lemma {:induction false} RenderItemsLines(items: seq<Node>, indent: nat)
    ensures SplitAll(RenderItems(items, indent)) == ItemsLines(items, indent)
    decreases items, 0
  {
    if items != [] {
      var v := items[0];
      var head := Spaces(indent) + "-";
      RenderItemsLines(items[1..], indent);
      if v.Leaf? {
        var line := Spaces(indent) + "- " + YamlScalar(v.scalar);
        assert line == head + " " + YamlScalar(v.scalar);
        SplitAllAppend([line], RenderItems(items[1..], indent));
      } else {
        RenderLines(v, indent + 2);
        SplitAllPair(head, Render(v, indent + 2), RenderItems(items[1..], indent));
      }
    }
  }

  lemma SplitAllPair(a: string, b: string, more: seq<string>)
    ensures SplitAll([a, b] + more) == SplitLines(a) + SplitLines(b) + SplitAll(more)
  {
    SplitAllAppend([a, b], more);
    assert [a, b][1..] == [b];
    assert SplitAll([b]) == SplitLines(b) + SplitAll([]);
  }

  // ---------------------------------------------------------------- scalars

  lemma NumeralsAreText(n: int)
    ensures NoNewline(IntText(n)) && IntText(n)[0] != '"'
  {
    var digits := NatText(if n < 0 then -n else n);
    assert forall i :: 0 <= i < |digits| ==> IsDigit(digits[i]);
  }

  lemma ScalarOnOneLine(s: Scalar)
    requires Readable(Leaf(s))
    ensures NoNewline(YamlScalar(s)) && ReadScalar(YamlScalar(s)) == Some(ScalarText(s))
  {
    match s
    case Bool(_) =>
    case Null =>
    case Int(n) => NumeralsAreText(n);
    case Str(text) =>
      if NeedsQuotes(text) {
        JsonRoundTrip(text);
        JsonOneLine(text);
      }
  }

  /** The first printed line of a scalar gives its text back exactly when the scalar survives. */
  lemma ScalarRecovered(s: Scalar)
    ensures ReadScalar(SplitLines(YamlScalar(s))[0]) == Some(ScalarText(s)) <==> Readable(Leaf(s))
  {
    FirstLine(YamlScalar(s));
    if Readable(Leaf(s)) {
      ScalarOnOneLine(s);
    } else {
      var text := s.text;
      var first := SplitLines(text)[0];
      assert |first| < |text| || text[0] == '"';
      assert first != "" && first[0] == '"' ==> ReadScalar(first) == JsonLoads(first);
    }
  }

  // ---------------------------------------------------------------- lines of one value

  /** What is printed after a head without newlines starts with that head. */
  lemma ValueLinesHead(head: string, value: Node, indent: nat)
    requires NoNewline(head)
    ensures |ValueLines(head, value, indent)| > 0
    ensures head <= ValueLines(head, value, indent)[0]
    ensures !value.Leaf? ==> ValueLines(head, value, indent) == [head] + Lines(value, indent + 2)
    ensures value.Leaf? ==>
              var text := SplitLines(YamlScalar(value.scalar));
              ValueLines(head, value, indent) == [head + " " + text[0]] + text[1..]
  {
    if value.Leaf? {
      SplitWithPrefix(head + " ", YamlScalar(value.scalar));
    } else {
      SplitOneLine(head);
    }
  }

  /** The rest of the input cannot be taken for part of a block at this indentation. */
  predicate Outside(rest: seq<string>, indent: nat) {
    rest == [] || Ends(rest[0], indent)
  }

  lemma OutsideDeeper(rest: seq<string>, indent: nat)
    requires Outside(rest, indent)
    ensures Outside(rest, indent + 2)
  {
    assert Spaces(indent + 2) == Spaces(indent) + "  ";
  }

  lemma EntriesLinesSplit(entries: seq<Entry>, indent: nat, rest: seq<string>)
    requires entries != []
    ensures EntriesLines(entries, indent) + rest ==
            ValueLines(Spaces(indent) + entries[0].key + ":", entries[0].value, indent)
            + (EntriesLines(entries[1..], indent) + rest)
  {
  }

  lemma ItemsLinesSplit(items: seq<Node>, indent: nat, rest: seq<string>)
    requires items != []
    ensures ItemsLines(items, indent) + rest ==
            ValueLines(Spaces(indent) + "-", items[0], indent) + (ItemsLines(items[1..], indent) + rest)
  {
  }

  /** A line at an indentation whose text does not start with a space ends every deeper block. */
  lemma SiblingEndsBlock(line: string, body: string, indent: nat)
    requires Spaces(indent) + body <= line
    requires body != "" && body[0] != ' '
    ensures Ends(line, indent + 2)
  {
    assert line[indent] == body[0];
    assert Spaces(indent + 2)[indent] == ' ';
  }

  lemma EntriesOutside(entries: seq<Entry>, indent: nat, rest: seq<string>)
    requires ReadableEntries(entries)
    requires Outside(rest, indent)
    ensures Outside(EntriesLines(entries, indent) + rest, indent + 2)
  {
    if entries == [] {
      assert EntriesLines(entries, indent) + rest == rest;
      OutsideDeeper(rest, indent);
    } else {
      var body := entries[0].key + ":";
      var head := Spaces(indent) + entries[0].key + ":";
      assert head == Spaces(indent) + body;
      ValueLinesHead(head, entries[0].value, indent);
      assert body[0] != ' ' by {
        if entries[0].key != "" {
          assert !(" " <= entries[0].key);
        }
      }
      SiblingEndsBlock(ValueLines(head, entries[0].value, indent)[0], body, indent);
    }
  }

  lemma ItemsOutside(items: seq<Node>, indent: nat, rest: seq<string>)
    requires Outside(rest, indent)
    ensures Outside(ItemsLines(items, indent) + rest, indent + 2)
  {
    if items == [] {
      assert ItemsLines(items, indent) + rest == rest;
      OutsideDeeper(rest, indent);
    } else {
      var head := Spaces(indent) + "-";
      ValueLinesHead(head, items[0], indent);
      SiblingEndsBlock(ValueLines(head, items[0], indent)[0], "-", indent);
    }
  }

  // ---------------------------------------------------------------- readable values are recovered

  lemma {:induction false} ValueForward(head: string, value: Node, indent: nat, rest: seq<string>)
    requires NoNewline(head)
    requires Readable(value)
    requires Outside(rest, indent + 2)
    ensures
      var lines := ValueLines(head, value, indent) + rest;
      && |lines| > 0 && head <= lines[0]
      && ReadValue(lines[0][|head|..], lines[1..], indent) == Parsed(Erase(value), rest)
    decreases value, 2
  {
    ValueLinesHead(head, value, indent);
    var lines := ValueLines(head, value, indent) + rest;
    if value.Leaf? {
      var text := YamlScalar(value.scalar);
      ScalarOnOneLine(value.scalar);
      SplitOneLine(text);
      assert lines == [head + " " + text] + rest;
      assert lines[0][|head|..] == " " + text;
      assert (" " + text)[1..] == text;
    } else {
      assert lines[0][|head|..] == "";
      assert lines[1..] == Lines(value, indent + 2) + rest;
      BlockForward(value, indent + 2, rest);
    }
  }

  lemma {:induction false} BlockForward(value: Node, indent: nat, rest: seq<string>)
    requires ReadableDocument(value)
    requires Outside(rest, indent)
    ensures ReadBlock(Lines(value, indent) + rest, indent) == Parsed(Erase(value), rest)
    decreases value, 1
  {
    match value
    case Map(entries) =>
      EntriesForward(entries, indent, rest);
      var head := Spaces(indent) + entries[0].key + ":";
      ValueLinesHead(head, entries[0].value, indent);
      KeyLine(ValueLines(head, entries[0].value, indent)[0], entries[0].key, indent);
    case List(items) =>
      ItemsForward(items, indent, rest);
      ItemLine(items[0], indent);
  }

  /** A line that starts with a clean key is read as that key. */
  lemma KeyLine(line: string, key: string, indent: nat)
    requires CleanKey(key)
    requires Spaces(indent) + key + ":" <= line
    ensures !Ends(line, indent)
    ensures var body := line[indent..];
            && !IsItem(body) && !(" " <= body)
            && IndexOf(body, ':') == |key| && body[..|key|] == key
  {
    var head := Spaces(indent) + key + ":";
    var body := line[indent..];
    assert forall i :: 0 <= i < |head| ==> line[i] == head[i];
    assert body[|key|] == ':' == head[indent + |key|];
    assert forall i :: 0 <= i < |key| ==> body[i] == key[i] && key[i] in key;
    assert |key| == 0 ==> body[0] == ':';
    assert |key| == 1 ==> body[1] == ':';
    assert line[..indent] == Spaces(indent);
    assert line != SEPARATOR by {
      assert line[indent + |key|] == ':';
    }
  }

  lemma ItemLine(item: Node, indent: nat)
    ensures
      var line := ValueLines(Spaces(indent) + "-", item, indent)[0];
      && Spaces(indent) + "-" <= line && !Ends(line, indent) && IsItem(line[indent..])
  {
    var head := Spaces(indent) + "-";
    ValueLinesHead(head, item, indent);
    var line := ValueLines(head, item, indent)[0];
    if item.Leaf? {
      var text := SplitLines(YamlScalar(item.scalar))[0];
      assert line == Spaces(indent) + ("- " + text);
      assert line[indent..] == "- " + text;
      assert line[indent + 1] == ' ';
    } else {
      assert line[indent..] == "-";
    }
  }

  /** One step of reading entries, and of reading items. */
  lemma ReadEntriesStep(lines: seq<string>, indent: nat, key: string, value: Node, tail: seq<string>,
                        more: seq<Entry>, last: seq<string>)
    requires lines != [] && CleanKey(key)
    requires Spaces(indent) + key + ":" <= lines[0]
    requires ReadValue(lines[0][indent + |key| + 1..], lines[1..], indent) == Parsed(value, tail)
    requires ReadEntries(tail, indent) == Parsed(more, last)
    ensures ReadEntries(lines, indent) == Parsed([Entry(key, value)] + more, last)
  {
    KeyLine(lines[0], key, indent);
    assert lines[0][indent..][|key| + 1..] == lines[0][indent + |key| + 1..];
  }

  lemma ReadItemsStep(lines: seq<string>, indent: nat, value: Node, tail: seq<string>,
                      more: seq<Node>, last: seq<string>)
    requires lines != [] && !Ends(lines[0], indent) && IsItem(lines[0][indent..])
    requires ReadValue(lines[0][indent + 1..], lines[1..], indent) == Parsed(value, tail)
    requires ReadItems(tail, indent) == Parsed(more, last)
    ensures ReadItems(lines, indent) == Parsed([value] + more, last)
  {
    assert lines[0][indent..][1..] == lines[0][indent + 1..];
  }

  lemma {:induction false} EntryForward(e: Entry, indent: nat, tail: seq<string>, more: seq<Entry>, last: seq<string>)
    requires CleanKey(e.key) && Readable(e.value)
    requires Outside(tail, indent + 2)
    requires ReadEntries(tail, indent) == Parsed(more, last)
    ensures ReadEntries(ValueLines(Spaces(indent) + e.key + ":", e.value, indent) + tail, indent) ==
            Parsed([Entry(e.key, Erase(e.value))] + more, last)
    decreases e, 0
  {
    var head := Spaces(indent) + e.key + ":";
    var lines := ValueLines(head, e.value, indent) + tail;
    ValueForward(head, e.value, indent, tail);
    ReadEntriesStep(lines, indent, e.key, Erase(e.value), tail, more, last);
  }

  lemma {:induction false} EntriesForward(entries: seq<Entry>, indent: nat, rest: seq<string>)
    requires ReadableEntries(entries)
    requires Outside(rest, indent)
    ensures ReadEntries(EntriesLines(entries, indent) + rest, indent) == Parsed(EraseEntries(entries), rest)
    decreases entries, 0
  {
    if entries == [] {
      assert EntriesLines(entries, indent) + rest == rest;
    } else {
      var e, tail := entries[0], EntriesLines(entries[1..], indent) + rest;
      EntriesOutside(entries[1..], indent, rest);
      EntriesForward(entries[1..], indent, rest);
      EntryForward(e, indent, tail, EraseEntries(entries[1..]), rest);
      EntriesLinesSplit(entries, indent, rest);
    }
  }

  lemma {:induction false} ItemsForward(items: seq<Node>, indent: nat, rest: seq<string>)
    requires ReadableItems(items)
    requires Outside(rest, indent)
    ensures ReadItems(ItemsLines(items, indent) + rest, indent) == Parsed(EraseItems(items), rest)
    decreases items, 0
  {
    if items == [] {
      assert ItemsLines(items, indent) + rest == rest;
    } else {
      var head := Spaces(indent) + "-";
      var tail := ItemsLines(items[1..], indent) + rest;
      ItemsOutside(items[1..], indent, rest);
      ValueForward(head, items[0], indent, tail);
      ItemsForward(items[1..], indent, rest);
      ItemLine(items[0], indent);
      var lines := ValueLines(head, items[0], indent) + tail;
      ItemsLinesSplit(items, indent, rest);
      ReadItemsStep(lines, indent, Erase(items[0]), tail, EraseItems(items[1..]), rest);
    }
  }

  // ---------------------------------------------------------------- only readable values are recovered

  lemma {:induction false} ValueBackward(head: string, value: Node, indent: nat, rest: seq<string>, last: seq<string>)
    requires NoNewline(head)
    requires
      var lines := ValueLines(head, value, indent) + rest;
      && |lines| > 0 && head <= lines[0]
      && ReadValue(lines[0][|head|..], lines[1..], indent) == Parsed(Erase(value), last)
    ensures Readable(value) && last == rest
    decreases value, 2
  {
    ValueLinesHead(head, value, indent);
    var lines := ValueLines(head, value, indent) + rest;
    if value.Leaf? {
      var text := SplitLines(YamlScalar(value.scalar));
      assert lines[0] == head + " " + text[0];
      assert lines[0][|head|..] == " " + text[0];
      assert (" " + text[0])[1..] == text[0];
      ScalarRecovered(value.scalar);
      ScalarOnOneLine(value.scalar);
      SplitOneLine(YamlScalar(value.scalar));
      assert lines[1..] == rest;
    } else {
      assert lines[0][|head|..] == "";
      assert lines[1..] == Lines(value, indent + 2) + rest;
      BlockBackward(value, indent + 2, rest, last);
    }
  }

  lemma {:induction false} BlockBackward(value: Node, indent: nat, rest: seq<string>, last: seq<string>)
    requires !value.Leaf?
    requires ReadBlock(Lines(value, indent) + rest, indent) == Parsed(Erase(value), last)
    ensures Readable(value) && last == rest
    decreases value, 1
  {
    var lines := Lines(value, indent) + rest;
    match value
    case Map(entries) =>
      if entries == [] {
        EmptyLineFails(rest, indent);
      } else {
        assert ReadEntries(lines, indent) == Parsed(EraseEntries(entries), last);
        EntriesBackward(entries, indent, rest, last);
      }
    case List(items) =>
      if items == [] {
        EmptyLineFails(rest, indent);
      } else {
        assert ReadItems(lines, indent) == Parsed(EraseItems(items), last);
        ItemsBackward(items, indent, rest, last);
      }
  }

  /** An empty container prints an empty line, which no block can start with. */
  lemma EmptyLineFails(rest: seq<string>, indent: nat)
    ensures ReadBlock([""] + rest, indent) == Fail
  {
    var lines := [""] + rest;
    if !Ends(lines[0], indent) {
      assert indent == 0 && lines[0][indent..] == "";
      assert ReadEntries(lines, indent) == Fail;
    }
  }

  lemma {:induction false} EntriesBackward(entries: seq<Entry>, indent: nat, rest: seq<string>, last: seq<string>)
    requires ReadEntries(EntriesLines(entries, indent) + rest, indent) == Parsed(EraseEntries(entries), last)
    ensures ReadableEntries(entries) && last == rest
    decreases entries, 0
  {
    if entries == [] {
      assert EntriesLines(entries, indent) + rest == rest;
    } else {
      var key, value := entries[0].key, entries[0].value;
      var head := Spaces(indent) + key + ":";
      var tail := EntriesLines(entries[1..], indent) + rest;
      var lines := ValueLines(head, value, indent) + tail;
      EntriesLinesSplit(entries, indent, rest);
      var next := ReadEntriesInverse(lines, indent, key, Erase(value), EraseEntries(entries[1..]), last);
      ValueLinesHead(head, value, indent);
      assert lines[0][|head|..] == lines[0][indent + |key| + 1..];
      ValueBackward(head, value, indent, tail, next);
      EntriesBackward(entries[1..], indent, rest, last);
    }
  }

  /** When a first entry is read, its key is clean and its value comes from what follows the key. */
  lemma ReadEntriesInverse(lines: seq<string>, indent: nat, key: string, value: Node, more: seq<Entry>,
                           last: seq<string>)
    returns (next: seq<string>)
    requires lines != [] && NoNewline(lines[0])
    requires ReadEntries(lines, indent) == Parsed([Entry(key, value)] + more, last)
    ensures CleanKey(key)
    ensures |lines[0]| > indent + |key|
    ensures ReadValue(lines[0][indent + |key| + 1..], lines[1..], indent) == Parsed(value, next)
    ensures ReadEntries(next, indent) == Parsed(more, last)
  {
    assert !Ends(lines[0], indent);
    var body := lines[0][indent..];
    var colon := IndexOf(body, ':');
    var read := ReadValue(body[colon + 1..], lines[1..], indent);
    next := read.rest;
    var later := ReadEntries(next, indent);
    assert [Entry(body[..colon], read.value)] + later.value == [Entry(key, value)] + more;
    assert ([Entry(body[..colon], read.value)] + later.value)[1..] == later.value;
    assert ([Entry(key, value)] + more)[1..] == more;
    assert [Entry(body[..colon], read.value)][0] == [Entry(key, value)][0];
    assert body[colon + 1..] == lines[0][indent + |key| + 1..];
    assert forall i :: 0 <= i < |key| ==> key[i] == body[i] && body[i] == lines[0][indent + i];
  }

  lemma ReadItemsInverse(lines: seq<string>, indent: nat, value: Node, more: seq<Node>, last: seq<string>)
    returns (next: seq<string>)
    requires lines != [] && !Ends(lines[0], indent) && IsItem(lines[0][indent..])
    requires ReadItems(lines, indent) == Parsed([value] + more, last)
    ensures ReadValue(lines[0][indent + 1..], lines[1..], indent) == Parsed(value, next)
    ensures ReadItems(next, indent) == Parsed(more, last)
  {
    var body := lines[0][indent..];
    assert body[1..] == lines[0][indent + 1..];
    var read := ReadValue(body[1..], lines[1..], indent);
    next := read.rest;
    var later := ReadItems(next, indent);
    assert ([read.value] + later.value)[1..] == later.value;
    assert ([value] + more)[1..] == more;
    assert ([read.value] + later.value)[0] == ([value] + more)[0];
  }

  lemma {:induction false} ItemsBackward(items: seq<Node>, indent: nat, rest: seq<string>, last: seq<string>)
    requires ReadItems(ItemsLines(items, indent) + rest, indent) == Parsed(EraseItems(items), last)
    ensures ReadableItems(items) && last == rest
    decreases items, 0
  {
    if items == [] {
      assert ItemsLines(items, indent) + rest == rest;
    } else {
      var tail := ItemsLines(items[1..], indent) + rest;
      ItemsLinesSplit(items, indent, rest);
      ItemBackward(items[0], indent, tail, EraseItems(items[1..]), last);
      ItemsBackward(items[1..], indent, rest, last);
    }
  }

  lemma {:induction false} ItemBackward(item: Node, indent: nat, tail: seq<string>, more: seq<Node>, last: seq<string>)
    requires ReadItems(ValueLines(Spaces(indent) + "-", item, indent) + tail, indent) ==
             Parsed([Erase(item)] + more, last)
    ensures Readable(item) && ReadItems(tail, indent) == Parsed(more, last)
    decreases item, 3
  {
    var head := Spaces(indent) + "-";
    var lines := ValueLines(head, item, indent) + tail;
    ItemLine(item, indent);
    var next := ReadItemsInverse(lines, indent, Erase(item), more, last);
    ValueLinesHead(head, item, indent);
    ValueBackward(head, item, indent, tail, next);
  }

  // ---------------------------------------------------------------- whole manifests

  predicate AllReadable(docs: seq<Node>) {
    forall i :: 0 <= i < |docs| ==> ReadableDocument(docs[i])
  }

  lemma SplitAtSeparator(a: string, b: string)
    ensures SplitLines(a + "\n---\n" + b) == SplitLines(a) + [SEPARATOR] + SplitLines(b)
  {
    SplitAtNewline(SEPARATOR, b);
    SplitOneLine(SEPARATOR);
    SplitAtNewline(a, SEPARATOR + "\n" + b);
    assert a + "\n---\n" + b == a + "\n" + (SEPARATOR + "\n" + b);
  }

  lemma {:induction false} JoinedDocumentLines(docs: seq<Node>)
    ensures SplitLines(Join("\n---\n", Rendered(docs))) == DocumentLines(docs)
  {
    if |docs| == 1 {
      RenderLines(docs[0], 0);
    } else if |docs| > 1 {
      assert Rendered(docs)[1..] == Rendered(docs[1..]);
      JoinedDocumentLines(docs[1..]);
      RenderLines(docs[0], 0);
      SplitAtSeparator(Render(docs[0], 0), Join("\n---\n", Rendered(docs[1..])));
    }
  }

  /** Reading a manifest reads the lines of its documents. */
  lemma ManifestLines(docs: seq<Node>)
    ensures ReadManifest(RenderManifest(docs)) == ReadDocuments(DocumentLines(docs))
  {
    var text := Join("\n---\n", Rendered(docs));
    JoinedDocumentLines(docs);
    SplitAtNewline(text, "");
    assert RenderManifest(docs) == text + "\n" + "";
    assert SplitLines(RenderManifest(docs)) == DocumentLines(docs) + [""];
  }

  lemma {:induction false} DocumentsForward(docs: seq<Node>)
    requires docs != [] && AllReadable(docs)
    ensures ReadDocuments(DocumentLines(docs)) == Some(EraseItems(docs))
  {
    var doc, more := docs[0], docs[1..];
    if |docs| == 1 {
      BlockForward(doc, 0, []);
      assert Lines(doc, 0) + [] == Lines(doc, 0);
      assert EraseItems(docs) == [Erase(doc)];
    } else {
      var rest := [SEPARATOR] + DocumentLines(more);
      BlockForward(doc, 0, rest);
      assert DocumentLines(docs) == Lines(doc, 0) + rest;
      assert rest[1..] == DocumentLines(more);
      DocumentsForward(more);
    }
  }

  lemma {:induction false} DocumentsBackward(docs: seq<Node>)
    requires ReadDocuments(DocumentLines(docs)) == Some(EraseItems(docs))
    ensures docs != [] && AllReadable(docs)
  {
    EmptyLineFails([], 0);
    assert [""] + [] == [""];
    var doc, more := docs[0], docs[1..];
    var rest := if |docs| == 1 then [] else [SEPARATOR] + DocumentLines(more);
    assert DocumentLines(docs) == Lines(doc, 0) + rest;
    var read := ReadBlock(DocumentLines(docs), 0);
    var erased := EraseItems(docs);
    assert erased[0] == Erase(doc) && erased[1..] == EraseItems(more);
    if read.rest != [] {
      var later := ReadDocuments(read.rest[1..]).value;
      assert ([read.value] + later)[0] == read.value && ([read.value] + later)[1..] == later;
    }
    BlockBackward(doc, 0, rest, read.rest);
    if |docs| > 1 {
      assert rest[1..] == DocumentLines(more);
      DocumentsBackward(more);
    }
  }

  /** A printed manifest reads back as its own documents, up to scalar text, exactly when there is
      a document and each is a readable mapping or sequence. */
  lemma RoundTrip(docs: seq<Node>)
    ensures ReadManifest(RenderManifest(docs)) == Some(EraseItems(docs)) <==> docs != [] && AllReadable(docs)
  {
    ManifestLines(docs);
    if docs != [] && AllReadable(docs) {
      DocumentsForward(docs);
    }
    if ReadDocuments(DocumentLines(docs)) == Some(EraseItems(docs)) {
      DocumentsBackward(docs);
    }
  }

  // ---------------------------------------------------------------- separators

  /** No line of a readable document is a separator line. */
  lemma {:induction false} NoSeparatorLine(value: Node, indent: nat)
    requires ReadableDocument(value)
    ensures SEPARATOR !in Lines(value, indent)
    decreases value, 1
  {
    match value
    case Map(entries) => NoSeparatorInEntries(entries, indent);
    case List(items) => NoSeparatorInItems(items, indent);
  }

  lemma {:induction false} NoSeparatorInValue(head: string, value: Node, indent: nat)
    requires NoNewline(head) && Readable(value)
    requires head != "" && (head[|head| - 1] == ':' || head == "-" || head[0] == ' ')
    ensures SEPARATOR !in ValueLines(head, value, indent)
    decreases value, 2
  {
    ValueLinesHead(head, value, indent);
    if value.Leaf? {
      ScalarOnOneLine(value.scalar);
      SplitOneLine(YamlScalar(value.scalar));
      var line := head + " " + YamlScalar(value.scalar);
      assert ValueLines(head, value, indent) == [line];
      assert line[|head|] == ' ';
    } else {
      NoSeparatorLine(value, indent + 2);
    }
  }

  lemma {:induction false} NoSeparatorInEntries(entries: seq<Entry>, indent: nat)
    requires ReadableEntries(entries)
    ensures SEPARATOR !in EntriesLines(entries, indent)
    decreases entries, 0
  {
    if entries != [] {
      var head := Spaces(indent) + entries[0].key + ":";
      assert head[|head| - 1] == ':';
      NoSeparatorInValue(head, entries[0].value, indent);
      NoSeparatorInEntries(entries[1..], indent);
    }
  }

  lemma {:induction false} NoSeparatorInItems(items: seq<Node>, indent: nat)
    requires ReadableItems(items)
    ensures SEPARATOR !in ItemsLines(items, indent)
    decreases items, 0
  {
    if items != [] {
      var head := Spaces(indent) + "-";
      if indent > 0 {
        assert head[0] == ' ';
      }
      NoSeparatorInValue(head, items[0], indent);
      NoSeparatorInItems(items[1..], indent);
    }
  }
}
