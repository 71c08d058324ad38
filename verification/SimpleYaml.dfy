/** Printing a nested configuration and loading it back with the line-based parser. */
module SimpleYaml {
  import opened Wrappers
  import opened YamlText

  /** A configuration value: a scalar, as text, or a mapping in insertion order. */
  datatype Node = Scalar(text: string) | Mapping(entries: seq<Entry>)

  datatype Entry = Entry(key: string, node: Node)

  // The printer.

  function Dump(entries: seq<Entry>, indent: nat): seq<string>
    decreases entries
  {
    if entries == [] then []
    else
      (match entries[0].node
       case Scalar(text) => [Spaces(indent) + entries[0].key + ":" + (" " + PrintScalar(text))]
       case Mapping(inner) => [Spaces(indent) + entries[0].key + ":" + ""] + Dump(inner, indent + 2))
      + Dump(entries[1..], indent)
  }

  // The parser.

  datatype Item = Item(path: string, value: string)

  /** `fault` is set when a section line would write past the end of the section stack; what the program
    * does from there on is undefined, so the state stays as it is. */
  datatype Loader = Loader(stack: seq<string>, items: seq<Item>, fault: bool)

  const FRESH := Loader([], [], false)

  function JoinPath(stack: seq<string>, key: string): string
  {
    var path := Joined(stack);
    (if path == "" then "" else path + ".") + key
  }

  function Joined(stack: seq<string>): string
  {
    if stack == [] then "" else
      var path := Joined(stack[..|stack| - 1]);
      (if path == "" then "" else path + ".") + stack[|stack| - 1]
  }

  /** What a line means: nothing, a section, or an item. */
  datatype Line = Skipped | Section(indent: nat, key: string) | Value(indent: nat, key: string, value: string)

  function ParseLine(line: string): Line
  {
    var text := Trim(Strip(line, false, false));
    var pos := Find(text, ':');
    if pos == |text| then Skipped else
      var key, value := Trim(text[..pos]), Trim(text[pos + 1..]);
      if key == "" then Skipped
      else if value == "" then Section(LeadingSpaces(line) / 2, key)
      else Value(LeadingSpaces(line) / 2, key, Unquote(value))
  }

  function Shrunk(stack: seq<string>, indent: nat): (r: seq<string>)
    ensures |r| == if |stack| > indent then indent else |stack|
  {
    if |stack| > indent then stack[..indent] else stack
  }

  function Apply(l: Loader, line: Line): Loader
  {
    match line
    case Skipped => l
    case Value(indent, key, value) =>
      var stack := Shrunk(l.stack, indent);
      l.(stack := stack, items := l.items + [Item(JoinPath(stack, key), value)])
    case Section(indent, key) =>
      var stack := Shrunk(l.stack, indent);
      if |stack| < indent then l.(fault := true) else l.(stack := stack + [key])
  }

  function LoadLines(l: Loader, lines: seq<string>): Loader
    decreases |lines|
  {
    if lines == [] || l.fault then l else LoadLines(Apply(l, ParseLine(lines[0])), lines[1..])
  }

  const BUFFER: nat := 1024

  /** `fgets` with a buffer of 1024: up to 1023 characters, or up to and with a newline. */
  function Chunk(text: string, room: nat): (n: nat)
    ensures n <= |text| && n <= room && (text != [] && room > 0 ==> n > 0)
  {
    if text == [] || room == 0 then 0
    else if text[0] == '\n' then 1
    else 1 + Chunk(text[1..], room - 1)
  }

  function Chunks(text: string): seq<string>
    decreases |text|
  {
    if text == [] then [] else
      var n := Chunk(text, BUFFER - 1);
      [text[..n]] + Chunks(text[n..])
  }

  function Load(text: string): Loader
  {
    LoadLines(FRESH, Chunks(text))
  }

  function GetString(items: seq<Item>, path: string, default: string): string
  {
    if items == [] then default else if items[0].path == path then items[0].value
                                     else GetString(items[1..], path, default)
  }

  function FileOf(lines: seq<string>): string
  {
    if lines == [] then "" else lines[0] + "\n" + FileOf(lines[1..])
  }

  // What may be printed.

  predicate PlainChar(c: char)
  {
    !IsSpace(c) && c != '.' && c != ':' && c != '#' && c != '"' && c != '\''
  }

  predicate PlainKey(key: string)
  {
    key != "" && forall i :: 0 <= i < |key| ==> PlainChar(key[i])
  }

  predicate PlainScalar(text: string)
  {
    Admissible(text) && '\n' !in text
  }

  predicate Printable(entries: seq<Entry>)
    decreases entries
  {
    forall i :: 0 <= i < |entries| ==>
      PlainKey(entries[i].key)
      && match entries[i].node case Scalar(text) => PlainScalar(text) case Mapping(inner) => Printable(inner)
  }

  /** Every line with its newline fits the buffer. (A line of 1023 characters still does: its newline is then
    * read as a line of its own, which means nothing.) */
  predicate Short(lines: seq<string>)
  {
    forall i :: 0 <= i < |lines| ==> |lines[i]| < BUFFER
  }

  predicate OneLine(lines: seq<string>)
  {
    forall i :: 0 <= i < |lines| ==> '\n' !in lines[i]
  }

  // What was printed, as the parser should see it.

  /** The items in order: each scalar under the path of keys that leads to it. */
  function Flatten(entries: seq<Entry>, stack: seq<string>): seq<Item>
    decreases entries
  {
    if entries == [] then []
    else
      (match entries[0].node
       case Scalar(text) => [Item(JoinPath(stack, entries[0].key), text)]
       case Mapping(inner) => Flatten(inner, stack + [entries[0].key]))
      + Flatten(entries[1..], stack)
  }

  // One printed line.

  /** A line that begins with a key, taken apart in the ways the proofs need. */
  lemma LineShape(before: string, key: string, rest: string, end: string)
    ensures before + key + ":" + rest + end == (before + key + ":") + (rest + end)
    ensures before + key + ":" + rest + end == before + (key + ":" + rest) + end
    ensures before + key + ":" + rest + end == before + ((key + ":" + rest) + end)
  {
  }

  lemma QuietHead(indent: nat, key: string)
    requires PlainKey(key)
    ensures Quiet(Spaces(indent) + key + ":") && Blank(Spaces(indent))
  {
  }

  lemma KeyLine(indent: nat, key: string, rest: string, end: string)
    requires PlainKey(key) && (rest == "" || (rest[0] == ' ' && Edged(rest[1..])))
    requires LineEnd(end) && Strip(rest + end, false, false) == rest + end
    ensures var line := Spaces(indent) + key + ":" + rest + end;
            Trim(Strip(line, false, false)) == key + ":" + rest && LeadingSpaces(line) == indent
  {
    hide Strip, Trim, LeadingSpaces, Quiet, PlainKey, Spaces;
    var text := key + ":" + rest;
    LineShape(Spaces(indent), key, rest, end);
    QuietHead(indent, key);
    StripQuiet(Spaces(indent) + key + ":", rest + end, false, false);
    EdgedLine(key, rest);
    TrimEdged(Spaces(indent), text, end);
    NotSpace(text, end);
    CountSpaces(indent, text + end);
  }

  lemma NotSpace(text: string, after: string)
    requires Edged(text)
    ensures (text + after)[0] != ' '
  {
  }

  lemma EdgedLine(key: string, rest: string)
    requires PlainKey(key) && (rest == "" || (rest[0] == ' ' && Edged(rest[1..])))
    ensures Edged(key + ":" + rest)
  {
    var text := key + ":" + rest;
    assert text[0] == key[0];
    if rest == "" {
      assert text[|text| - 1] == ':';
    } else {
      assert text[|text| - 1] == rest[1..][|rest[1..]| - 1];
    }
  }

  lemma PlainKeyFacts(key: string)
    requires PlainKey(key)
    ensures Edged(key) && Trim(key) == key && ':' !in key && '\n' !in key && '.' !in key
  {
    TrimEdged("", key, "");
    assert "" + key + "" == key;
  }

  /** The parser cuts the line at the colon after the key. */
  lemma CutAtColon(key: string, rest: string)
    requires PlainKey(key)
    ensures var text := key + ":" + rest;
            Find(text, ':') == |key| && text[..|key|] == key && text[|key| + 1..] == rest && Trim(text[..|key|]) == key
  {
    PlainKeyFacts(key);
    FindAfter(key, ':', rest);
  }

  lemma SectionLine(indent: nat, key: string, end: string)
    requires PlainKey(key) && LineEnd(end)
    ensures ParseLine(Spaces(indent) + key + ":" + "" + end) == Section(indent / 2, key)
  {
    hide Strip, LeadingSpaces, Find, Spaces;
    StripNoHash(end, false, false);
    assert "" + end == end;
    KeyLine(indent, key, "", end);
    CutAtColon(key, "");
  }

  lemma ScalarRest(t: string, end: string)
    requires PlainScalar(t) && LineEnd(end)
    ensures var rest := " " + PrintScalar(t);
            && Strip(rest + end, false, false) == rest + end && Edged(rest[1..]) && rest[0] == ' '
            && Trim(rest) == PrintScalar(t) && Unquote(PrintScalar(t)) == t
  {
    hide Trim, Strip, PrintScalar;
    var p := PrintScalar(t);
    AdmissibleReadsBack(t, end);
    StripQuiet(" ", p + end, false, false);
    assert " " + p + end == " " + (p + end);
    assert (" " + p)[1..] == p;
    TrimEdged(" ", p, "");
    assert " " + p + "" == " " + p;
  }

  lemma ScalarLine(indent: nat, key: string, t: string, end: string)
    requires PlainKey(key) && PlainScalar(t) && LineEnd(end)
    ensures ParseLine(Spaces(indent) + key + ":" + (" " + PrintScalar(t)) + end) == Value(indent / 2, key, t)
  {
    hide Strip, LeadingSpaces, Find, Trim, PrintScalar, PlainScalar, Unquote, Spaces;
    ScalarRest(t, end);
    KeyLine(indent, key, " " + PrintScalar(t), end);
    CutAtColon(key, " " + PrintScalar(t));
  }

  // Whole documents.

  lemma {:induction false} LoadAppend(l: Loader, first: seq<string>, second: seq<string>)
    ensures LoadLines(l, first + second) == LoadLines(LoadLines(l, first), second)
    decreases |first|
  {
    hide Apply, ParseLine;
    if first == [] {
      assert first + second == second;
    } else if !l.fault {
      assert (first + second)[1..] == first[1..] + second;
      LoadAppend(Apply(l, ParseLine(first[0])), first[1..], second);
    }
  }

  /** A printed line as the buffer delivers it. */
  function Delivered(line: string): seq<string>
  {
    if |line| == BUFFER - 1 then [line, "\n"] else [line + "\n"]
  }

  function AllDelivered(lines: seq<string>): seq<string>
  {
    if lines == [] then [] else Delivered(lines[0]) + AllDelivered(lines[1..])
  }

  lemma {:induction false} DeliveredJoin(first: seq<string>, second: seq<string>)
    ensures AllDelivered(first + second) == AllDelivered(first) + AllDelivered(second)
  {
    if first == [] {
      assert first + second == second;
    } else {
      assert (first + second)[1..] == first[1..] + second;
      DeliveredJoin(first[1..], second);
    }
  }

  lemma NewlineSkipped()
    ensures ParseLine("\n") == Skipped
  {
    StripNoHash("\n", false, false);
    TrimBlank("\n");
  }

  /** A delivered line does what the line says, once. */
  lemma DeliverLine(l: Loader, line: string, meaning: Line)
    requires !l.fault && (forall end :: LineEnd(end) ==> ParseLine(line + end) == meaning)
    ensures LoadLines(l, Delivered(line)) == Apply(l, meaning)
  {
    hide Apply, ParseLine;
    NewlineSkipped();
    assert LineEnd("\n") && LineEnd("");
    assert line + "" == line;
    var l' := Apply(l, meaning);
    if |line| == BUFFER - 1 {
      assert Delivered(line)[1..] == ["\n"];
      assert LoadLines(l', ["\n"]) == l' by { SkipKeeps(l'); }
    } else {
      assert Delivered(line)[1..] == [];
    }
  }

  lemma SkipKeeps(l: Loader)
    ensures LoadLines(l, ["\n"]) == l
  {
    NewlineSkipped();
    assert ["\n"][1..] == [];
  }

  lemma DeliverScalar(l: Loader, level: nat, key: string, t: string)
    requires !l.fault && |l.stack| >= level && PlainKey(key) && PlainScalar(t)
    ensures LoadLines(l, Delivered(Spaces(2 * level) + key + ":" + (" " + PrintScalar(t))))
            == Loader(l.stack[..level], l.items + [Item(JoinPath(l.stack[..level], key), t)], false)
  {
    hide ParseLine, JoinPath, PlainKey, PlainScalar, PrintScalar, Delivered, LoadLines;
    var line := Spaces(2 * level) + key + ":" + (" " + PrintScalar(t));
    forall end | LineEnd(end)
      ensures ParseLine(line + end) == Value(level, key, t)
    {
      ScalarLine(2 * level, key, t, end);
    }
    DeliverLine(l, line, Value(level, key, t));
    assert |l.stack| == level ==> l.stack[..level] == l.stack;
  }

  lemma DeliverSection(l: Loader, level: nat, key: string)
    requires !l.fault && |l.stack| >= level && PlainKey(key)
    ensures LoadLines(l, Delivered(Spaces(2 * level) + key + ":" + "")) == l.(stack := l.stack[..level] + [key])
  {
    hide ParseLine, JoinPath, PlainKey, Delivered, LoadLines;
    var line := Spaces(2 * level) + key + ":" + "";
    forall end | LineEnd(end)
      ensures ParseLine(line + end) == Section(level, key)
    {
      SectionLine(2 * level, key, end);
    }
    DeliverLine(l, line, Section(level, key));
    assert |l.stack| == level ==> l.stack[..level] == l.stack;
  }

  /** Loading what was printed below a section adds exactly its items, keeps the section stack up to there,
    * and never writes past the stack's end. */
  lemma {:induction false} DumpLoads(l: Loader, entries: seq<Entry>, level: nat)
    requires !l.fault && |l.stack| >= level && Printable(entries)
    ensures var l' := LoadLines(l, AllDelivered(Dump(entries, 2 * level)));
            && !l'.fault && |l'.stack| >= level && l'.stack[..level] == l.stack[..level]
            && l'.items == l.items + Flatten(entries, l.stack[..level])
    decreases entries, 0
  {
    hide JoinPath, PlainKey, PlainScalar, PrintScalar, Delivered, Spaces, LoadLines;
    if entries == [] {
      NothingLoaded(l);
      assert l.items + [] == l.items;
    } else {
      var rest := Dump(entries[1..], 2 * level);
      var stack := l.stack[..level];
      PrintableParts(entries);
      match entries[0].node {
        case Scalar(t) =>
          var first := [Spaces(2 * level) + entries[0].key + ":" + (" " + PrintScalar(t))];
          DeliveredJoin(first, rest);
          OneDelivered(first[0]);
          LoadAppend(l, AllDelivered(first), AllDelivered(rest));
          DeliverScalar(l, level, entries[0].key, t);
          var mid := LoadLines(l, AllDelivered(first));
          DumpLoads(mid, entries[1..], level);
          assert mid.stack[..level] == stack;
          var own := [Item(JoinPath(stack, entries[0].key), t)];
          assert l.items + own + Flatten(entries[1..], stack) == l.items + (own + Flatten(entries[1..], stack));
        case Mapping(inner) =>
          SectionLoads(l, entries[0].key, inner, level);
          var first := [Spaces(2 * level) + entries[0].key + ":" + ""] + Dump(inner, 2 * level + 2);
          DeliveredJoin(first, rest);
          LoadAppend(l, AllDelivered(first), AllDelivered(rest));
          var mid := LoadLines(l, AllDelivered(first));
          DumpLoads(mid, entries[1..], level);
          var own := Flatten(inner, stack + [entries[0].key]);
          assert l.items + own + Flatten(entries[1..], stack) == l.items + (own + Flatten(entries[1..], stack));
      }
    }
  }

  lemma {:induction false} SectionLoads(l: Loader, key: string, inner: seq<Entry>, level: nat)
    requires !l.fault && |l.stack| >= level && PlainKey(key) && Printable(inner)
    ensures var l' := LoadLines(l, AllDelivered([Spaces(2 * level) + key + ":" + ""] + Dump(inner, 2 * level + 2)));
            && !l'.fault && |l'.stack| >= level && l'.stack[..level] == l.stack[..level]
            && l'.items == l.items + Flatten(inner, l.stack[..level] + [key])
    decreases inner, 1
  {
    hide JoinPath, PlainKey, PlainScalar, PrintScalar, Delivered, Spaces, LoadLines, Flatten, Dump, Printable;
    var head, body := [Spaces(2 * level) + key + ":" + ""], Dump(inner, 2 * level + 2);
    DeliveredJoin(head, body);
    OneDelivered(head[0]);
    LoadAppend(l, AllDelivered(head), AllDelivered(body));
    DeliverSection(l, level, key);
    var mid := LoadLines(l, AllDelivered(head));
    assert mid.stack[..level + 1] == l.stack[..level] + [key];
    DumpLoads(mid, inner, level + 1);
    var l' := LoadLines(mid, AllDelivered(body));
    assert l'.stack[..level] == l'.stack[..level + 1][..level] == l.stack[..level];
  }

  lemma NothingLoaded(l: Loader)
    ensures LoadLines(l, AllDelivered([])) == l
  {
  }

  lemma OneDelivered(line: string)
    ensures AllDelivered([line]) == Delivered(line)
  {
    assert [line][1..] == [];
    assert Delivered(line) + [] == Delivered(line);
  }

  lemma PrintableParts(entries: seq<Entry>)
    requires entries != [] && Printable(entries)
    ensures PlainKey(entries[0].key) && Printable(entries[1..])
    ensures match entries[0].node case Scalar(t) => PlainScalar(t) case Mapping(inner) => Printable(inner)
  {
    var rest := entries[1..];
    assert forall i :: 0 <= i < |rest| ==> rest[i] == entries[i + 1];
  }

  // From lines to the file and back.

  lemma {:induction false} ChunkWhole(line: string, rest: string, room: nat)
    requires '\n' !in line && |line| < room
    ensures Chunk(line + "\n" + rest, room) == |line| + 1
  {
    if line != [] {
      assert (line + "\n" + rest)[1..] == line[1..] + "\n" + rest;
      ChunkWhole(line[1..], rest, room - 1);
    }
  }

  lemma {:induction false} ChunkFull(line: string, rest: string)
    requires '\n' !in line
    ensures Chunk(line + rest, |line|) == |line|
  {
    if line != [] {
      assert (line + rest)[1..] == line[1..] + rest;
      ChunkFull(line[1..], rest);
    }
  }

  lemma NoChunks()
    ensures Chunks("") == []
  {
  }

  /** The buffer delivers the lines of the file one by one. */
  lemma {:induction false} ChunksOfFile(lines: seq<string>)
    requires Short(lines) && OneLine(lines)
    ensures Chunks(FileOf(lines)) == AllDelivered(lines)
  {
    hide Chunk, Chunks;
    if lines == [] {
      NoChunks();
    } else {
      var line, rest := lines[0], FileOf(lines[1..]);
      assert FileOf(lines) == line + "\n" + rest;
      ChunksOfFile(lines[1..]);
      if |line| < BUFFER - 1 {
        ShortLine(line, rest);
      } else {
        FullLine(line, rest);
      }
    }
  }

  /** One turn of the read loop. */
  lemma ChunksStep(first: string, rest: string)
    requires first != "" && Chunk(first + rest, BUFFER - 1) == |first|
    ensures Chunks(first + rest) == [first] + Chunks(rest)
  {
    hide Chunk;
    var text := first + rest;
    assert text[..|first|] == first && text[|first|..] == rest;
  }

  /** A line that fits with its newline is read as a whole. */
  lemma ShortLine(line: string, rest: string)
    requires '\n' !in line && |line| < BUFFER - 1
    ensures Chunks(line + "\n" + rest) == [line + "\n"] + Chunks(rest)
  {
    hide Chunk, Chunks;
    ChunkWhole(line, rest, BUFFER - 1);
    ChunksStep(line + "\n", rest);
  }

  /** The newline of a line that just fills the buffer comes by itself. */
  lemma FullLine(line: string, rest: string)
    requires '\n' !in line && |line| == BUFFER - 1
    ensures Chunks(line + "\n" + rest) == [line, "\n"] + Chunks(rest)
  {
    hide Chunk, Chunks;
    ChunkFull(line, "\n" + rest);
    ChunksStep(line, "\n" + rest);
    ShortLine("", rest);
    assert "" + "\n" == "\n";
    assert line + "\n" + rest == line + ("\n" + rest);
    assert [line] + (["\n"] + Chunks(rest)) == [line, "\n"] + Chunks(rest);
  }

  lemma {:induction false} DumpOneLine(entries: seq<Entry>, indent: nat)
    requires Printable(entries)
    ensures OneLine(Dump(entries, indent))
    decreases entries
  {
    hide PrintScalar, PlainKey, PlainScalar;
    if entries != [] {
      PrintableParts(entries);
      DumpOneLine(entries[1..], indent);
      PlainKeyFacts(entries[0].key);
      match entries[0].node {
        case Scalar(t) => ScalarOneLine(t);
        case Mapping(inner) => DumpOneLine(inner, indent + 2);
      }
    }
  }

  lemma {:induction false} ScalarOneLine(t: string)
    requires PlainScalar(t)
    ensures '\n' !in PrintScalar(t)
  {
    if NeedsQuotes(t) {
      EscapeNothing(t);
    }
  }

  predicate Comments(lines: seq<string>)
  {
    Short(lines) && OneLine(lines) && forall i :: 0 <= i < |lines| ==> lines[i] != "" && lines[i][0] == '#'
  }

  lemma {:induction false} CommentsSkipped(l: Loader, lines: seq<string>)
    requires Comments(lines) && !l.fault
    ensures LoadLines(l, AllDelivered(lines)) == l
  {
    if lines != [] {
      forall end | LineEnd(end)
        ensures ParseLine(lines[0] + end) == Skipped
      {
        assert Strip(lines[0] + end, false, false) == "";
      }
      DeliverLine(l, lines[0], Skipped);
      LoadAppend(l, Delivered(lines[0]), AllDelivered(lines[1..]));
      CommentsSkipped(l, lines[1..]);
    }
  }

  /** The file that is deployed: comment lines, then the printed configuration. */
  function Render(comments: seq<string>, entries: seq<Entry>): string
  {
    FileOf(comments + Dump(entries, 0))
  }

  /** Loading the deployed file gives back exactly the scalars that were printed, each under its own path and
    * in order, and the section stack is never written past its end. */
  lemma ConfigRoundTrip(comments: seq<string>, entries: seq<Entry>)
    requires Comments(comments) && Printable(entries) && Short(Dump(entries, 0))
    ensures !Load(Render(comments, entries)).fault && Load(Render(comments, entries)).items == Flatten(entries, [])
  {
    hide Dump, Flatten, Chunks, FileOf, LoadLines, Printable;
    var body := Dump(entries, 0);
    DumpOneLine(entries, 0);
    ChunksOfFile(comments + body);
    DeliveredJoin(comments, body);
    LoadAppend(FRESH, AllDelivered(comments), AllDelivered(body));
    CommentsSkipped(FRESH, comments);
    DumpLoads(FRESH, entries, 0);
    assert FRESH.items + Flatten(entries, []) == Flatten(entries, []);
  }

  // Looking things up.

  /** Cuts a dotted path into its parts. */
  function Split(path: string): (parts: seq<string>)
    ensures parts != []
  {
    var n := Find(path, '.');
    if n == |path| then [path] else [path[..n]] + Split(path[n + 1..])
  }

  function Lookup(entries: seq<Entry>, key: string): Option<Node>
  {
    if entries == [] then None else if entries[0].key == key then Some(entries[0].node) else Lookup(entries[1..], key)
  }

  /** `get_path`: descends part by part. */
  function GetParts(node: Node, parts: seq<string>): Option<Node>
    decreases |parts|
  {
    if parts == [] then Some(node)
    else if node.Scalar? then None
    else
      match Lookup(node.entries, parts[0])
      case None => None
      case Some(inner) => GetParts(inner, parts[1..])
  }

  function GetPath(entries: seq<Entry>, path: string): Option<Node>
  {
    GetParts(Mapping(entries), Split(path))
  }

  predicate DistinctKeys(entries: seq<Entry>)
    decreases entries
  {
    && (forall i, j :: 0 <= i < j < |entries| ==> entries[i].key != entries[j].key)
    && (forall i :: 0 <= i < |entries| && entries[i].node.Mapping? ==> DistinctKeys(entries[i].node.entries))
  }

  predicate PlainStack(stack: seq<string>)
  {
    forall i :: 0 <= i < |stack| ==> PlainKey(stack[i])
  }

  lemma {:induction false} JoinedNonEmpty(stack: seq<string>)
    requires PlainStack(stack)
    ensures Joined(stack) == "" <==> stack == []
  {
    if stack != [] {
      assert stack[|stack| - 1] != "";
    }
  }

  lemma JoinPathIsJoined(stack: seq<string>, key: string)
    ensures JoinPath(stack, key) == Joined(stack + [key])
  {
    var all := stack + [key];
    assert all[..|all| - 1] == stack;
  }

  /** Splitting a joined path gives back its keys. */
  lemma {:induction false} SplitJoined(parts: seq<string>)
    requires PlainStack(parts) && parts != []
    ensures Split(Joined(parts)) == parts
    decreases |parts|
  {
    hide Split, PlainKey;
    if |parts| == 1 {
      assert parts[..0] == [];
      PlainKeyFacts(parts[0]);
      NoDot(parts[0]);
      assert Joined(parts) == parts[0];
      assert parts == [parts[0]];
      SplitOne(parts[0]);
    } else {
      HeadJoined(parts);
      PlainKeyFacts(parts[0]);
      SplitStep(parts[0], Joined(parts[1..]));
      SplitJoined(parts[1..]);
    }
  }

  lemma SplitOne(head: string)
    requires '.' !in head
    ensures Split(head) == [head]
  {
    hide Find;
    NoDot(head);
  }

  lemma SplitStep(head: string, rest: string)
    requires '.' !in head
    ensures Split(head + ['.'] + rest) == [head] + Split(rest)
  {
    hide Find;
    FindAfter(head, '.', rest);
    var path := head + ['.'] + rest;
    assert path[..|head|] == head && path[|head| + 1..] == rest;
  }

  lemma {:induction false} NoDot(s: string)
    requires '.' !in s
    ensures Find(s, '.') == |s|
  {
    if s != [] {
      NoDot(s[1..]);
    }
  }

  lemma {:induction false} HeadJoined(parts: seq<string>)
    requires PlainStack(parts) && |parts| >= 2
    ensures Joined(parts) == parts[0] + "." + Joined(parts[1..])
    decreases |parts|
  {
    var init, last := parts[..|parts| - 1], parts[|parts| - 1];
    assert parts[1..][..|parts| - 2] == init[1..];
    JoinedNonEmpty(init);
    JoinedNonEmpty(init[1..]);
    if |parts| == 2 {
      assert init == [parts[0]] && init[..0] == [];
      assert Joined(init) == parts[0];
      assert init[1..] == [];
    } else {
      HeadJoined(init);
      assert Joined(init) == parts[0] + "." + Joined(init[1..]);
      assert Joined(parts) == Joined(init) + "." + last;
      assert Joined(parts[1..]) == Joined(init[1..]) + "." + last;
    }
  }

  // The same items under their key sequences.

  datatype Keyed = Keyed(keys: seq<string>, value: string)

  function FlattenKeys(entries: seq<Entry>, stack: seq<string>): seq<Keyed>
    decreases entries
  {
    if entries == [] then []
    else
      (match entries[0].node
       case Scalar(text) => [Keyed(stack + [entries[0].key], text)]
       case Mapping(inner) => FlattenKeys(inner, stack + [entries[0].key]))
      + FlattenKeys(entries[1..], stack)
  }

  function Named(items: seq<Keyed>): seq<Item>
  {
    if items == [] then [] else [Item(Joined(items[0].keys), items[0].value)] + Named(items[1..])
  }

  lemma {:induction false} NamedJoin(first: seq<Keyed>, second: seq<Keyed>)
    ensures Named(first + second) == Named(first) + Named(second)
  {
    if first == [] {
      assert first + second == second;
    } else {
      assert (first + second)[1..] == first[1..] + second;
      NamedJoin(first[1..], second);
    }
  }

  lemma {:induction false} FlattenNames(entries: seq<Entry>, stack: seq<string>)
    ensures Flatten(entries, stack) == Named(FlattenKeys(entries, stack))
    decreases entries
  {
    hide JoinPath, Joined;
    if entries != [] {
      FlattenNames(entries[1..], stack);
      match entries[0].node {
        case Scalar(text) =>
          var own := [Keyed(stack + [entries[0].key], text)];
          JoinPathIsJoined(stack, entries[0].key);
          assert own[1..] == [];
          assert Named(own) == [Item(JoinPath(stack, entries[0].key), text)];
          NamedJoin(own, FlattenKeys(entries[1..], stack));
        case Mapping(inner) =>
          FlattenNames(inner, stack + [entries[0].key]);
          NamedJoin(FlattenKeys(inner, stack + [entries[0].key]), FlattenKeys(entries[1..], stack));
      }
    }
  }

  function FindKeys(items: seq<Keyed>, keys: seq<string>): Option<string>
  {
    if items == [] then None else if items[0].keys == keys then Some(items[0].value) else FindKeys(items[1..], keys)
  }

  lemma {:induction false} FindJoin(first: seq<Keyed>, second: seq<Keyed>, keys: seq<string>)
    ensures FindKeys(first + second, keys) == if FindKeys(first, keys).Some? then FindKeys(first, keys)
                                              else FindKeys(second, keys)
  {
    if first == [] {
      assert first + second == second;
    } else {
      assert (first + second)[1..] == first[1..] + second;
      FindJoin(first[1..], second, keys);
    }
  }

  predicate AllPlain(items: seq<Keyed>)
  {
    forall i :: 0 <= i < |items| ==> items[i].keys != [] && PlainStack(items[i].keys)
  }

  lemma {:induction false} FlattenPlain(entries: seq<Entry>, stack: seq<string>)
    requires Printable(entries) && PlainStack(stack)
    ensures AllPlain(FlattenKeys(entries, stack))
    decreases entries
  {
    hide PlainKey, PlainScalar;
    if entries != [] {
      PrintableParts(entries);
      FlattenPlain(entries[1..], stack);
      if entries[0].node.Mapping? {
        FlattenPlain(entries[0].node.entries, stack + [entries[0].key]);
      }
    }
  }

  lemma JoinedOne(part: string)
    ensures Joined([part]) == part
  {
    assert [part][..0] == [];
  }

  lemma CutAtDot(path: string, n: nat)
    requires n < |path| && path[n] == '.'
    ensures path == path[..n] + "." + path[n + 1..]
  {
  }

  lemma PlainTail(stack: seq<string>)
    requires PlainStack(stack) && stack != []
    ensures PlainStack(stack[1..])
  {
    hide PlainKey;
    assert forall i :: 0 <= i < |stack[1..]| ==> stack[1..][i] == stack[i + 1];
  }

  lemma {:induction false} JoinedSplit(path: string)
    requires PlainStack(Split(path))
    ensures Joined(Split(path)) == path
  {
    hide PlainStack, Joined, Find;
    var n := Find(path, '.');
    if n == |path| {
      JoinedOne(path);
    } else {
      var parts, rest := Split(path), Split(path[n + 1..]);
      assert parts[0] == path[..n] && parts[1..] == rest;
      PlainTail(parts);
      JoinedSplit(path[n + 1..]);
      HeadJoined(parts);
      CutAtDot(path, n);
    }
  }

  /** Looking up by path is looking up by the path's parts. */
  lemma {:induction false} FindByPath(items: seq<Keyed>, path: string, default: string)
    requires AllPlain(items)
    ensures GetString(Named(items), path, default)
            == match FindKeys(items, Split(path)) case None => default case Some(value) => value
  {
    hide Split, Joined;
    if items != [] {
      FindByPath(items[1..], path, default);
      if Joined(items[0].keys) == path {
        SplitJoined(items[0].keys);
      }
      if items[0].keys == Split(path) {
        JoinedSplit(path);
      }
    }
  }

  function TextOf(node: Option<Node>): Option<string>
  {
    if node.Some? && node.value.Scalar? then Some(node.value.text) else None
  }

  /** Items below a section whose key differs are not found. */
  lemma {:induction false} NotThere(entries: seq<Entry>, stack: seq<string>, keys: seq<string>)
    requires |keys| <= |stack| || !(stack <= keys) || forall i :: 0 <= i < |entries| ==> entries[i].key != keys[|stack|]
    ensures FindKeys(FlattenKeys(entries, stack), keys) == None
    decreases entries
  {
    if entries != [] {
      var key := entries[0].key;
      NotThere(entries[1..], stack, keys);
      match entries[0].node {
        case Scalar(text) =>
          var own := [Keyed(stack + [key], text)];
          assert own[1..] == [];
          assert FindKeys(own, keys) == None;
          FindJoin(own, FlattenKeys(entries[1..], stack), keys);
        case Mapping(inner) =>
          NotThere(inner, stack + [key], keys);
          FindJoin(FlattenKeys(inner, stack + [key]), FlattenKeys(entries[1..], stack), keys);
      }
    }
  }

  lemma {:induction false} FindFlat(entries: seq<Entry>, stack: seq<string>, parts: seq<string>)
    requires DistinctKeys(entries)
    ensures FindKeys(FlattenKeys(entries, stack), stack + parts) == TextOf(GetParts(Mapping(entries), parts))
    decreases entries
  {
    hide FindKeys, DistinctKeys, FlattenKeys, GetParts;
    var keys := stack + parts;
    if parts == [] || entries == [] {
      NotThere(entries, stack, keys);
      NothingAt(entries, parts);
    } else {
      var key, rest := entries[0].key, entries[1..];
      RestDistinct(entries);
      PartsStep(entries, parts);
      if key == parts[0] {
        OnlyFirst(entries, stack, parts);
        if entries[0].node.Mapping? {
          assert keys == (stack + [key]) + parts[1..];
          FindFlat(entries[0].node.entries, stack + [key], parts[1..]);
        } else {
          ScalarAt(entries[0].node.text, parts);
        }
      } else {
        NotFirst(entries, stack, parts);
        FindFlat(rest, stack, parts);
      }
    }
  }

  lemma NothingAt(entries: seq<Entry>, parts: seq<string>)
    requires parts == [] || entries == []
    ensures TextOf(GetParts(Mapping(entries), parts)) == None
  {
  }

  /** The path goes into the first entry, or past it. */
  lemma PartsStep(entries: seq<Entry>, parts: seq<string>)
    requires entries != [] && parts != []
    ensures GetParts(Mapping(entries), parts)
            == if entries[0].key == parts[0] then GetParts(entries[0].node, parts[1..])
               else GetParts(Mapping(entries[1..]), parts)
  {
  }

  lemma ScalarAt(text: string, parts: seq<string>)
    requires parts != []
    ensures TextOf(GetParts(Scalar(text), parts[1..])) == if parts == [parts[0]] then Some(text) else None
  {
    assert parts[1..] == [] <==> |parts| == 1;
  }

  function FirstItems(entries: seq<Entry>, stack: seq<string>): seq<Keyed>
    requires entries != []
  {
    match entries[0].node
    case Scalar(text) => [Keyed(stack + [entries[0].key], text)]
    case Mapping(inner) => FlattenKeys(inner, stack + [entries[0].key])
  }

  lemma OneItem(item: Keyed, keys: seq<string>)
    ensures FindKeys([item], keys) == if item.keys == keys then Some(item.value) else None
  {
    assert [item][1..] == [];
  }

  /** The first entry has the key: no other entry matters. */
  lemma OnlyFirst(entries: seq<Entry>, stack: seq<string>, parts: seq<string>)
    requires entries != [] && parts != [] && entries[0].key == parts[0]
    requires forall i :: 0 <= i < |entries[1..]| ==> entries[1..][i].key != entries[0].key
    ensures FindKeys(FlattenKeys(entries, stack), stack + parts) == FindKeys(FirstItems(entries, stack), stack + parts)
    ensures entries[0].node.Scalar? ==>
              FindKeys(FirstItems(entries, stack), stack + parts)
              == if parts == [parts[0]] then Some(entries[0].node.text) else None
  {
    hide FindKeys;
    FindJoin(FirstItems(entries, stack), FlattenKeys(entries[1..], stack), stack + parts);
    NotThere(entries[1..], stack, stack + parts);
    if entries[0].node.Scalar? {
      OneItem(FirstItems(entries, stack)[0], stack + parts);
      OneKey(stack, entries[0].key, parts);
    }
  }

  /** The first entry has another key: it does not matter. */
  lemma NotFirst(entries: seq<Entry>, stack: seq<string>, parts: seq<string>)
    requires entries != [] && parts != [] && entries[0].key != parts[0]
    ensures FindKeys(FlattenKeys(entries, stack), stack + parts)
              == FindKeys(FlattenKeys(entries[1..], stack), stack + parts)
  {
    hide FindKeys;
    FindJoin(FirstItems(entries, stack), FlattenKeys(entries[1..], stack), stack + parts);
    match entries[0].node {
      case Scalar(text) =>
        OneItem(FirstItems(entries, stack)[0], stack + parts);
        OneKey(stack, entries[0].key, parts);
      case Mapping(inner) =>
        OtherPrefix(stack, entries[0].key, parts);
        NotThere(inner, stack + [entries[0].key], stack + parts);
    }
  }

  lemma OtherPrefix(stack: seq<string>, key: string, parts: seq<string>)
    requires parts != [] && key != parts[0]
    ensures !(stack + [key] <= stack + parts)
  {
    assert (stack + [key])[|stack|] == key && (stack + parts)[|stack|] == parts[0];
  }

  lemma OneKey(stack: seq<string>, key: string, parts: seq<string>)
    ensures stack + [key] == stack + parts <==> parts == [key]
  {
    if stack + [key] == stack + parts {
      assert (stack + [key])[|stack|..] == [key] && (stack + parts)[|stack|..] == parts;
    }
  }

  lemma RestDistinct(entries: seq<Entry>)
    requires entries != [] && DistinctKeys(entries)
    ensures DistinctKeys(entries[1..]) && forall i :: 0 <= i < |entries[1..]| ==> entries[1..][i].key != entries[0].key
    ensures entries[0].node.Mapping? ==> DistinctKeys(entries[0].node.entries)
  {
    var rest := entries[1..];
    assert forall i :: 0 <= i < |rest| ==> rest[i] == entries[i + 1];
  }

  /** Every lookup in the loaded file, for any path whatever, gives the scalar that the configuration holds at
    * that path, and the default where the configuration holds none. */
  lemma LookupRoundTrip(comments: seq<string>, entries: seq<Entry>, path: string, default: string)
    requires Comments(comments) && Printable(entries) && DistinctKeys(entries) && Short(Dump(entries, 0))
    ensures GetString(Load(Render(comments, entries)).items, path, default)
            == match TextOf(GetPath(entries, path)) case None => default case Some(text) => text
  {
    hide Dump, Load, Render, GetString, Flatten, FlattenKeys, FindKeys, GetParts, Split, Named, DistinctKeys;
    ConfigRoundTrip(comments, entries);
    FlattenNames(entries, []);
    FlattenPlain(entries, []);
    FindByPath(FlattenKeys(entries, []), path, default);
    FindFlat(entries, [], Split(path));
    assert [] + Split(path) == Split(path);
  }
}
