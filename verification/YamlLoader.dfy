/** The configuration parser and printer as they run: scans with moving indices, lists built in loops. */
module YamlLoader {
  import opened Bytes
  import opened Decimals
  import opened Wrappers
  import opened YamlText
  import opened SimpleYaml

  // The scans.

  /** What one character does to the scan: it may toggle a quote, or end the text. */
  function Scan(c: char, inSingle: bool, inDouble: bool): (bool, bool, bool)
  {
    if c == '\'' && !inDouble then (!inSingle, inDouble, false)
    else if c == '"' && !inSingle then (inSingle, !inDouble, false)
    else (inSingle, inDouble, c == '#' && !inSingle && !inDouble)
  }

  lemma StripHead(s: string, inSingle: bool, inDouble: bool)
    requires s != []
    ensures var (single, double, stop) := Scan(s[0], inSingle, inDouble);
            Strip(s, inSingle, inDouble) == if stop then [] else [s[0]] + Strip(s[1..], single, double)
  {
  }

  lemma StripStep(out: string, line: string, i: nat, inSingle: bool, inDouble: bool)
    requires i < |line|
    ensures var (single, double, stop) := Scan(line[i], inSingle, inDouble);
            out + Strip(line[i..], inSingle, inDouble)
              == if stop then out else (out + [line[i]]) + Strip(line[i + 1..], single, double)
  {
    hide Strip, Scan;
    StripHead(line[i..], inSingle, inDouble);
    assert line[i..][0] == line[i] && line[i..][1..] == line[i + 1..];
  }

  method StripComment(line: string) returns (out: string)
    ensures out == Strip(line, false, false)
  {
    hide Strip;
    out := "";
    var inSingle, inDouble := false, false;
    assert line[0..] == line && out + Strip(line, false, false) == Strip(line, false, false);
    for i := 0 to |line|
      invariant Strip(line, false, false) == out + Strip(line[i..], inSingle, inDouble)
    {
      var c := line[i];
      StripStep(out, line, i, inSingle, inDouble);
      if c == '\'' && !inDouble {
        inSingle := !inSingle;
      } else if c == '"' && !inSingle {
        inDouble := !inDouble;
      } else if c == '#' && !inSingle && !inDouble {
        return;
      }
      out := out + [c];
    }
    StripEnd(out, line, inSingle, inDouble);
  }

  lemma StripEnd(out: string, line: string, inSingle: bool, inDouble: bool)
    ensures out + Strip(line[|line|..], inSingle, inDouble) == out
  {
  }

  method TrimInPlace(text: string) returns (value: string)
    ensures value == Trim(text)
  {
    value := text;
    while value != [] && IsSpace(value[0])
      invariant TrimFront(value) == TrimFront(text)
      decreases |value|
    {
      value := value[1..];
    }
    while value != [] && IsSpace(value[|value| - 1])
      invariant TrimBack(value) == Trim(text)
      decreases |value|
    {
      value := value[..|value| - 1];
    }
  }

  method CountLeadingSpaces(line: string) returns (count: nat)
    ensures count == LeadingSpaces(line)
  {
    count := 0;
    while count < |line| && line[count] == ' '
      invariant count <= |line| && LeadingSpaces(line) == count + LeadingSpaces(line[count..])
      decreases |line| - count
    {
      assert line[count..][1..] == line[count + 1..];
      count := count + 1;
    }
  }

  method FindChar(text: string, c: char) returns (pos: nat)
    ensures pos == Find(text, c)
  {
    pos := 0;
    while pos < |text| && text[pos] != c
      invariant pos <= |text| && Find(text, c) == pos + Find(text[pos..], c)
      decreases |text| - pos
    {
      assert text[pos..][1..] == text[pos + 1..];
      pos := pos + 1;
    }
  }

  class Yaml {
    var stack: seq<string>
    var items: seq<Item>
    /** Set where the program would index the stack past its end; nothing is promised from then on. */
    var fault: bool

    function State(): Loader
      reads this
    {
      Loader(stack, items, fault)
    }

    constructor ()
      ensures State() == FRESH
    {
      stack, items, fault := [], [], false;
    }

    /** `fgets`: how much of the text goes into the buffer. */
    static method NextChunk(text: string) returns (n: nat)
      ensures n == Chunk(text, BUFFER - 1)
    {
      n := 0;
      while n < |text| && n < BUFFER - 1
        invariant n <= |text| && n <= BUFFER - 1 && Chunk(text, BUFFER - 1) == n + Chunk(text[n..], BUFFER - 1 - n)
        decreases |text| - n
      {
        assert text[n..][1..] == text[n + 1..];
        n := n + 1;
        if text[n - 1] == '\n' {
          return;
        }
      }
    }

    method LoadFile(text: string)
      requires State() == FRESH
      modifies this
      ensures State() == SimpleYaml.Load(text)
    {
      hide Apply, ParseLine, Chunk;
      var rest := text;
      while rest != [] && !fault
        invariant LoadLines(State(), Chunks(rest)) == SimpleYaml.Load(text)
        decreases |rest|
      {
        var n := NextChunk(rest);
        assert Chunks(rest) == [rest[..n]] + Chunks(rest[n..]);
        assert Chunks(rest)[1..] == Chunks(rest[n..]);
        LoadLine(rest[..n]);
        rest := rest[n..];
      }
    }

    /** The body of the loop in `load`. */
    method LoadLine(line: string)
      requires !fault
      modifies this
      ensures State() == Apply(old(State()), ParseLine(line))
    {
      hide Strip, Trim, Find, LeadingSpaces, Unquote;
      var text := StripComment(line);
      text := TrimInPlace(text);
      if text == [] {
        EmptyLine(line);
        return;
      }
      var indent := CountLeadingSpaces(line);
      indent := indent / 2;
      var pos := FindChar(text, ':');
      if pos == |text| {
        return;
      }
      var key := TrimInPlace(text[..pos]);
      var value := TrimInPlace(text[pos + 1..]);
      if key == [] {
        return;
      }
      if value == [] {
        EnterSection(indent, key);
      } else {
        AddItem(indent, key, Unquote(value));
      }
    }

    method EnterSection(indent: nat, key: string)
      requires !fault
      modifies this
      ensures State() == Apply(old(State()), Section(indent, key))
    {
      if |stack| > indent {
        stack := stack[..indent];
      }
      if |stack| == indent {
        stack := stack + [key];
      } else {
        fault := true;
      }
    }

    method AddItem(indent: nat, key: string, value: string)
      requires !fault
      modifies this
      ensures State() == Apply(old(State()), Value(indent, key, value))
    {
      if |stack| > indent {
        stack := stack[..indent];
      }
      var path := Path(key);
      items := items + [Item(path, value)];
    }

    /** `join_path`. */
    method Path(key: string) returns (path: string)
      ensures path == JoinPath(stack, key)
    {
      path := "";
      for i := 0 to |stack|
        invariant path == Joined(stack[..i])
      {
        assert stack[..i + 1][..i] == stack[..i];
        if path != "" {
          path := path + ".";
        }
        path := path + stack[i];
      }
      assert stack[..|stack|] == stack;
      if path != "" {
        path := path + ".";
      }
      path := path + key;
    }

    method Get(path: string, default: string) returns (value: string)
      ensures value == GetString(items, path, default)
    {
      for i := 0 to |items|
        invariant GetString(items, path, default) == GetString(items[i..], path, default)
      {
        assert items[i..][1..] == items[i + 1..];
        if items[i].path == path {
          return items[i].value;
        }
      }
      assert items[|items|..] == [];
      return default;
    }
  }

  lemma EmptyLine(line: string)
    requires Trim(Strip(line, false, false)) == []
    ensures ParseLine(line) == Skipped
  {
  }

  /** The lines of one entry. */
  function EntryLines(e: Entry, indent: nat): seq<string>
  {
    match e.node
    case Scalar(text) => [Spaces(indent) + e.key + ":" + (" " + PrintScalar(text))]
    case Mapping(inner) => [Spaces(indent) + e.key + ":" + ""] + Dump(inner, indent + 2)
  }

  lemma DumpStep(lines: seq<string>, entries: seq<Entry>, i: nat, indent: nat)
    requires i < |entries|
    ensures lines + Dump(entries[i..], indent)
              == (lines + EntryLines(entries[i], indent)) + Dump(entries[i + 1..], indent)
  {
    hide PrintScalar, Spaces;
    assert entries[i..][0] == entries[i] && entries[i..][1..] == entries[i + 1..];
    assert Dump(entries[i..], indent) == EntryLines(entries[i], indent) + Dump(entries[i + 1..], indent);
  }

  lemma DumpEnds(lines: seq<string>, entries: seq<Entry>, indent: nat)
    ensures entries[0..] == entries && lines + Dump(entries[|entries|..], indent) == lines
  {
  }

  /** `dump_yaml`: the list of lines, built in a loop that calls itself for nested mappings. */
  method DumpYaml(entries: seq<Entry>, indent: nat) returns (lines: seq<string>)
    ensures lines == Dump(entries, indent)
    decreases entries
  {
    hide Dump, PrintScalar, Spaces;
    lines := [];
    DumpEnds(lines, entries, indent);
    assert lines + Dump(entries, indent) == Dump(entries, indent);
    for i := 0 to |entries|
      invariant Dump(entries, indent) == lines + Dump(entries[i..], indent)
    {
      DumpStep(lines, entries, i, indent);
      match entries[i].node {
        case Scalar(text) =>
          lines := lines + [Spaces(indent) + entries[i].key + ":" + (" " + PrintScalar(text))];
        case Mapping(inner) =>
          var more := DumpYaml(inner, indent + 2);
          lines := lines + ([Spaces(indent) + entries[i].key + ":" + ""] + more);
      }
    }
    DumpEnds(lines, entries, indent);
  }

  // Typed values.

  function BoolText(b: bool): string
  {
    if b then "true" else "false"
  }

  /** `get_bool`. */
  function GetBool(items: seq<Item>, path: string, default: bool): bool
  {
    var value := GetString(items, path, BoolText(default));
    value == "true" || value == "1" || value == "yes"
  }

  /** A printed boolean, and only `true`, `1` and `yes` besides, reads as it was. */
  lemma BoolRoundTrip(comments: seq<string>, entries: seq<Entry>, path: string, b: bool, default: bool)
    requires Comments(comments) && Printable(entries) && DistinctKeys(entries) && Short(Dump(entries, 0))
    requires GetPath(entries, path) == Some(Scalar(BoolText(b)))
    ensures GetBool(Load(Render(comments, entries)).items, path, default) == b
  {
    hide Load, Render, GetPath, Dump, DistinctKeys, Printable, GetString;
    LookupRoundTrip(comments, entries, path, BoolText(default));
  }

  /** `strtoull` in base ten: white space and a sign may lead; too large a number saturates. */
  function Strtoull(s: string): nat
  {
    var t := TrimFront(s);
    var signed := t != "" && (t[0] == '-' || t[0] == '+');
    var value := ParseDigits(if signed then t[1..] else t, 0);
    if value >= U64 then U64 - 1 else if signed && t[0] == '-' then (U64 - value) % U64 else value
  }

  /** `get_u64`: an empty value counts as missing. */
  function GetU64(items: seq<Item>, path: string, default: nat): nat
  {
    var value := GetString(items, path, "");
    if value == "" then default else Strtoull(value)
  }

  /** `get_u32`: only the low 32 bits are kept. */
  function GetU32(items: seq<Item>, path: string, default: nat): nat
  {
    var value := GetString(items, path, "");
    if value == "" then default else Strtoull(value) % U32
  }

  lemma DecimalValue(n: nat)
    ensures Decimal(n) != "" && Strtoull(Decimal(n)) == if n < U64 then n else U64 - 1
  {
    hide ParseDigits, Decimal;
    DecimalParses(n);
    assert IsDigit(Decimal(n)[0]);
    assert TrimFront(Decimal(n)) == Decimal(n);
  }

  /** A printed number reads as it was exactly when it fits the width it is read with; a larger one is cut to its low
    * 32 bits, or from 2^64 on to the largest number of 64 bits first. */
  lemma NumberRoundTrip(comments: seq<string>, entries: seq<Entry>, path: string, n: nat, default: nat)
    requires Comments(comments) && Printable(entries) && DistinctKeys(entries) && Short(Dump(entries, 0))
    requires GetPath(entries, path) == Some(Scalar(Decimal(n)))
    ensures var items, most := Load(Render(comments, entries)).items, if n < U64 then n else U64 - 1;
            && GetU64(items, path, default) == most && GetU32(items, path, default) == most % U32
            && (GetU64(items, path, default) == n <==> n < U64) && (GetU32(items, path, default) == n <==> n < U32)
  {
    hide Load, Render, GetPath, Dump, DistinctKeys, Printable, GetString, Decimal, Strtoull;
    LookupRoundTrip(comments, entries, path, "");
    DecimalValue(n);
  }

  /** Numbers and booleans are always admissible: they are printed bare and come back as they are. */
  lemma DecimalPlain(n: nat)
    ensures PlainScalar(Decimal(n)) && PrintScalar(Decimal(n)) == Decimal(n)
  {
    DecimalParses(n);
    var s := Decimal(n);
    assert IsDigit(s[0]) && IsDigit(s[|s| - 1]);
  }
}
