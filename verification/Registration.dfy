/** What a collector registers about itself, and how the agent's discovery reads the address out of it. */
module Registration {
  import opened Wrappers

  function EscapeChar(c: char): string
  {
    if c == '\\' then "\\\\"
    else if c == '"' then "\\\""
    else if c == '\n' then "\\n"
    else if c == '\r' then "\\r"
    else if c == '\t' then "\\t"
    else [c]
  }

  /** `json_escape`. */
  function Escape(s: string): string
  {
    if s == [] then [] else EscapeChar(s[0]) + Escape(s[1..])
  }

  lemma EscapeStep(out: string, value: string, i: nat)
    requires i < |value|
    ensures out + Escape(value[i..]) == (out + EscapeChar(value[i])) + Escape(value[i + 1..])
  {
    hide EscapeChar;
    assert value[i..][0] == value[i] && value[i..][1..] == value[i + 1..];
  }

  lemma EscapeEnds(out: string, value: string)
    ensures value[0..] == value && out + Escape(value[|value|..]) == out
  {
  }

  method JsonEscape(value: string) returns (out: string)
    ensures out == Escape(value)
  {
    hide Escape, EscapeChar;
    out := "";
    EscapeEnds(out, value);
    assert out + Escape(value) == Escape(value);
    for i := 0 to |value|
      invariant Escape(value) == out + Escape(value[i..])
    {
      EscapeStep(out, value, i);
      out := out + EscapeChar(value[i]);
    }
    EscapeEnds(out, value);
  }

  const HEAD := "{\"collector_id\":\""
  const MIDDLE := "\",\"address\":\""

  /** `collector_value`; `more` is what follows the address: host, port, protocol, start time. */
  function Value(id: string, address: string, more: string): string
  {
    HEAD + Escape(id) + MIDDLE + (Escape(address) + "\"" + more)
  }

  // The reader.

  predicate Occurs(s: string, pattern: string, at: nat)
  {
    at + |pattern| <= |s| && s[at..at + |pattern|] == pattern
  }

  /** The first place at or after `from` where `pattern` occurs. */
  function FindText(s: string, pattern: string, from: nat): (r: Option<nat>)
    ensures r.Some? ==> from <= r.value && Occurs(s, pattern, r.value)
    decreases |s| - from
  {
    if from + |pattern| > |s| then None
    else if s[from..from + |pattern|] == pattern then Some(from)
    else FindText(s, pattern, from + 1)
  }

  function FindFrom(s: string, c: char, from: nat): (r: Option<nat>)
    ensures r.Some? ==> from <= r.value < |s| && s[r.value] == c
    decreases |s| - from
  {
    if from >= |s| then None else if s[from] == c then Some(from) else FindFrom(s, c, from + 1)
  }

  /** The text up to the closing quote, each backslash replaced by the character after it. */
  function Unescape(s: string): string
  {
    if s == [] || s[0] == '"' then []
    else if s[0] == '\\' && |s| > 1 then [s[1]] + Unescape(s[2..])
    else [s[0]] + Unescape(s[1..])
  }

  /** `json_string_value`: empty if anything is missing. */
  function StringValue(json: string, key: string): string
  {
    var pattern := "\"" + key + "\"";
    match FindText(json, pattern, 0)
    case None => ""
    case Some(at) =>
      match FindFrom(json, ':', at + |pattern|)
      case None => ""
      case Some(colon) =>
        match FindFrom(json, '"', colon)
        case None => ""
        case Some(quote) => Unescape(json[quote + 1..])
  }

  lemma {:induction false} FirstOccurrence(s: string, pattern: string, from: nat, at: nat)
    requires from <= at && Occurs(s, pattern, at) && forall k :: from <= k < at ==> !Occurs(s, pattern, k)
    ensures FindText(s, pattern, from) == Some(at)
    decreases at - from
  {
    if from < at {
      assert !Occurs(s, pattern, from);
      FirstOccurrence(s, pattern, from + 1, at);
    }
  }

  lemma {:induction false} SomeOccurrence(s: string, pattern: string, from: nat, at: nat)
    requires from <= at && Occurs(s, pattern, at)
    ensures FindText(s, pattern, from).Some? && FindText(s, pattern, from).value <= at
    decreases at - from
  {
    if from < at && !Occurs(s, pattern, from) {
      SomeOccurrence(s, pattern, from + 1, at);
    }
  }

  lemma {:induction false} FirstFrom(s: string, c: char, from: nat, at: nat)
    requires from <= at < |s| && s[at] == c && forall k :: from <= k < at ==> s[k] != c
    ensures FindFrom(s, c, from) == Some(at)
    decreases at - from
  {
    if from < at {
      FirstFrom(s, c, from + 1, at);
    }
  }

  method JsonStringValue(json: string, key: string) returns (value: string)
    ensures value == StringValue(json, key)
  {
    hide FindText, FindFrom, Unescape;
    var pattern := "\"" + key + "\"";
    var at := FindText(json, pattern, 0);
    if at.None? {
      return "";
    }
    var colon := FindFrom(json, ':', at.value + |pattern|);
    if colon.None? {
      return "";
    }
    var quote := FindFrom(json, '"', colon.value);
    if quote.None? {
      return "";
    }
    value := ScanString(json, quote.value + 1);
  }

  /** The scanner with its moving index. */
  method ScanString(json: string, start: nat) returns (value: string)
    requires start <= |json|
    ensures value == Unescape(json[start..])
  {
    hide Unescape;
    value := "";
    var pos := start;
    assert value + Unescape(json[start..]) == Unescape(json[start..]);
    while pos < |json| && json[pos] != '"'
      invariant pos <= |json| && Unescape(json[start..]) == value + Unescape(json[pos..])
      decreases |json| - pos
    {
      UnescapeStep(json, pos, value);
      if json[pos] == '\\' && pos + 1 < |json| {
        value := value + [json[pos + 1]];
        pos := pos + 2;
      } else {
        value := value + [json[pos]];
        pos := pos + 1;
      }
    }
    UnescapeEnd(json, pos);
    assert value + [] == value;
  }

  lemma UnescapeEnd(json: string, pos: nat)
    requires pos <= |json| && (pos < |json| ==> json[pos] == '"')
    ensures Unescape(json[pos..]) == []
  {
  }

  lemma UnescapeStep(json: string, pos: nat, value: string)
    requires pos < |json| && json[pos] != '"'
    ensures var two := json[pos] == '\\' && pos + 1 < |json|;
            value + Unescape(json[pos..])
              == if two then (value + [json[pos + 1]]) + Unescape(json[pos + 2..])
                 else (value + [json[pos]]) + Unescape(json[pos + 1..])
  {
    var s := json[pos..];
    assert s[1..] == json[pos + 1..];
    if |s| > 1 {
      assert s[2..] == json[pos + 2..] && s[1] == json[pos + 1];
    }
  }

  // The round trip.

  /** A control character loses its meaning: the reader keeps the letter after the backslash. */
  function LossyChar(c: char): char
  {
    if c == '\n' then 'n' else if c == '\r' then 'r' else if c == '\t' then 't' else c
  }

  function Lossy(s: string): (r: string)
    ensures |r| == |s| && forall i :: 0 <= i < |s| ==> r[i] == LossyChar(s[i])
  {
    if s == [] then [] else [LossyChar(s[0])] + Lossy(s[1..])
  }

  lemma UnescapeOne(c: char, rest: string)
    ensures Unescape(EscapeChar(c) + rest) == [LossyChar(c)] + Unescape(rest)
  {
    var text := EscapeChar(c) + rest;
    if |EscapeChar(c)| == 2 {
      assert text[2..] == rest && text[0] == '\\';
    } else {
      assert text[1..] == rest;
    }
  }

  lemma {:induction false} UnescapeEscape(s: string, more: string)
    ensures Unescape(Escape(s) + ("\"" + more)) == Lossy(s)
  {
    if s == [] {
      assert Escape(s) + ("\"" + more) == "\"" + more;
    } else {
      hide Unescape, EscapeChar, LossyChar;
      UnescapeEscape(s[1..], more);
      UnescapeOne(s[0], Escape(s[1..]) + ("\"" + more));
      assert Escape(s) + ("\"" + more) == EscapeChar(s[0]) + (Escape(s[1..]) + ("\"" + more));
    }
  }

  /** In escaped text every double quote follows a backslash. */
  lemma {:induction false} QuotesEscaped(s: string)
    ensures forall i :: 0 <= i < |Escape(s)| && Escape(s)[i] == '"' ==> i > 0 && Escape(s)[i - 1] == '\\'
  {
    if s != [] {
      QuotesEscaped(s[1..]);
      var first, rest := EscapeChar(s[0]), Escape(s[1..]);
      var e := Escape(s);
      assert e == first + rest;
      forall i | 0 <= i < |e| && e[i] == '"'
        ensures i > 0 && e[i - 1] == '\\'
      {
        if i >= |first| {
          assert rest[i - |first|] == '"';
          assert e[i - 1] == rest[i - |first| - 1];
        }
      }
    }
  }

  const PATTERN := "\"address\""

  lemma PatternFacts()
    ensures |PATTERN| == 9 && PATTERN[0] == '"' && PATTERN[7] == 's' && PATTERN[8] == '"'
    ensures forall i :: 0 <= i < 9 ==> PATTERN[i] != ','
    ensures |MIDDLE| == 13 && MIDDLE[0] == '"' && MIDDLE[1] == ',' && MIDDLE[2..11] == PATTERN && MIDDLE[11] == ':'
            && MIDDLE[12] == '"'
    ensures |HEAD| == 17 && forall i :: 0 < i < 17 && HEAD[i] == '"' ==> HEAD[i - 1] != 's'
    ensures HEAD[0] != '"'
  {
  }

  function Text(e: string, after: string): string
  {
    HEAD + e + MIDDLE + after
  }

  /** Where the identifier's closing quote is. */
  function Close(e: string): nat
  {
    |HEAD| + |e|
  }

  predicate QuotesFollow(e: string)
  {
    forall i :: 0 <= i < |e| && e[i] == '"' ==> i > 0 && e[i - 1] == '\\'
  }

  lemma TextAt(e: string, after: string, q: nat)
    requires q < |Text(e, after)|
    ensures q < |HEAD| ==> Text(e, after)[q] == HEAD[q]
    ensures |HEAD| <= q < Close(e) ==> Text(e, after)[q] == e[q - |HEAD|]
    ensures Close(e) <= q < Close(e) + |MIDDLE| ==> Text(e, after)[q] == MIDDLE[q - Close(e)]
    ensures Close(e) + |MIDDLE| <= q ==> Text(e, after)[q] == after[q - Close(e) - |MIDDLE|]
  {
  }

  /** Up to the proper place of the pattern, only the identifier's closing quote can follow an `s`. */
  lemma OtherQuotes(e: string, after: string, q: nat)
    requires QuotesFollow(e) && 0 < q <= Close(e) + 2 && q != Close(e)
    ensures q < |Text(e, after)| && (Text(e, after)[q] != '"' || Text(e, after)[q - 1] != 's')
  {
    PatternFacts();
    TextAt(e, after, q);
    TextAt(e, after, q - 1);
  }

  /** The pattern occurs before its proper place at most at the very end of the identifier, where the quote
    * that closes the identifier closes the pattern too. */
  lemma NotElsewhere(e: string, after: string, at: nat)
    requires QuotesFollow(e) && at < Close(e) + 2 && at + 8 != Close(e)
    ensures !Occurs(Text(e, after), PATTERN, at)
  {
    PatternFacts();
    var text := Text(e, after);
    if at + 8 <= Close(e) + 2 {
      OtherQuotes(e, after, at + 8);
      if at + 9 <= |text| {
        assert text[at..at + 9][8] == text[at + 8] && text[at..at + 9][7] == text[at + 7];
      }
    } else if at + 9 <= |text| {
      TextAt(e, after, Close(e) + 1);
      assert text[at..at + 9][Close(e) + 1 - at] == ',';
    }
  }

  lemma ProperPlace(e: string, after: string)
    ensures Occurs(Text(e, after), PATTERN, Close(e) + 2)
  {
    PatternFacts();
    var text := Text(e, after);
    assert text[Close(e)..Close(e) + 13] == MIDDLE;
    assert text[Close(e) + 2..Close(e) + 11] == MIDDLE[2..11];
  }

  /** Either way the reader arrives at the quote that opens the address. */
  lemma FindsAddress(e: string, after: string)
    requires QuotesFollow(e)
    ensures var text := Text(e, after);
            FindText(text, PATTERN, 0).Some?
            && FindFrom(text, ':', FindText(text, PATTERN, 0).value + 9) == Some(Close(e) + 11)
            && FindFrom(text, '"', Close(e) + 11) == Some(Close(e) + 12) && text[Close(e) + 13..] == after
  {
    hide FindText, FindFrom, Occurs;
    var text := Text(e, after);
    ProperPlace(e, after);
    SomeOccurrence(text, PATTERN, 0, Close(e) + 2);
    var at := FindText(text, PATTERN, 0).value;
    if at < Close(e) + 2 && at + 8 != Close(e) {
      NotElsewhere(e, after, at);
    }
    PatternFacts();
    forall k | at + 9 <= k < Close(e) + 11
      ensures text[k] != ':'
    {
      TextAt(e, after, k);
      MiddleQuiet(k - Close(e));
    }
    TextAt(e, after, Close(e) + 11);
    TextAt(e, after, Close(e) + 12);
    FirstFrom(text, ':', at + 9, Close(e) + 11);
    FirstFrom(text, '"', Close(e) + 11, Close(e) + 12);
  }

  lemma MiddleQuiet(k: int)
    requires 0 <= k < 11
    ensures MIDDLE[k] != ':'
  {
  }

  predicate NoControls(s: string)
  {
    '\n' !in s && '\r' !in s && '\t' !in s
  }

  lemma PatternIs()
    ensures "\"" + "address" + "\"" == PATTERN
  {
  }

  lemma ReadsAddress(e: string, after: string)
    requires QuotesFollow(e)
    ensures StringValue(Text(e, after), "address") == Unescape(after)
  {
    hide FindText, FindFrom, Unescape, Text, QuotesFollow;
    PatternIs();
    FindsAddress(e, after);
    assert |PATTERN| == 9;
  }

  /** For every identifier, whatever it contains, discovery reads from a registered value the address in which
    * line feeds, returns and tabs have become letters. It is the address if and only if it has none of them. */
  lemma AddressRoundTrip(id: string, address: string, more: string)
    ensures StringValue(Value(id, address, more), "address") == Lossy(address)
    ensures StringValue(Value(id, address, more), "address") == address <==> NoControls(address)
  {
    hide StringValue, Unescape, Escape, Lossy, NoControls;
    var e, after := Escape(id), Escape(address) + "\"" + more;
    QuotesEscaped(id);
    ReadsAddress(e, after);
    assert after == Escape(address) + ("\"" + more);
    UnescapeEscape(address, more);
    LossyExact(address);
  }

  lemma LossyExact(s: string)
    ensures Lossy(s) == s <==> NoControls(s)
  {
    if NoControls(s) {
      assert forall i :: 0 <= i < |s| ==> LossyChar(s[i]) == s[i];
    } else {
      var i :| 0 <= i < |s| && (s[i] == '\n' || s[i] == '\r' || s[i] == '\t');
      assert Lossy(s)[i] != s[i];
    }
  }

  lemma LossyFeed()
    ensures Lossy("host\n:1") == "hostn:1"
  {
  }

  /** A line feed in an address comes back as the letter of its escape. */
  lemma LineFeedLost(id: string, more: string)
    ensures StringValue(Value(id, "host\n:1", more), "address") == "hostn:1"
  {
    hide StringValue, Value, Lossy;
    AddressRoundTrip(id, "host\n:1", more);
    LossyFeed();
  }
}
