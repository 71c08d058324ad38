/** The text handling of the configuration printer and of the parser that reads its output. */
module YamlText {
  /** `isspace` in the C locale. */
  predicate IsSpace(c: char)
  {
    c == ' ' || ('\t' <= c <= '\r')
  }

  function TrimFront(s: string): (r: string)
    ensures |r| <= |s|
  {
    if s != [] && IsSpace(s[0]) then TrimFront(s[1..]) else s
  }

  function TrimBack(s: string): (r: string)
    ensures |r| <= |s|
  {
    if s != [] && IsSpace(s[|s| - 1]) then TrimBack(s[..|s| - 1]) else s
  }

  function Trim(s: string): string
  {
    TrimBack(TrimFront(s))
  }

  /** The text up to a `#` outside quotes; the flags say which quotes are open. */
  function Strip(s: string, inSingle: bool, inDouble: bool): (r: string)
    ensures r <= s
  {
    if s == [] then []
    else if s[0] == '\'' && !inDouble then [s[0]] + Strip(s[1..], !inSingle, inDouble)
    else if s[0] == '"' && !inSingle then [s[0]] + Strip(s[1..], inSingle, !inDouble)
    else if s[0] == '#' && !inSingle && !inDouble then []
    else [s[0]] + Strip(s[1..], inSingle, inDouble)
  }

  function Unquote(s: string): string
  {
    if |s| >= 2 && ((s[0] == '"' && s[|s| - 1] == '"') || (s[0] == '\'' && s[|s| - 1] == '\'')) then s[1..|s| - 1]
    else s
  }

  function LeadingSpaces(s: string): (n: nat)
    ensures n <= |s|
  {
    if s != [] && s[0] == ' ' then 1 + LeadingSpaces(s[1..]) else 0
  }

  /** The first place of `c`, or the length. */
  function Find(s: string, c: char): (n: nat)
    ensures n <= |s| && (n < |s| ==> s[n] == c)
  {
    if s == [] || s[0] == c then 0 else 1 + Find(s[1..], c)
  }

  function Spaces(n: nat): (s: string)
    ensures |s| == n && forall i :: 0 <= i < n ==> s[i] == ' '
  {
    seq(n, i => ' ')
  }

  // Printing scalars.

  predicate Special(c: char)
  {
    c == ':' || c == '#' || c == ' ' || c == '\t'
  }

  predicate NeedsQuotes(t: string)
  {
    t == "" || exists i :: 0 <= i < |t| && Special(t[i])
  }

  /** Every double quote gets a backslash. */
  function Escape(t: string): string
  {
    if t == [] then [] else (if t[0] == '"' then "\\\"" else [t[0]]) + Escape(t[1..])
  }

  function PrintScalar(t: string): (p: string)
    ensures p != []
  {
    if NeedsQuotes(t) then "\"" + Escape(t) + "\"" else t
  }

  // What the text functions do with printed lines.

  predicate Edged(s: string)
  {
    s != [] && !IsSpace(s[0]) && !IsSpace(s[|s| - 1])
  }

  predicate Blank(s: string)
  {
    forall i :: 0 <= i < |s| ==> IsSpace(s[i])
  }

  lemma {:induction false} TrimFrontBlank(before: string, rest: string)
    requires Blank(before) && (rest == [] || !IsSpace(rest[0]))
    ensures TrimFront(before + rest) == rest
  {
    if before == [] {
      assert before + rest == rest;
    } else {
      assert (before + rest)[1..] == before[1..] + rest;
      TrimFrontBlank(before[1..], rest);
    }
  }

  lemma {:induction false} TrimBackBlank(rest: string, after: string)
    requires Blank(after) && (rest == [] || !IsSpace(rest[|rest| - 1]))
    ensures TrimBack(rest + after) == rest
  {
    if after == [] {
      assert rest + after == rest;
    } else {
      assert (rest + after)[..|rest + after| - 1] == rest + after[..|after| - 1];
      TrimBackBlank(rest, after[..|after| - 1]);
    }
  }

  lemma TrimEdged(before: string, mid: string, after: string)
    requires Blank(before) && Edged(mid) && Blank(after)
    ensures Trim(before + mid + after) == mid
  {
    assert before + mid + after == before + (mid + after);
    TrimFrontBlank(before, mid + after);
    TrimBackBlank(mid, after);
  }

  lemma {:induction false} TrimBlank(s: string)
    requires Blank(s)
    ensures Trim(s) == []
  {
    TrimFrontBlank(s, []);
    assert s + [] == s;
  }

  /** Text without quotes and hashes passes the comment scan as it is. */
  predicate Quiet(s: string)
  {
    forall i :: 0 <= i < |s| ==> s[i] != '\'' && s[i] != '"' && s[i] != '#'
  }

  lemma {:induction false} StripQuiet(s: string, rest: string, inSingle: bool, inDouble: bool)
    requires Quiet(s)
    ensures Strip(s + rest, inSingle, inDouble) == s + Strip(rest, inSingle, inDouble)
  {
    if s == [] {
      assert s + rest == rest;
    } else {
      assert (s + rest)[1..] == s[1..] + rest;
      StripQuiet(s[1..], rest, inSingle, inDouble);
    }
  }

  lemma {:induction false} StripNoHash(s: string, inSingle: bool, inDouble: bool)
    requires '#' !in s
    ensures Strip(s, inSingle, inDouble) == s
  {
    if s != [] {
      forall a: bool, b: bool
        ensures Strip(s[1..], a, b) == s[1..]
      {
        StripNoHash(s[1..], a, b);
      }
      assert s == [s[0]] + s[1..];
    }
  }

  /** Inside double quotes everything is kept up to the closing one. */
  lemma {:induction false} StripInside(t: string, rest: string)
    requires '"' !in t
    ensures Strip(t + ("\"" + rest), false, true) == t + "\"" + Strip(rest, false, false)
  {
    if t == [] {
      assert t + ("\"" + rest) == "\"" + rest;
      assert ("\"" + rest)[1..] == rest;
      assert t + "\"" == "\"";
    } else {
      var all := t + ("\"" + rest);
      assert all[1..] == t[1..] + ("\"" + rest);
      StripInside(t[1..], rest);
      assert [t[0]] + (t[1..] + "\"" + Strip(rest, false, false)) == t + "\"" + Strip(rest, false, false);
    }
  }

  lemma {:induction false} EscapeNothing(t: string)
    requires '"' !in t
    ensures Escape(t) == t
  {
    if t != [] {
      EscapeNothing(t[1..]);
    }
  }

  lemma {:induction false} FindAfter(s: string, c: char, rest: string)
    requires c !in s
    ensures Find(s + [c] + rest, c) == |s|
  {
    if s == [] {
      assert s + [c] + rest == [c] + rest;
    } else {
      assert (s + [c] + rest)[1..] == s[1..] + [c] + rest;
      FindAfter(s[1..], c, rest);
    }
  }

  lemma {:induction false} CountSpaces(n: nat, rest: string)
    requires rest == [] || rest[0] != ' '
    ensures LeadingSpaces(Spaces(n) + rest) == n
  {
    if n == 0 {
      assert Spaces(n) + rest == rest;
    } else {
      assert (Spaces(n) + rest)[1..] == Spaces(n - 1) + rest;
      CountSpaces(n - 1, rest);
    }
  }

  // The scalar round trip.

  /** What the parser makes of a printed scalar, on a line that ends in a newline. */
  function ReadBack(printed: string): string
  {
    Unquote(Trim(Strip(printed + "\n", false, false)))
  }

  /** The scalars that survive: printed in quotes they must not contain a double quote; printed bare they
    * must not begin or end with white space, nor look quoted themselves. */
  predicate Admissible(t: string)
  {
    if NeedsQuotes(t) then '"' !in t else Edged(t) && Unquote(t) == t
  }

  lemma UnquoteShortens(s: string)
    ensures Unquote(s) == s || |Unquote(s)| == |s| - 2
  {
  }

  lemma BareQuiet(t: string)
    requires !NeedsQuotes(t)
    ensures t != "" && '#' !in t && ':' !in t && ' ' !in t && '\t' !in t
  {
  }

  /** A line is read with its newline, or without it when the buffer is just full. */
  predicate LineEnd(end: string)
  {
    end == "\n" || end == ""
  }

  lemma PrintedQuoted(t: string, end: string)
    requires NeedsQuotes(t) && '"' !in t && LineEnd(end)
    ensures PrintScalar(t) == "\"" + t + "\"" && Edged(PrintScalar(t)) && Unquote(PrintScalar(t)) == t
    ensures Strip(PrintScalar(t) + end, false, false) == PrintScalar(t) + end
  {
    EscapeNothing(t);
    var p := PrintScalar(t);
    StripInside(t, end);
    var line := p + end;
    assert line == "\"" + (t + ("\"" + end));
    assert line[1..] == t + ("\"" + end);
    assert Strip(end, false, false) == end by { StripNoHash(end, false, false); }
    assert "\"" + (t + "\"" + end) == line;
  }

  lemma AdmissibleReadsBack(t: string, end: string)
    requires Admissible(t) && LineEnd(end)
    ensures Strip(PrintScalar(t) + end, false, false) == PrintScalar(t) + end
    ensures Edged(PrintScalar(t)) && Unquote(PrintScalar(t)) == t && (end == "\n" ==> ReadBack(PrintScalar(t)) == t)
  {
    if NeedsQuotes(t) {
      PrintedQuoted(t, end);
    } else {
      BareQuiet(t);
      StripNoHash(t + end, false, false);
    }
    TrimEdged("", PrintScalar(t), end);
    assert "" + PrintScalar(t) + end == PrintScalar(t) + end;
  }

  lemma {:induction false} TrimBackPrefix(s: string)
    ensures TrimBack(s) <= s
  {
    if s != [] && IsSpace(s[|s| - 1]) {
      TrimBackPrefix(s[..|s| - 1]);
    }
  }

  /** A bare scalar that is not admissible comes back shorter. */
  lemma BareLoses(t: string)
    requires !NeedsQuotes(t) && ReadBack(t) == t
    ensures Edged(t) && Unquote(t) == t
  {
    BareQuiet(t);
    StripNoHash(t + "\n", false, false);
    var v := Trim(t + "\n");
    UnquoteShortens(v);
    TrimBackPrefix(TrimFront(t + "\n"));
    if IsSpace(t[0]) {
      FrontShortens(t + "\n");
      EndsInSpace(t + "\n");
    } else {
      assert TrimFront(t + "\n") == t + "\n";
      assert TrimBack(t + "\n") == TrimBack(t) by { assert (t + "\n")[..|t|] == t; }
      TrimBackPrefix(t);
    }
  }

  lemma FrontShortens(s: string)
    requires s != [] && IsSpace(s[0])
    ensures |TrimFront(s)| < |s|
  {
  }

  /** If the whole text is white space nothing is left; otherwise the newline at its end goes too. */
  lemma EndsInSpace(s: string)
    requires |s| >= 2 && IsSpace(s[0]) && IsSpace(s[|s| - 1])
    ensures |Trim(s)| < |s| - 1
  {
    var f := TrimFront(s);
    FrontSuffix(s);
    if f != [] {
      assert f[|f| - 1] == s[|s| - 1];
      assert |TrimBack(f)| < |f|;
    }
  }

  lemma {:induction false} FrontSuffix(s: string)
    ensures TrimFront(s) == s[|s| - |TrimFront(s)|..]
  {
    if s != [] && IsSpace(s[0]) {
      FrontSuffix(s[1..]);
    }
  }

  /** Each character of the escaped text is a backslash or comes from no later in the text. */
  lemma {:induction false} EscapeSource(t: string, m: nat)
    requires m < |Escape(t)|
    ensures Escape(t)[m] == '\\' || exists j :: 0 <= j < |t| && j <= m && t[j] == Escape(t)[m]
  {
    var head := if t[0] == '"' then "\\\"" else [t[0]];
    assert Escape(t) == head + Escape(t[1..]);
    if m < |head| {
      assert Escape(t)[m] == head[m];
    } else {
      EscapeSource(t[1..], m - |head|);
      assert Escape(t)[m] == Escape(t[1..])[m - |head|];
      if Escape(t)[m] != '\\' {
        var j :| 0 <= j < |t[1..]| && j <= m - |head| && t[1..][j] == Escape(t)[m];
        assert t[j + 1] == Escape(t)[m];
      }
    }
  }

  /** A text that begins with its own quoted form consists of quotes and backslashes only. */
  lemma {:induction false} OwnPrefix(t: string, i: nat)
    requires t <= "\"" + Escape(t) + "\"" && i < |t|
    ensures t[i] == '"' || t[i] == '\\'
    decreases i
  {
    var p := "\"" + Escape(t) + "\"";
    assert t[i] == p[i];
    if 0 < i <= |Escape(t)| {
      assert p[i] == Escape(t)[i - 1];
      EscapeSource(t, i - 1);
      if t[i] != '\\' {
        var j :| 0 <= j < |t| && j <= i - 1 && t[j] == Escape(t)[i - 1];
        OwnPrefix(t, j);
      }
    }
  }

  lemma NotOwnPrefix(t: string)
    requires NeedsQuotes(t) && '"' in t
    ensures !(t <= "\"" + Escape(t) + "\"")
  {
    if t <= "\"" + Escape(t) + "\"" {
      forall i | 0 <= i < |t|
        ensures !Special(t[i])
      {
        OwnPrefix(t, i);
      }
      assert false;
    }
  }

  lemma {:induction false} EscapeBefore(t: string, k: nat)
    requires k < |t| && t[k] == '"' && forall i :: 0 <= i < k ==> t[i] != '"'
    ensures k < |Escape(t)| && Escape(t)[k] == '\\'
  {
    if k > 0 {
      EscapeBefore(t[1..], k - 1);
      assert Escape(t) == [t[0]] + Escape(t[1..]);
    }
  }

  lemma {:induction false} FirstQuote(t: string) returns (k: nat)
    requires '"' in t
    ensures k < |t| && t[k] == '"' && forall i :: 0 <= i < k ==> t[i] != '"'
  {
    if t[0] == '"' {
      k := 0;
    } else {
      var k' := FirstQuote(t[1..]);
      k := k' + 1;
    }
  }

  /** A quoted scalar with a double quote in it never comes back as it was. */
  lemma QuotedLoses(t: string)
    requires NeedsQuotes(t) && '"' in t
    ensures ReadBack(PrintScalar(t)) != t
  {
    var p := PrintScalar(t);
    var line := p + "\n";
    var kept := Strip(line, false, false);
    assert kept <= line;
    assert kept != [] && kept[0] == '"';
    assert TrimFront(kept) == kept;
    TrimBackPrefix(kept);
    var v := TrimBack(kept);
    PrefixOfPrinted(p, kept);
    var k := FirstQuote(t);
    EscapeBefore(t, k);
    if Unquote(v) == v {
      NotOwnPrefix(t);
    } else {
      var inner := Unquote(v);
      assert inner == v[1..|v| - 1];
      if |inner| > k {
        assert inner[k] == p[k + 1] == Escape(t)[k];
      }
    }
  }

  /** Cutting a printed line and trimming its end leaves a beginning of the printed scalar. */
  lemma PrefixOfPrinted(p: string, kept: string)
    requires p != [] && kept <= p + "\n"
    ensures TrimBack(kept) <= p
  {
    TrimBackPrefix(kept);
    if |kept| == |p| + 1 {
      assert kept[..|kept| - 1] == p;
      TrimBackPrefix(p);
    }
  }

  /** Exactly the admissible scalars read back as what was printed. (A scalar with a line feed does not stay
    * on one line; the document round trip excludes it.) */
  lemma ScalarRoundTrip(t: string)
    ensures ReadBack(PrintScalar(t)) == t <==> Admissible(t)
  {
    if Admissible(t) {
      AdmissibleReadsBack(t, "\n");
    } else if NeedsQuotes(t) {
      QuotedLoses(t);
    } else if ReadBack(PrintScalar(t)) == t {
      BareLoses(t);
    }
  }
}
