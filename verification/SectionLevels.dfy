/** When the configuration loader writes past the end of its section stack. */
module SectionLevels {
  import opened YamlText
  import opened SimpleYaml

  function Meanings(text: string): (lines: seq<Line>)
    ensures |lines| == |Chunks(text)| && forall i :: 0 <= i < |lines| ==> lines[i] == ParseLine(Chunks(text)[i])
  {
    seq(|Chunks(text)|, i requires 0 <= i < |Chunks(text)| => ParseLine(Chunks(text)[i]))
  }

  predicate AtLeast(line: Line, level: nat)
  {
    line.Skipped? || line.indent >= level
  }

  /** Line `j` opens the section that a line `i` at the given level stands in: nothing between them is shallower. */
  predicate Opens(lines: seq<Line>, j: nat, i: nat, level: nat)
    requires i <= |lines|
  {
    j < i && lines[j].Section? && lines[j].indent + 1 == level && forall k :: j < k < i ==> AtLeast(lines[k], level)
  }

  predicate HasParent(lines: seq<Line>, i: nat, level: nat)
    requires i <= |lines|
  {
    level == 0 || exists j :: 0 <= j < i && Opens(lines, j, i, level)
  }

  /** A section line below no section. */
  predicate Orphan(lines: seq<Line>, i: nat)
    requires i < |lines|
  {
    lines[i].Section? && !HasParent(lines, i, lines[i].indent)
  }

  /** What one line changes about the levels that stand open. */
  lemma ParentStep(lines: seq<Line>, i: nat, level: nat)
    requires i < |lines|
    ensures HasParent(lines, i + 1, level)
            <==> (|| (lines[i].Section? && level == lines[i].indent + 1)
                  || (AtLeast(lines[i], level) && HasParent(lines, i, level)))
  {
    if lines[i].Section? && level == lines[i].indent + 1 {
      assert Opens(lines, i, i + 1, level);
    } else if AtLeast(lines[i], level) && HasParent(lines, i, level) && level > 0 {
      var j :| 0 <= j < i && Opens(lines, j, i, level);
      assert Opens(lines, j, i + 1, level);
    }
    if HasParent(lines, i + 1, level) && level > 0 {
      var j :| 0 <= j < i + 1 && Opens(lines, j, i + 1, level);
      StillOpen(lines, j, i, level);
    }
  }

  lemma StillOpen(lines: seq<Line>, j: nat, i: nat, level: nat)
    requires i < |lines| && Opens(lines, j, i + 1, level)
    ensures if j == i then lines[i].Section? && level == lines[i].indent + 1
            else AtLeast(lines[i], level) && Opens(lines, j, i, level)
  {
  }

  /** The stack is as deep as the sections that stand open, and has been overrun exactly if an orphan came by. */
  ghost predicate StackTells(l: Loader, lines: seq<Line>, i: nat)
    requires i <= |lines|
  {
    && (l.fault <==> exists j :: 0 <= j < i && Orphan(lines, j))
    && (!l.fault ==> forall level: nat :: level <= |l.stack| <==> HasParent(lines, i, level))
  }

  lemma ApplyTells(l: Loader, lines: seq<Line>, i: nat)
    requires i < |lines| && StackTells(l, lines, i) && !l.fault
    ensures StackTells(Apply(l, lines[i]), lines, i + 1)
  {
    hide HasParent, AtLeast, JoinPath;
    var m := Apply(l, lines[i]);
    assert m.fault <==> Orphan(lines, i);
    if !m.fault {
      var next := i + 1;
      forall level: nat
        ensures level <= |m.stack| <==> HasParent(lines, next, level)
      {
        ParentStep(lines, i, level);
        LevelMeans(lines[i], level);
      }
    }
  }

  lemma LevelMeans(line: Line, level: nat)
    ensures AtLeast(line, level) <==> line.Skipped? || line.indent >= level
  {
  }

  lemma FaultTells(l: Loader, lines: seq<Line>, i: nat)
    requires i < |lines| && StackTells(l, lines, i) && l.fault
    ensures StackTells(l, lines, i + 1)
  {
    hide Orphan;
  }

  lemma {:induction false} LoadTells(text: string, i: nat)
    requires i <= |Chunks(text)|
    ensures StackTells(LoadLines(FRESH, Chunks(text)[..i]), Meanings(text), i)
  {
    hide ParseLine, Chunks, Apply, StackTells;
    var chunks, lines := Chunks(text), Meanings(text);
    if i == 0 {
      FreshTells(lines);
    } else {
      LoadTells(text, i - 1);
      var l := LoadLines(FRESH, chunks[..i - 1]);
      LoadAppend(FRESH, chunks[..i - 1], [chunks[i - 1]]);
      assert chunks[..i] == chunks[..i - 1] + [chunks[i - 1]];
      OneLoaded(l, chunks[i - 1]);
      if l.fault {
        FaultTells(l, lines, i - 1);
      } else {
        ApplyTells(l, lines, i - 1);
      }
    }
  }

  lemma FreshTells(lines: seq<Line>)
    ensures StackTells(FRESH, lines, 0)
  {
  }

  lemma OneLoaded(l: Loader, line: string)
    ensures LoadLines(l, [line]) == if l.fault then l else Apply(l, ParseLine(line))
  {
    hide ParseLine, Apply;
    assert [line][1..] == [];
  }

  /** For every file: the stack is overrun if and only if the file has a section line, not at the left edge, with no
    * section one level up before it, or only such that a shallower line closed again. */
  lemma FaultExact(text: string)
    ensures Load(text).fault <==> exists i :: 0 <= i < |Meanings(text)| && Orphan(Meanings(text), i)
  {
    hide Chunks, LoadLines, Orphan;
    var lines := Meanings(text);
    LoadTells(text, |Chunks(text)|);
    assert Chunks(text)[..|Chunks(text)|] == Chunks(text);
  }

  /** So a first section that is indented is enough, whatever follows. */
  lemma IndentedStartFaults(text: string)
    requires text != [] && ParseLine(Chunks(text)[0]).Section? && ParseLine(Chunks(text)[0]).indent > 0
    ensures Load(text).fault
  {
    hide Load, ParseLine, Chunk;
    FaultExact(text);
    assert Orphan(Meanings(text), 0);
  }

  /** For instance by a file whose only line is a section at level two. */
  lemma DeepSectionFaults()
    ensures FileOf(["    deep:"]) == "    deep:\n" && Load(FileOf(["    deep:"])).fault
  {
    hide ParseLine, Chunks, Load, Delivered;
    var line := Spaces(4) + "deep" + ":" + "";
    assert line == "    deep:";
    ChunksOfFile([line]);
    OneDelivered(line);
    SectionLine(4, "deep", "\n");
    DeliveredShort(line);
    IndentedStartFaults(FileOf([line]));
  }

  lemma DeliveredShort(line: string)
    requires |line| < BUFFER - 1
    ensures Delivered(line) == [line + "\n"]
  {
  }
}
