/** The netlist rewriter of add_pg_pins.py: one pass over the lines, two flags, power ports added
  * to the top module and power pins to the pad instances. */
module PowerPins {

  datatype Option<T> = None | Some(value: T)

  /** What the instance pattern finds in a line: its indentation and the name of the module. */
  datatype Instance = Instance(indent: string, name: string)

  /** The three line tests. */
  datatype Tests = Tests(isHeader: string -> bool, isInput: string -> bool, instance: string -> Option<Instance>)

  const PORTS := "   VDD, VSS, VDDPAD, VSSPAD,\n"
  const INOUT := "   inout VDD, VSS, VDDPAD, VSSPAD;\n"

  /** The modules whose last pin needs a comma. */
  const TARGETS_WITH_COMMA := {"ixc013_b16m", "ixc013_i16x"}

  function Pins(name: string): (pins: seq<string>)
    ensures |pins| == 4
  {
    [".VDDCORE(VDD),", ".VSSCORE(VSS),", ".VDDPAD(VDDPAD),",
     if name in TARGETS_WITH_COMMA then ".VSSPAD(VSSPAD)," else ".VSSPAD(VSSPAD)"]
  }

  /** str.find for an opening parenthesis: the first index, or None. */
  function FindParen(line: string): (p: Option<nat>)
    ensures p.Some? ==> p.value < |line| && line[p.value] == '(' && '(' !in line[..p.value]
    ensures p.None? ==> '(' !in line
  {
    if line == [] then None
    else if line[0] == '(' then Some(0)
    else
      match FindParen(line[1..])
      case None => None
      case Some(i) =>
        assert line[..i + 1] == [line[0]] + line[1..][..i];
        Some(i + 1)
  }

  // ---- Output with its origin ----

  datatype Why = Break | Ports | Inout | Pin
  datatype Piece = Kept(text: string) | Added(why: Why, text: string)

  /** One element of new_lines. */
  type Item = seq<Piece>

  function Text(item: Item): string
    decreases |item|
  {
    if item == [] then "" else item[0].text + Text(item[1..])
  }

  function Texts(items: seq<Item>): (lines: seq<string>)
    ensures |lines| == |items|
  {
    seq(|items|, i requires 0 <= i < |items| => Text(items[i]))
  }

  function Join(lines: seq<string>): string
    decreases |lines|
  {
    if lines == [] then "" else lines[0] + Join(lines[1..])
  }

  /** What is left of an item when the insertions are deleted. */
  function Erased(item: Item): string
    decreases |item|
  {
    if item == [] then "" else (if item[0].Kept? then item[0].text else "") + Erased(item[1..])
  }

  function Erase(items: seq<Item>): string
    decreases |items|
  {
    if items == [] then "" else Erased(items[0]) + Erase(items[1..])
  }

  // ---- The pass ----

  datatype Flags = Flags(portAdded: bool, inPorts: bool)

  predicate OpensModule(t: Tests, line: string) {
    t.isHeader(line) && FindParen(line).Some?
  }

  function HeaderItems(line: string): seq<Item>
    requires FindParen(line).Some?
  {
    var p := FindParen(line).value + 1;
    [[Kept(line[..p]), Added(Break, "\n")]] + [[Added(Ports, PORTS)]] + [[Kept(line[p..])]]
  }

  /** A pin on a line of its own, indented by four more than its instance. */
  function PinText(indent: string, pin: string): string {
    indent + "    " + pin + "\n"
  }

  function PinItem(indent: string, pin: string): Item {
    [Added(Pin, PinText(indent, pin))]
  }

  /** A line outside the port section: itself, and its pins if it opens a pad instance. */
  function LineItems(t: Tests, line: string): seq<Item> {
    [[Kept(line)]] +
    match t.instance(line)
    case None => []
    case Some(inst) => seq(4, i requires 0 <= i < 4 => PinItem(inst.indent, Pins(inst.name)[i]))
  }

  function NextFlags(t: Tests, line: string, f: Flags): Flags {
    if OpensModule(t, line) && !f.portAdded then Flags(true, true)
    else if f.inPorts && t.isInput(line) then f.(inPorts := false)
    else f
  }

  function StepItems(t: Tests, line: string, f: Flags): seq<Item> {
    if OpensModule(t, line) && !f.portAdded then HeaderItems(line)
    else (if f.inPorts && t.isInput(line) then [[Added(Inout, INOUT)]] else []) + LineItems(t, line)
  }

  function Rewrite(t: Tests, lines: seq<string>, f: Flags): seq<Item>
    decreases |lines|
  {
    if lines == [] then []
    else StepItems(t, lines[0], f) + Rewrite(t, lines[1..], NextFlags(t, lines[0], f))
  }

  function FlagsAfter(t: Tests, lines: seq<string>, f: Flags): Flags
    decreases |lines|
  {
    if lines == [] then f else FlagsAfter(t, lines[1..], NextFlags(t, lines[0], f))
  }

  lemma {:induction false} RewriteSplits(t: Tests, a: seq<string>, b: seq<string>, f: Flags)
    ensures Rewrite(t, a + b, f) == Rewrite(t, a, f) + Rewrite(t, b, FlagsAfter(t, a, f))
    decreases |a|
  {
    if a == [] {
      assert a + b == b;
    } else {
      assert (a + b)[1..] == a[1..] + b;
      RewriteSplits(t, a[1..], b, NextFlags(t, a[0], f));
    }
  }

  lemma {:induction false} FlagsAfterSplits(t: Tests, a: seq<string>, b: seq<string>, f: Flags)
    ensures FlagsAfter(t, a + b, f) == FlagsAfter(t, b, FlagsAfter(t, a, f))
    decreases |a|
  {
    if a == [] {
      assert a + b == b;
    } else {
      assert (a + b)[1..] == a[1..] + b;
      FlagsAfterSplits(t, a[1..], b, NextFlags(t, a[0], f));
    }
  }

  lemma TextsAdds(a: seq<Item>, b: seq<Item>)
    ensures Texts(a + b) == Texts(a) + Texts(b)
  {
  }

  lemma TextOne(p: Piece)
    ensures Text([p]) == p.text
  {
    assert p.text + "" == p.text;
  }

  lemma TextTwo(p: Piece, q: Piece)
    ensures Text([p, q]) == p.text + q.text
  {
    assert [p, q][1..] == [q];
    TextOne(q);
  }

  function LastPin(name: string): string {
    if name == "ixc013_b16m" || name == "ixc013_i16x" then ".VSSPAD(VSSPAD)," else ".VSSPAD(VSSPAD)"
  }

  /** A line in the output: itself, and below an instance its pins, each connected to its own net, with
    * a comma after the last for two of the modules. */
  function CopiedLine(t: Tests, line: string): seq<string> {
    match t.instance(line)
    case None => [line]
    case Some(Instance(indent, name)) =>
      [line,
       indent + "    " + ".VDDCORE(VDD)," + "\n",
       indent + "    " + ".VSSCORE(VSS)," + "\n",
       indent + "    " + ".VDDPAD(VDDPAD)," + "\n",
       indent + "    " + LastPin(name) + "\n"]
  }

  /** Lines in the output, no ports. */
  function Copied(t: Tests, lines: seq<string>): seq<string>
    decreases |lines|
  {
    if lines == [] then [] else CopiedLine(t, lines[0]) + Copied(t, lines[1..])
  }

  lemma CopiesLine(t: Tests, line: string)
    ensures Texts(LineItems(t, line)) == CopiedLine(t, line)
  {
    TextOne(Kept(line));
    match t.instance(line)
    case None =>
    case Some(inst) =>
      var items := LineItems(t, line);
      forall q | 0 <= q < 4
        ensures Texts(items)[1 + q] == PinText(inst.indent, Pins(inst.name)[q])
      {
        assert items[1 + q] == PinItem(inst.indent, Pins(inst.name)[q]);
        TextOne(Added(Pin, PinText(inst.indent, Pins(inst.name)[q])));
      }
  }

  /** The four pin lines of an instance. */
  method AddPins(indent: string, name: string) returns (lines: seq<string>)
    ensures lines == Texts(seq(4, i requires 0 <= i < 4 => PinItem(indent, Pins(name)[i])))
  {
    lines := [];
    var pins := Pins(name);
    for i := 0 to 4
      invariant |lines| == i
      invariant forall k :: 0 <= k < i ==> lines[k] == Text(PinItem(indent, pins[k]))
    {
      TextOne(Added(Pin, PinText(indent, pins[i])));
      lines := lines + [indent + "    " + pins[i] + "\n"];
    }
  }

  /** The three lines of a header. */
  method SplitHeader(line: string, p: nat) returns (lines: seq<string>)
    requires FindParen(line) == Some(p)
    ensures lines == Texts(HeaderItems(line))
    ensures lines == [line[..p + 1] + "\n", "   VDD, VSS, VDDPAD, VSSPAD,\n", line[p + 1..]]
  {
    TextTwo(Kept(line[..p + 1]), Added(Break, "\n"));
    TextOne(Added(Ports, PORTS));
    TextOne(Kept(line[p + 1..]));
    lines := [line[..p + 1] + "\n", PORTS, line[p + 1..]];
  }

  /** A line and its pins. */
  method CopyLine(t: Tests, line: string) returns (lines: seq<string>)
    ensures lines == Texts(LineItems(t, line)) == CopiedLine(t, line)
  {
    CopiesLine(t, line);
    TextOne(Kept(line));
    lines := [line];
    var found := t.instance(line);
    if found.Some? {
      var pins := AddPins(found.value.indent, found.value.name);
      lines := lines + pins;
    }
  }

  /** The lines one input line turns into, and the flags after it. */
  method RewriteLine(t: Tests, line: string, f: Flags) returns (lines: seq<string>, g: Flags)
    ensures lines == Texts(StepItems(t, line, f)) && g == NextFlags(t, line, f)
    ensures t.isHeader(line) && '(' in line && !f.portAdded ==>
      && g == Flags(true, true)
      && exists p: nat :: p < |line| && line[p] == '(' && '(' !in line[..p]
           && lines == [line[..p + 1] + "\n", "   VDD, VSS, VDDPAD, VSSPAD,\n", line[p + 1..]]
    ensures !(t.isHeader(line) && '(' in line && !f.portAdded) ==>
      && g == Flags(f.portAdded, f.inPorts && !t.isInput(line))
      && lines == (if f.inPorts && t.isInput(line) then ["   inout VDD, VSS, VDDPAD, VSSPAD;\n"] else [])
                  + CopiedLine(t, line)
  {
    g, lines := f, [];
    if t.isHeader(line) && !g.portAdded {
      var paren := FindParen(line);
      if paren.Some? {
        lines := SplitHeader(line, paren.value);
        g := Flags(true, true);
        return;
      }
    }
    ghost var inout: seq<Item> := [];
    if g.inPorts && t.isInput(line) {
      TextOne(Added(Inout, INOUT));
      lines := [INOUT];
      inout := [[Added(Inout, INOUT)]];
      g := g.(inPorts := false);
    }
    var own := CopyLine(t, line);
    TextsAdds(inout, LineItems(t, line));
    lines := lines + own;
  }

  /** The loop of the script. */
  method AddPgPins(t: Tests, lines: seq<string>) returns (newLines: seq<string>)
    ensures newLines == Texts(Rewrite(t, lines, Flags(false, false)))
  {
    newLines := [];
    var f := Flags(false, false);
    for i := 0 to |lines|
      invariant f == FlagsAfter(t, lines[..i], Flags(false, false))
      invariant newLines == Texts(Rewrite(t, lines[..i], Flags(false, false)))
    {
      assert lines[..i + 1] == lines[..i] + [lines[i]];
      RewriteSplits(t, lines[..i], [lines[i]], Flags(false, false));
      FlagsAfterSplits(t, lines[..i], [lines[i]], Flags(false, false));
      OneLine(t, lines[i], f);
      TextsAdds(Rewrite(t, lines[..i], Flags(false, false)), StepItems(t, lines[i], f));
      var more;
      more, f := RewriteLine(t, lines[i], f);
      newLines := newLines + more;
    }
    assert lines[..|lines|] == lines;
  }

  lemma OneLine(t: Tests, line: string, f: Flags)
    ensures Rewrite(t, [line], f) == StepItems(t, line, f)
    ensures FlagsAfter(t, [line], f) == NextFlags(t, line, f)
  {
    assert StepItems(t, line, f) + [] == StepItems(t, line, f);
  }

  // ---- Nothing is lost ----

  lemma {:induction false} EraseAdds(a: seq<Item>, b: seq<Item>)
    ensures Erase(a + b) == Erase(a) + Erase(b)
    decreases |a|
  {
    if a == [] {
      assert a + b == b;
    } else {
      assert (a + b)[1..] == a[1..] + b;
      EraseAdds(a[1..], b);
    }
  }

  lemma ErasedOne(p: Piece)
    ensures Erased([p]) == if p.Kept? then p.text else ""
    ensures Erase([[p]]) == Erased([p])
  {
    assert p.text + "" == p.text;
  }

  lemma {:induction false} EraseAdded(items: seq<Item>)
    requires forall i :: 0 <= i < |items| ==> |items[i]| == 1 && items[i][0].Added?
    ensures Erase(items) == ""
    decreases |items|
  {
    if items != [] {
      assert items[0] == [items[0][0]];
      ErasedOne(items[0][0]);
      EraseAdded(items[1..]);
    }
  }

  lemma EraseLine(t: Tests, line: string)
    ensures Erase(LineItems(t, line)) == line
  {
    ErasedOne(Kept(line));
    var rest := LineItems(t, line)[1..];
    EraseAdds([[Kept(line)]], rest);
    EraseAdded(rest);
    assert LineItems(t, line) == [[Kept(line)]] + rest;
  }

  lemma ErasedBroken(text: string)
    ensures Erased([Kept(text), Added(Break, "\n")]) == text
  {
    assert [Kept(text), Added(Break, "\n")][1..] == [Added(Break, "\n")];
    ErasedOne(Added(Break, "\n"));
    assert text + "" == text;
  }

  lemma EraseSingle(item: Item)
    ensures Erase([item]) == Erased(item)
  {
    assert Erased(item) + "" == Erased(item);
  }

  lemma Halves(line: string, p: nat)
    requires p <= |line|
    ensures line[..p] + "" + line[p..] == line
  {
  }

  lemma EraseHeader(line: string)
    requires FindParen(line).Some?
    ensures Erase(HeaderItems(line)) == line
  {
    var p := FindParen(line).value + 1;
    var head, ports, tail := [Kept(line[..p]), Added(Break, "\n")], [Added(Ports, PORTS)], [Kept(line[p..])];
    EraseAdds([head] + [ports], [tail]);
    EraseAdds([head], [ports]);
    EraseSingle(head);
    EraseSingle(ports);
    EraseSingle(tail);
    ErasedBroken(line[..p]);
    ErasedOne(Added(Ports, PORTS));
    ErasedOne(Kept(line[p..]));
    Halves(line, p);
  }

  /** Deleting exactly the insertions gives back the input file. */
  lemma {:induction false} NothingLost(t: Tests, lines: seq<string>, f: Flags)
    ensures Erase(Rewrite(t, lines, f)) == Join(lines)
    decreases |lines|
  {
    if lines != [] {
      var line := lines[0];
      NothingLost(t, lines[1..], NextFlags(t, line, f));
      EraseAdds(StepItems(t, line, f), Rewrite(t, lines[1..], NextFlags(t, line, f)));
      if OpensModule(t, line) && !f.portAdded {
        EraseHeader(line);
      } else {
        EraseLine(t, line);
        ErasedOne(Added(Inout, INOUT));
        EraseAdds([[Added(Inout, INOUT)]], LineItems(t, line));
        assert [] + LineItems(t, line) == LineItems(t, line);
      }
    }
  }

  // ---- Where the insertions are ----

  /** Every line with its pins, no ports. */
  function Plain(t: Tests, lines: seq<string>): seq<Item>
    decreases |lines|
  {
    if lines == [] then [] else LineItems(t, lines[0]) + Plain(t, lines[1..])
  }

  lemma {:induction false} CopiesPlain(t: Tests, lines: seq<string>)
    ensures Texts(Plain(t, lines)) == Copied(t, lines)
    decreases |lines|
  {
    if lines != [] {
      CopiesLine(t, lines[0]);
      CopiesPlain(t, lines[1..]);
      TextsAdds(LineItems(t, lines[0]), Plain(t, lines[1..]));
    }
  }

  /** `a` is the header up to and with its first parenthesis, `b` the rest. */
  predicate Opened(header: string, a: string, b: string) {
    a + b == header && a != [] && a[|a| - 1] == '(' && '(' !in a[..|a| - 1]
  }

  lemma HeaderTexts(header: string) returns (a: string, b: string)
    requires FindParen(header).Some?
    ensures Opened(header, a, b)
    ensures Texts(HeaderItems(header)) == [a + "\n", "   VDD, VSS, VDDPAD, VSSPAD,\n", b]
  {
    var p := FindParen(header).value;
    a, b := header[..p + 1], header[p + 1..];
    assert a[..|a| - 1] == header[..p];
    TextTwo(Kept(a), Added(Break, "\n"));
    TextOne(Added(Ports, PORTS));
    TextOne(Kept(b));
  }

  /** No line of `lines` opens the module. */
  predicate NoHeader(t: Tests, lines: seq<string>) {
    forall i :: 0 <= i < |lines| ==> !OpensModule(t, lines[i])
  }

  predicate NoInput(t: Tests, lines: seq<string>) {
    forall i :: 0 <= i < |lines| ==> !t.isInput(lines[i])
  }

  /** With the flags settled, a stretch of lines only gets its pins. */
  lemma {:induction false} Settled(t: Tests, lines: seq<string>, f: Flags)
    requires f.portAdded || NoHeader(t, lines)
    requires !f.inPorts || NoInput(t, lines)
    ensures Rewrite(t, lines, f) == Plain(t, lines) && FlagsAfter(t, lines, f) == f
    decreases |lines|
  {
    if lines != [] {
      assert lines[0] in lines;
      assert [] + LineItems(t, lines[0]) == LineItems(t, lines[0]);
      Settled(t, lines[1..], f);
    }
  }

  /** A file without the top module's header gets pins only. */
  lemma WithoutHeader(t: Tests, lines: seq<string>)
    requires NoHeader(t, lines)
    ensures Rewrite(t, lines, Flags(false, false)) == Plain(t, lines)
    ensures Texts(Rewrite(t, lines, Flags(false, false))) == Copied(t, lines)
  {
    Settled(t, lines, Flags(false, false));
    CopiesPlain(t, lines);
  }

  lemma HeaderOnlyTexts(t: Tests, before: seq<string>, header: string, after: seq<string>)
    returns (a: string, b: string)
    requires FindParen(header).Some?
    ensures Opened(header, a, b)
    ensures Texts(Plain(t, before) + HeaderItems(header) + Plain(t, after))
      == Copied(t, before) + [a + "\n", "   VDD, VSS, VDDPAD, VSSPAD,\n", b] + Copied(t, after)
  {
    a, b := HeaderTexts(header);
    CopiesPlain(t, before);
    CopiesPlain(t, after);
    TextsAdds(Plain(t, before) + HeaderItems(header), Plain(t, after));
    TextsAdds(Plain(t, before), HeaderItems(header));
  }

  /** With a header and no input line after it, the ports go in at the first header, once. */
  lemma WithHeaderOnly(t: Tests, before: seq<string>, header: string, after: seq<string>)
    returns (a: string, b: string)
    requires NoHeader(t, before) && OpensModule(t, header) && NoInput(t, after)
    ensures Rewrite(t, before + [header] + after, Flags(false, false))
      == Plain(t, before) + HeaderItems(header) + Plain(t, after)
    ensures Opened(header, a, b)
    ensures Texts(Rewrite(t, before + [header] + after, Flags(false, false)))
      == Copied(t, before) + [a + "\n", "   VDD, VSS, VDDPAD, VSSPAD,\n", b] + Copied(t, after)
  {
    var start := Flags(false, false);
    RewriteSplits(t, before + [header], after, start);
    RewriteSplits(t, before, [header], start);
    FlagsAfterSplits(t, before, [header], start);
    Settled(t, before, start);
    OneLine(t, header, start);
    Settled(t, after, Flags(true, true));
    a, b := HeaderOnlyTexts(t, before, header, after);
  }

  /** Otherwise the ports go in at the first header and the inout line just before the first
    * input line after it, each once; every other line, later headers and inputs included, only
    * gets its own pins, directly below it. */
  lemma WithHeaderAndInput(
    t: Tests, before: seq<string>, header: string, ports: seq<string>, input: string, after: seq<string>)
    returns (a: string, b: string)
    requires NoHeader(t, before) && OpensModule(t, header) && NoInput(t, ports) && t.isInput(input)
    ensures Rewrite(t, before + [header] + ports + [input] + after, Flags(false, false))
      == Plain(t, before) + HeaderItems(header) + Plain(t, ports)
         + [[Added(Inout, INOUT)]] + LineItems(t, input) + Plain(t, after)
    ensures Opened(header, a, b)
    ensures Texts(Rewrite(t, before + [header] + ports + [input] + after, Flags(false, false)))
      == Copied(t, before) + [a + "\n", "   VDD, VSS, VDDPAD, VSSPAD,\n", b] + Copied(t, ports)
         + ["   inout VDD, VSS, VDDPAD, VSSPAD;\n"] + CopiedLine(t, input) + Copied(t, after)
  {
    var start, inside, done := Flags(false, false), Flags(true, true), Flags(true, false);
    var upTo := before + [header] + ports;
    WithHeaderFlags(t, before, header, ports);
    RewriteSplits(t, upTo + [input], after, start);
    RewriteSplits(t, upTo, [input], start);
    FlagsAfterSplits(t, upTo, [input], start);
    a, b := WithHeaderOnly(t, before, header, ports);
    OneLine(t, input, inside);
    Settled(t, after, done);
    var upper := Plain(t, before) + HeaderItems(header) + Plain(t, ports);
    Assoc(upper, [[Added(Inout, INOUT)]], LineItems(t, input));
    InoutTexts(t, upper, input, after);
  }

  lemma InoutTexts(t: Tests, upper: seq<Item>, input: string, after: seq<string>)
    ensures Texts(upper + [[Added(Inout, INOUT)]] + LineItems(t, input) + Plain(t, after))
      == Texts(upper) + ["   inout VDD, VSS, VDDPAD, VSSPAD;\n"] + CopiedLine(t, input) + Copied(t, after)
  {
    var inout: seq<Item> := [[Added(Inout, INOUT)]];
    TextOne(Added(Inout, INOUT));
    CopiesLine(t, input);
    CopiesPlain(t, after);
    TextsAdds(upper + inout + LineItems(t, input), Plain(t, after));
    TextsAdds(upper + inout, LineItems(t, input));
    TextsAdds(upper, inout);
  }

  lemma Assoc<T>(a: seq<T>, b: seq<T>, c: seq<T>)
    ensures a + (b + c) == a + b + c
  {
  }

  lemma WithHeaderFlags(t: Tests, before: seq<string>, header: string, ports: seq<string>)
    requires NoHeader(t, before) && OpensModule(t, header) && NoInput(t, ports)
    ensures FlagsAfter(t, before + [header] + ports, Flags(false, false)) == Flags(true, true)
  {
    var start := Flags(false, false);
    FlagsAfterSplits(t, before + [header], ports, start);
    FlagsAfterSplits(t, before, [header], start);
    Settled(t, before, start);
    OneLine(t, header, start);
    Settled(t, ports, Flags(true, true));
  }

  /** What a line turns into stands in the output behind what the lines before it turn into. */
  lemma CopiedAt(t: Tests, a: seq<string>, line: string, b: seq<string>, f: Flags)
    returns (at: nat, out: seq<Item>)
    requires !OpensModule(t, line) || FlagsAfter(t, a, f).portAdded
    ensures out == Rewrite(t, a + [line] + b, f)
    ensures |Rewrite(t, a, f)| <= at && at + |LineItems(t, line)| <= |out|
    ensures out[at..at + |LineItems(t, line)|] == LineItems(t, line)
  {
    var g := FlagsAfter(t, a, f);
    RewriteSplits(t, a + [line], b, f);
    RewriteSplits(t, a, [line], f);
    OneLine(t, line, g);
    var inout: seq<Item> := if g.inPorts && t.isInput(line) then [[Added(Inout, INOUT)]] else [];
    at := |Rewrite(t, a, f) + inout|;
    out := Rewrite(t, a + [line] + b, f);
  }

  /** The four pin lines of a pad instance. */
  function PinTexts(inst: Instance): (lines: seq<string>)
    ensures |lines| == 4
  {
    seq(4, q requires 0 <= q < 4 => PinText(inst.indent, Pins(inst.name)[q]))
  }

  lemma InstanceLines(t: Tests, line: string)
    requires t.instance(line).Some?
    ensures |LineItems(t, line)| == 5
    ensures Texts(LineItems(t, line)) == [line] + PinTexts(t.instance(line).value)
  {
    var inst, items := t.instance(line).value, LineItems(t, line);
    TextOne(Kept(line));
    forall q | 0 <= q < 4
      ensures Texts(items)[1 + q] == PinTexts(inst)[q]
    {
      assert items[1 + q] == PinItem(inst.indent, Pins(inst.name)[q]);
      TextOne(Added(Pin, PinText(inst.indent, Pins(inst.name)[q])));
    }
  }

  lemma TextsAt(items: seq<Item>, at: nat, part: seq<Item>)
    requires at + |part| <= |items| && items[at..at + |part|] == part
    ensures Texts(items)[at..at + |part|] == Texts(part)
  {
    forall k | 0 <= k < |part|
      ensures Texts(items)[at..at + |part|][k] == Texts(part)[k]
    {
      assert items[at + k] == items[at..at + |part|][k];
    }
  }

  /** A line that opens a pad instance (and is not the line the ports went into) is copied, with
    * its own four pin lines directly below it, indented by four more and with a comma after the
    * last exactly for the modules that need one. */
  lemma PinsFollow(t: Tests, a: seq<string>, line: string, b: seq<string>, f: Flags)
    returns (at: nat, out: seq<string>)
    requires t.instance(line).Some?
    requires !OpensModule(t, line) || FlagsAfter(t, a, f).portAdded
    ensures out == Texts(Rewrite(t, a + [line] + b, f)) && |Rewrite(t, a, f)| <= at && at + 5 <= |out|
    ensures out[at] == line && out[at + 1..at + 5] == PinTexts(t.instance(line).value)
    ensures out[at..at + 5] == CopiedLine(t, line)
  {
    var items;
    at, items := CopiedAt(t, a, line, b, f);
    InstanceLines(t, line);
    CopiesLine(t, line);
    TextsAt(items, at, LineItems(t, line));
    out := Texts(items);
    Behind(out, at, line, PinTexts(t.instance(line).value));
  }

  lemma Behind<T>(s: seq<T>, at: nat, x: T, rest: seq<T>)
    requires at + 1 + |rest| <= |s| && s[at..at + 1 + |rest|] == [x] + rest
    ensures s[at] == x && s[at + 1..at + 1 + |rest|] == rest
  {
    assert s[at] == s[at..at + 1 + |rest|][0];
    assert s[at + 1..at + 1 + |rest|] == s[at..at + 1 + |rest|][1..];
  }

  // ---- How often ----

  function Count(items: seq<Item>, why: Why): nat
    decreases |items|
  {
    if items == [] then 0
    else (if |items[0]| == 1 && items[0][0].Added? && items[0][0].why == why then 1 else 0) + Count(items[1..], why)
  }

  lemma {:induction false} CountAdds(a: seq<Item>, b: seq<Item>, why: Why)
    ensures Count(a + b, why) == Count(a, why) + Count(b, why)
    decreases |a|
  {
    if a == [] {
      assert a + b == b;
    } else {
      assert (a + b)[1..] == a[1..] + b;
      CountAdds(a[1..], b, why);
    }
  }

  predicate LineOrPin(item: Item) {
    |item| == 1 && (item[0].Kept? || item[0].why.Pin?)
  }

  lemma {:induction false} CountLines(items: seq<Item>, why: Why)
    requires !why.Pin? && forall i :: 0 <= i < |items| ==> LineOrPin(items[i])
    ensures Count(items, why) == 0
    decreases |items|
  {
    if items != [] {
      CountLines(items[1..], why);
    }
  }

  lemma {:induction false} CountPlain(t: Tests, lines: seq<string>, why: Why)
    requires !why.Pin?
    ensures Count(Plain(t, lines), why) == 0
    decreases |lines|
  {
    if lines != [] {
      CountLines(LineItems(t, lines[0]), why);
      CountAdds(LineItems(t, lines[0]), Plain(t, lines[1..]), why);
      CountPlain(t, lines[1..], why);
    }
  }

  lemma CountHeader(line: string, why: Why)
    requires FindParen(line).Some? && (why.Ports? || why.Inout?)
    ensures Count(HeaderItems(line), why) == if why.Ports? then 1 else 0
  {
    var p := FindParen(line).value + 1;
    var head, ports, tail := [Kept(line[..p]), Added(Break, "\n")], [Added(Ports, PORTS)], [Kept(line[p..])];
    CountAdds([head] + [ports], [tail], why);
    CountAdds([head], [ports], why);
  }

  lemma FirstHeader(t: Tests, lines: seq<string>) returns (h: nat)
    requires !NoHeader(t, lines)
    ensures h < |lines| && OpensModule(t, lines[h]) && NoHeader(t, lines[..h])
  {
    h := 0;
    while !OpensModule(t, lines[h])
      invariant h < |lines| && NoHeader(t, lines[..h])
      decreases |lines| - h
    {
      h := h + 1;
    }
  }

  lemma FirstInput(t: Tests, lines: seq<string>) returns (k: nat)
    requires !NoInput(t, lines)
    ensures k < |lines| && t.isInput(lines[k]) && NoInput(t, lines[..k])
  {
    k := 0;
    while !t.isInput(lines[k])
      invariant k < |lines| && NoInput(t, lines[..k])
      decreases |lines| - k
    {
      k := k + 1;
    }
  }

  ghost predicate InputAfterHeader(t: Tests, lines: seq<string>) {
    exists i, j :: 0 <= i < j < |lines| && OpensModule(t, lines[i]) && t.isInput(lines[j])
  }

  /** The port list is inserted exactly once if some line opens the module, else never; the inout
    * line exactly once if an input line follows such a line, else never. */
  lemma InsertedOnce(t: Tests, lines: seq<string>)
    ensures var out := Rewrite(t, lines, Flags(false, false));
      && Count(out, Ports) == (if NoHeader(t, lines) then 0 else 1)
      && Count(out, Inout) == (if InputAfterHeader(t, lines) then 1 else 0)
  {
    if NoHeader(t, lines) {
      WithoutHeader(t, lines);
      CountPlain(t, lines, Ports);
      CountPlain(t, lines, Inout);
    } else {
      var h := FirstHeader(t, lines);
      if NoInput(t, lines[h + 1..]) {
        NoInputAfter(t, lines, h);
        CountHeaderOnly(t, lines[..h], lines[h], lines[h + 1..]);
        CutAt(lines, h);
      } else {
        var k := FirstInput(t, lines[h + 1..]);
        var after := lines[h + 1..];
        CountHeaderAndInput(t, lines[..h], lines[h], after[..k], after[k], after[k + 1..]);
        CutAt(lines, h);
        CutAt(after, k);
        CutTwice(lines[..h] + [lines[h]], after[..k], [after[k]], after[k + 1..]);
        assert t.isInput(lines[h + 1 + k]);
      }
    }
  }

  lemma NoInputAfter(t: Tests, lines: seq<string>, h: nat)
    requires h < |lines| && NoHeader(t, lines[..h]) && NoInput(t, lines[h + 1..])
    ensures !InputAfterHeader(t, lines)
  {
    assert forall i :: 0 <= i < h ==> lines[i] == lines[..h][i];
    assert forall j :: h < j < |lines| ==> lines[j] == lines[h + 1..][j - h - 1];
  }

  lemma CutAt<T>(s: seq<T>, h: nat)
    requires h < |s|
    ensures s[..h] + [s[h]] + s[h + 1..] == s
  {
  }

  lemma CutTwice<T>(a: seq<T>, b: seq<T>, c: seq<T>, d: seq<T>)
    ensures a + (b + c + d) == a + b + c + d
  {
  }

  lemma CountHeaderOnly(t: Tests, before: seq<string>, header: string, after: seq<string>)
    requires NoHeader(t, before) && OpensModule(t, header) && NoInput(t, after)
    ensures var out := Rewrite(t, before + [header] + after, Flags(false, false));
      Count(out, Ports) == 1 && Count(out, Inout) == 0
  {
    var _, _ := WithHeaderOnly(t, before, header, after);
    CountParts(t, before, header, after, Ports);
    CountParts(t, before, header, after, Inout);
  }

  lemma CountParts(t: Tests, before: seq<string>, header: string, after: seq<string>, why: Why)
    requires FindParen(header).Some? && (why.Ports? || why.Inout?)
    ensures Count(Plain(t, before) + HeaderItems(header) + Plain(t, after), why) == if why.Ports? then 1 else 0
  {
    CountAdds(Plain(t, before) + HeaderItems(header), Plain(t, after), why);
    CountAdds(Plain(t, before), HeaderItems(header), why);
    CountPlain(t, before, why);
    CountHeader(header, why);
    CountPlain(t, after, why);
  }

  lemma CountHeaderAndInput(
    t: Tests, before: seq<string>, header: string, ports: seq<string>, input: string, after: seq<string>)
    requires NoHeader(t, before) && OpensModule(t, header) && NoInput(t, ports) && t.isInput(input)
    ensures var out := Rewrite(t, before + [header] + ports + [input] + after, Flags(false, false));
      Count(out, Ports) == 1 && Count(out, Inout) == 1
  {
    var _, _ := WithHeaderAndInput(t, before, header, ports, input, after);
    CountInout(t, Plain(t, before) + HeaderItems(header) + Plain(t, ports), input, after, Ports);
    CountInout(t, Plain(t, before) + HeaderItems(header) + Plain(t, ports), input, after, Inout);
    CountParts(t, before, header, ports, Ports);
    CountParts(t, before, header, ports, Inout);
  }

  lemma CountInout(t: Tests, items: seq<Item>, input: string, after: seq<string>, why: Why)
    requires why.Ports? || why.Inout?
    ensures Count(items + [[Added(Inout, INOUT)]] + LineItems(t, input) + Plain(t, after), why)
      == Count(items, why) + if why.Inout? then 1 else 0
  {
    var inout := [[Added(Inout, INOUT)]];
    CountAdds(items + inout + LineItems(t, input), Plain(t, after), why);
    CountAdds(items + inout, LineItems(t, input), why);
    CountAdds(items, inout, why);
    CountLines(LineItems(t, input), why);
    CountPlain(t, after, why);
  }
}
