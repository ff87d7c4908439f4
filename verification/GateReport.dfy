/**
  The quality report: the sections the gate runner prints, and the reader with which the terminal view gets
  the gates back.
*/
module GateReport {
  import opened Sequences
  import opened Text
  import opened Wrappers

  /** The attributes of a section that the reader does not look at. */
  datatype NoteName = Domain | Tool | FinalGate | Mutates | EnabledByConfig | OptInRequired | NetworkRequired
                    | CredentialRequired | SetupGuidance

  function NoteText(n: NoteName): string {
    match n
    case Domain => "domain="
    case Tool => "tool="
    case FinalGate => "final_gate="
    case Mutates => "mutates="
    case EnabledByConfig => "enabled_by_config="
    case OptInRequired => "opt_in_required="
    case NetworkRequired => "network_required="
    case CredentialRequired => "credential_required="
    case SetupGuidance => "setup_guidance="
  }

  datatype Note = Note(name: NoteName, value: string)

  /** The attributes the reader looks at. */
  datatype Attribute = Status | Required | Command

  function AttributeText(a: Attribute): string {
    match a
    case Status => "status="
    case Required => "required="
    case Command => "command="
  }

  const HEADING := "## "

  /** One printed section.  `output` is the pair (stdout, stderr) of a gate that was executed. */
  datatype Section = Section(name: string, before: seq<Note>, command: Option<string>, status: string,
                             required: bool, after: seq<Note>, output: Option<(string, string)>)

  function BoolText(b: bool): string {
    if b then "true" else "false"
  }

  function NoteLines(notes: seq<Note>): (lines: seq<string>)
    ensures |lines| == |notes|
    ensures forall i :: 0 <= i < |notes| ==> lines[i] == NoteText(notes[i].name) + notes[i].value
  {
    seq(|notes|, i requires 0 <= i < |notes| => NoteText(notes[i].name) + notes[i].value)
  }

  function CommandLines(command: Option<string>): seq<string> {
    match command
    case None => []
    case Some(c) => [AttributeText(Command) + c]
  }

  function StateLines(s: Section): seq<string> {
    [AttributeText(Status) + s.status, AttributeText(Required) + BoolText(s.required)]
  }

  function HeadLines(s: Section): seq<string> {
    [HEADING + s.name] + (NoteLines(s.before) + (CommandLines(s.command) + (StateLines(s) + NoteLines(s.after))))
  }

  function OutputText(stdout: string, stderr: string): string {
    Unline(["", "stdout:"]) + ((stdout + "\n") + (Unline(["", "stderr:"]) + ((stderr + "\n") + Unline([""]))))
  }

  function TailText(s: Section): string {
    match s.output
    case None => Unline([""])
    case Some((stdout, stderr)) => OutputText(stdout, stderr)
  }

  function SectionText(s: Section): string {
    Unline(HeadLines(s)) + TailText(s)
  }

  function SectionsText(sections: seq<Section>): string {
    if sections == [] then "" else SectionsText(sections[..|sections| - 1]) + SectionText(sections[|sections| - 1])
  }

  // ---- Reading ----

  datatype GateDisplay = GateDisplay(name: string, status: string, required: Option<string>, command: Option<string>)

  /** The reader's two variables: finished gates and the gate whose lines are being read. */
  datatype Reader = Reader(gates: seq<GateDisplay>, current: Option<GateDisplay>)

  function Finished(r: Reader): seq<GateDisplay> {
    match r.current
    case None => r.gates
    case Some(gate) => r.gates + [gate]
  }

  /** How the reader takes a line, by the prefix it strips. */
  datatype LineKind = Heading(text: string) | Value(attribute: Attribute, text: string) | Noise

  function KindOf(line: string): LineKind {
    if HEADING <= line then Heading(line[|HEADING|..])
    else if AttributeText(Status) <= line then Value(Status, line[|AttributeText(Status)|..])
    else if AttributeText(Required) <= line then Value(Required, line[|AttributeText(Required)|..])
    else if AttributeText(Command) <= line then Value(Command, line[|AttributeText(Command)|..])
    else Noise
  }

  function Opened(name: string): GateDisplay {
    GateDisplay(name, "unknown", None, None)
  }

  function Set(gate: GateDisplay, a: Attribute, value: string): GateDisplay {
    match a
    case Status => gate.(status := value)
    case Required => gate.(required := Some(value))
    case Command => gate.(command := Some(value))
  }

  function ReadInto(r: Reader, a: Attribute, value: string): Reader {
    match r.current
    case None => r
    case Some(gate) => Reader(r.gates, Some(Set(gate, a, value)))
  }

  function ReadKind(r: Reader, kind: LineKind): Reader {
    match kind
    case Heading(name) => Reader(Finished(r), Some(Opened(Trim(name))))
    case Value(a, value) => ReadInto(r, a, Trim(value))
    case Noise => r
  }

  function ReadLines(r: Reader, lines: seq<string>): Reader
    decreases |lines|
  {
    if lines == [] then r else ReadLines(ReadKind(r, KindOf(lines[0])), lines[1..])
  }

  const START := Reader([], None)

  function ParsedGates(report: string): seq<GateDisplay> {
    Finished(ReadLines(START, Lines(report)))
  }

  /** `parse_quality_gates`. */
  method ParseQualityGates(report: string) returns (gates: seq<GateDisplay>)
    ensures gates == ParsedGates(report)
  {
    gates := [];
    var current: Option<GateDisplay> := None;
    var lines := Lines(report);
    assert lines[0..] == lines;
    for i := 0 to |lines|
      invariant ReadLines(START, lines) == ReadLines(Reader(gates, current), lines[i..])
    {
      var line := lines[i];
      assert lines[i..][0] == line && lines[i..][1..] == lines[i + 1..];
      if HEADING <= line {
        if current.Some? {
          gates := gates + [current.value];
        }
        current := Some(Opened(Trim(line[|HEADING|..])));
        continue;
      }
      if current.None? {
        continue;
      }
      if AttributeText(Status) <= line {
        current := Some(current.value.(status := Trim(line[|AttributeText(Status)|..])));
      } else if AttributeText(Required) <= line {
        current := Some(current.value.(required := Some(Trim(line[|AttributeText(Required)|..]))));
      } else if AttributeText(Command) <= line {
        current := Some(current.value.(command := Some(Trim(line[|AttributeText(Command)|..]))));
      }
    }
    if current.Some? {
      gates := gates + [current.value];
    }
  }

  // ---- Kinds of printed lines ----

  lemma HeadingKind(name: string)
    ensures KindOf(HEADING + name) == Heading(name)
  {
  }

  lemma AttributeTextsDiffer(a: Attribute, text: string)
    ensures !(HEADING <= AttributeText(a) + text)
    ensures forall b :: b != a ==> !(AttributeText(b) <= AttributeText(a) + text)
  {
    var line := AttributeText(a) + text;
    assert line[0] == AttributeText(a)[0] && HEADING[0] == '#';
    forall b | b != a
      ensures !(AttributeText(b) <= line)
    {
      assert AttributeText(b)[0] != AttributeText(a)[0];
    }
  }

  lemma ValueKind(a: Attribute, text: string)
    ensures KindOf(AttributeText(a) + text) == Value(a, text)
  {
    AttributeTextsDiffer(a, text);
    var line := AttributeText(a) + text;
    assert AttributeText(a) <= line && line[|AttributeText(a)|..] == text;
  }

  predicate IsNoise(line: string) {
    KindOf(line) == Noise
  }

  predicate AllNoise(lines: seq<string>) {
    forall i :: 0 <= i < |lines| ==> IsNoise(lines[i])
  }

  lemma NoteStart(n: NoteName, a: Attribute)
    ensures |NoteText(n)| >= 2 && |AttributeText(a)| >= 2
    ensures NoteText(n)[0] != '#'
    ensures NoteText(n)[0] != AttributeText(a)[0] || NoteText(n)[1] != AttributeText(a)[1]
  {
  }

  lemma DifferentStart(prefix: string, head: string, text: string)
    requires |prefix| >= 2 && |head| >= 2 && (prefix[0] != head[0] || prefix[1] != head[1])
    ensures !(prefix <= head + text)
  {
    assert (head + text)[0] == head[0] && (head + text)[1] == head[1];
  }

  lemma NoteIsNoise(n: NoteName, text: string)
    ensures IsNoise(NoteText(n) + text)
  {
    NoteStart(n, Status); NoteStart(n, Required); NoteStart(n, Command);
    DifferentStart(AttributeText(Status), NoteText(n), text);
    DifferentStart(AttributeText(Required), NoteText(n), text);
    DifferentStart(AttributeText(Command), NoteText(n), text);
    assert HEADING[0] == '#';
    DifferentStart(HEADING, NoteText(n), text);
  }

  lemma NotesAreNoise(notes: seq<Note>)
    ensures AllNoise(NoteLines(notes))
  {
    forall i | 0 <= i < |notes|
      ensures IsNoise(NoteLines(notes)[i])
    {
      NoteIsNoise(notes[i].name, notes[i].value);
    }
  }

  // ---- What is read back ----

  predicate IsPrintable(s: string) {
    '\n' !in s && IsTrimmed(s)
  }

  predicate AllOneLine(lines: seq<string>) {
    forall i :: 0 <= i < |lines| ==> IsOneLine(lines[i])
  }

  predicate NotesAreLines(notes: seq<Note>) {
    forall i :: 0 <= i < |notes| ==> IsOneLine(notes[i].value)
  }

  /** Trimmed one-line fields, one-line attributes, and outputs in which the reader would act on no line. */
  predicate IsWellFormed(s: Section) {
    && IsPrintable(s.name) && IsPrintable(s.status) && (s.command.Some? ==> IsPrintable(s.command.value))
    && NotesAreLines(s.before) && NotesAreLines(s.after)
    && (s.output.Some? ==> AllNoise(Lines(s.output.value.0)) && AllNoise(Lines(s.output.value.1)))
  }

  function DisplayOf(s: Section): GateDisplay {
    GateDisplay(s.name, s.status, Some(BoolText(s.required)), s.command)
  }

  function DisplaysOf(sections: seq<Section>): (displays: seq<GateDisplay>)
    ensures |displays| == |sections| && forall i :: 0 <= i < |sections| ==> displays[i] == DisplayOf(sections[i])
  {
    seq(|sections|, i requires 0 <= i < |sections| => DisplayOf(sections[i]))
  }

  lemma DisplaysOfLast(sections: seq<Section>)
    requires sections != []
    ensures DisplaysOf(sections) == DisplaysOf(sections[..|sections| - 1]) + [DisplayOf(sections[|sections| - 1])]
  {
  }

  lemma {:induction false} ReadConcat(r: Reader, a: seq<string>, b: seq<string>)
    ensures ReadLines(r, a + b) == ReadLines(ReadLines(r, a), b)
    decreases |a|
  {
    if a == [] {
      assert a + b == b;
    } else {
      assert (a + b)[0] == a[0] && (a + b)[1..] == a[1..] + b;
      ReadConcat(ReadKind(r, KindOf(a[0])), a[1..], b);
    }
  }

  lemma {:induction false} ReadNoise(r: Reader, lines: seq<string>)
    requires AllNoise(lines)
    ensures ReadLines(r, lines) == r
    decreases |lines|
  {
    if lines != [] {
      assert IsNoise(lines[0]) && AllNoise(lines[1..]);
      ReadNoise(r, lines[1..]);
    }
  }

  lemma ReadFirst(r: Reader, line: string, more: seq<string>)
    ensures ReadLines(r, [line] + more) == ReadLines(ReadKind(r, KindOf(line)), more)
  {
    assert ([line] + more)[1..] == more;
  }

  lemma ReadHeading(r: Reader, name: string, more: seq<string>)
    requires IsTrimmed(name)
    ensures ReadLines(r, [HEADING + name] + more) == ReadLines(Reader(Finished(r), Some(Opened(name))), more)
  {
    ReadFirst(r, HEADING + name, more);
    HeadingKind(name);
    TrimKeepsTrimmed(name);
  }

  lemma ReadValue(gates: seq<GateDisplay>, gate: GateDisplay, a: Attribute, value: string, more: seq<string>)
    requires IsTrimmed(value)
    ensures ReadLines(Reader(gates, Some(gate)), [AttributeText(a) + value] + more)
         == ReadLines(Reader(gates, Some(Set(gate, a, value))), more)
  {
    ReadFirst(Reader(gates, Some(gate)), AttributeText(a) + value, more);
    ValueKind(a, value);
    TrimKeepsTrimmed(value);
  }

  lemma ReadNotes(r: Reader, notes: seq<Note>, more: seq<string>)
    ensures ReadLines(r, NoteLines(notes) + more) == ReadLines(r, more)
  {
    ReadConcat(r, NoteLines(notes), more);
    NotesAreNoise(notes);
    ReadNoise(r, NoteLines(notes));
  }

  lemma BoolIsTrimmed(b: bool)
    ensures IsPrintable(BoolText(b))
  {
  }

  lemma ReadCommand(gates: seq<GateDisplay>, name: string, command: Option<string>, more: seq<string>)
    requires command.Some? ==> IsTrimmed(command.value)
    ensures ReadLines(Reader(gates, Some(Opened(name))), CommandLines(command) + more)
         == ReadLines(Reader(gates, Some(Opened(name).(command := command))), more)
  {
    match command
    case None => assert CommandLines(command) + more == more;
    case Some(c) => ReadValue(gates, Opened(name), Command, c, more);
  }

  lemma ReadState(gates: seq<GateDisplay>, gate: GateDisplay, s: Section, more: seq<string>)
    requires IsTrimmed(s.status)
    ensures ReadLines(Reader(gates, Some(gate)), StateLines(s) + more)
         == ReadLines(Reader(gates, Some(Set(Set(gate, Status, s.status), Required, BoolText(s.required)))), more)
  {
    var first, second := AttributeText(Status) + s.status, AttributeText(Required) + BoolText(s.required);
    assert StateLines(s) + more == [first] + ([second] + more);
    BoolIsTrimmed(s.required);
    ReadValue(gates, gate, Status, s.status, [second] + more);
    ReadValue(gates, Set(gate, Status, s.status), Required, BoolText(s.required), more);
  }

  lemma ReadHead(r: Reader, s: Section)
    requires IsWellFormed(s)
    ensures ReadLines(r, HeadLines(s)) == Reader(Finished(r), Some(DisplayOf(s)))
  {
    var gates := Finished(r);
    var state := StateLines(s) + NoteLines(s.after);
    var command := CommandLines(s.command) + state;
    ReadHeading(r, s.name, NoteLines(s.before) + command);
    ReadNotes(Reader(gates, Some(Opened(s.name))), s.before, command);
    ReadCommand(gates, s.name, s.command, state);
    var gate := Opened(s.name).(command := s.command);
    ReadState(gates, gate, s, NoteLines(s.after));
    NotesAreNoise(s.after);
    ReadNoise(Reader(gates, Some(DisplayOf(s))), NoteLines(s.after));
  }

  // ---- From lines to text ----

  lemma ReadTextConcat(r: Reader, a: string, b: string)
    requires EndsLine(a)
    ensures ReadLines(r, Lines(a + b)) == ReadLines(ReadLines(r, Lines(a)), Lines(b))
  {
    LinesConcat(a, b);
    ReadConcat(r, Lines(a), Lines(b));
  }

  lemma TaggedIsLine(tag: string, value: string)
    requires IsOneLine(tag) && IsOneLine(value) && tag != ""
    ensures IsOneLine(tag + value)
  {
  }

  lemma PrintableIsLine(s: string)
    requires IsPrintable(s)
    ensures IsOneLine(s)
  {
    assert IsWhitespace('\r');
  }

  lemma AttributeIsLine(a: Attribute)
    ensures IsOneLine(AttributeText(a)) && AttributeText(a) != ""
  {
  }

  lemma NoteIsLine(n: NoteName)
    ensures IsOneLine(NoteText(n)) && NoteText(n) != ""
  {
  }

  lemma HeadingIsLine()
    ensures IsOneLine(HEADING) && HEADING != ""
  {
  }

  lemma ValueIsLine(a: Attribute, value: string)
    requires IsPrintable(value)
    ensures IsOneLine(AttributeText(a) + value)
  {
    AttributeIsLine(a);
    PrintableIsLine(value);
    TaggedIsLine(AttributeText(a), value);
  }

  lemma NoteLinesAreLines(notes: seq<Note>)
    requires NotesAreLines(notes)
    ensures AllOneLine(NoteLines(notes))
  {
    forall i | 0 <= i < |notes|
      ensures IsOneLine(NoteLines(notes)[i])
    {
      NoteIsLine(notes[i].name);
      TaggedIsLine(NoteText(notes[i].name), notes[i].value);
    }
  }

  lemma AllOneLineConcat(a: seq<string>, b: seq<string>)
    requires AllOneLine(a) && AllOneLine(b)
    ensures AllOneLine(a + b)
  {
  }

  lemma HeadIsLines(s: Section)
    requires IsWellFormed(s)
    ensures AllOneLine(HeadLines(s))
  {
    HeadingIsLine();
    PrintableIsLine(s.name);
    TaggedIsLine(HEADING, s.name);
    NoteLinesAreLines(s.before);
    NoteLinesAreLines(s.after);
    if s.command.Some? {
      ValueIsLine(Command, s.command.value);
    }
    BoolIsTrimmed(s.required);
    ValueIsLine(Status, s.status);
    ValueIsLine(Required, BoolText(s.required));
    AllOneLineConcat(StateLines(s), NoteLines(s.after));
    AllOneLineConcat(CommandLines(s.command), StateLines(s) + NoteLines(s.after));
    AllOneLineConcat(NoteLines(s.before), CommandLines(s.command) + (StateLines(s) + NoteLines(s.after)));
    AllOneLineConcat([HEADING + s.name], NoteLines(s.before) + (CommandLines(s.command) + (StateLines(s) + NoteLines(s.after))));
  }

  /** Complete lines the reader passes over. */
  ghost predicate IsNoiseText(text: string) {
    EndsLine(text) && AllNoise(Lines(text))
  }

  lemma NoiseTextConcat(a: string, b: string)
    requires IsNoiseText(a) && IsNoiseText(b)
    ensures IsNoiseText(a + b)
  {
    LinesConcat(a, b);
  }

  lemma NoiseLinesText(lines: seq<string>)
    requires AllOneLine(lines) && AllNoise(lines)
    ensures IsNoiseText(Unline(lines))
  {
    LinesOfUnline(lines);
    UnlineEnds(lines);
  }

  lemma StrippedIsNoise(line: string)
    requires IsNoise(line)
    ensures IsNoise(StripCarriageReturn(line))
  {
    assert StripCarriageReturn(line) <= line;
  }

  lemma LastLineIsNoise(text: string)
    requires '\n' !in text && AllNoise(Lines(text))
    ensures IsNoiseText(text + "\n")
  {
    FirstLine(text, "");
    assert text + "\n" + "" == text + "\n";
    if text == "" {
      assert IsNoise("");
    } else {
      assert SplitOnce(text, '\n').None?;
      assert Lines(text)[0] == text;
      StrippedIsNoise(text);
    }
  }

  lemma FirstIsNoise(line: string, rest: string)
    requires '\n' !in line
    ensures AllNoise(Lines(line + "\n" + rest)) <==> IsNoise(StripCarriageReturn(line)) && AllNoise(Lines(rest))
  {
    FirstLine(line, rest);
    ConsIsNoise(StripCarriageReturn(line), Lines(rest));
  }

  lemma ConsIsNoise(line: string, lines: seq<string>)
    ensures AllNoise([line] + lines) <==> IsNoise(line) && AllNoise(lines)
  {
    var all := [line] + lines;
    assert all[0] == line && forall i :: 0 <= i < |lines| ==> lines[i] == all[i + 1];
  }

  lemma EndsLineConcat(a: string, b: string)
    requires EndsLine(a) && EndsLine(b)
    ensures EndsLine(a + b)
  {
  }

  /** Output the reader passes over stays so when the newline that ends it is added. */
  lemma {:induction false} CompletedIsNoise(text: string)
    requires AllNoise(Lines(text))
    ensures IsNoiseText(text + "\n")
    decreases |text|
  {
    if '\n' !in text {
      LastLineIsNoise(text);
    } else {
      var line, rest := CutLine(text);
      FirstIsNoise(line, rest);
      CompletedIsNoise(rest);
      FirstIsNoise(line, rest + "\n");
      Reassociate(line + "\n", rest, "\n");
      EndsLineConcat(line + "\n", rest + "\n");
    }
  }

  lemma FramesStart()
    ensures IsNoise("stdout:") && IsNoise("stderr:") && IsOneLine("stdout:") && IsOneLine("stderr:")
  {
    assert AttributeText(Status)[2] == 'a' && AttributeText(Required)[0] == 'r' && AttributeText(Command)[0] == 'c';
    assert "stdout:"[2] == 'd' && "stderr:"[2] == 'd' && HEADING[0] == '#';
  }

  lemma BlankAndLine(line: string)
    requires IsOneLine(line) && IsNoise(line)
    ensures IsNoiseText(Unline([line, ""])) && IsNoiseText(Unline(["", line]))
  {
    BlankIsNoise();
    NoiseLinesText([line, ""]);
    NoiseLinesText(["", line]);
  }

  lemma BlankIsNoise()
    ensures IsNoise("") && IsOneLine("") && IsNoiseText(Unline([""]))
  {
    assert IsNoise("");
    NoiseLinesText([""]);
  }

  lemma FramesAreNoise()
    ensures IsNoiseText(Unline(["", "stdout:"])) && IsNoiseText(Unline(["", "stderr:"])) && IsNoiseText(Unline([""]))
  {
    FramesStart();
    BlankIsNoise();
    BlankAndLine("stdout:");
    BlankAndLine("stderr:");
  }

  lemma TailIsNoise(s: Section)
    requires IsWellFormed(s)
    ensures IsNoiseText(TailText(s))
  {
    FramesAreNoise();
    if s.output.Some? {
      var (stdout, stderr) := s.output.value;
      CompletedIsNoise(stdout);
      CompletedIsNoise(stderr);
      var last := (stderr + "\n") + Unline([""]);
      NoiseTextConcat(stderr + "\n", Unline([""]));
      NoiseTextConcat(Unline(["", "stderr:"]), last);
      NoiseTextConcat(stdout + "\n", Unline(["", "stderr:"]) + last);
      NoiseTextConcat(Unline(["", "stdout:"]), (stdout + "\n") + (Unline(["", "stderr:"]) + last));
    }
  }

  /** Whatever came before it, a printed section is read as one gate with its fields. */
  lemma ReadSection(r: Reader, s: Section)
    requires IsWellFormed(s)
    ensures ReadLines(r, Lines(SectionText(s))) == Reader(Finished(r), Some(DisplayOf(s)))
    ensures EndsLine(SectionText(s))
  {
    var head := HeadLines(s);
    HeadIsLines(s);
    LinesOfUnline(head);
    UnlineEnds(head);
    TailIsNoise(s);
    ReadTextConcat(r, Unline(head), TailText(s));
    ReadHead(r, s);
    ReadNoise(Reader(Finished(r), Some(DisplayOf(s))), Lines(TailText(s)));
  }

  ghost predicate AllWellFormed(sections: seq<Section>) {
    forall i :: 0 <= i < |sections| ==> IsWellFormed(sections[i])
  }

  lemma ReadOneMore(before: string, s: Section)
    requires EndsLine(before) && IsWellFormed(s)
    ensures Finished(ReadLines(START, Lines(before + SectionText(s))))
         == Finished(ReadLines(START, Lines(before))) + [DisplayOf(s)]
    ensures EndsLine(before + SectionText(s))
  {
    ReadTextConcat(START, before, SectionText(s));
    ReadSection(ReadLines(START, Lines(before)), s);
    EndsLineConcat(before, SectionText(s));
  }

  lemma LastSection(sections: seq<Section>, section: Section)
    ensures SectionsText(sections + [section]) == SectionsText(sections) + SectionText(section)
  {
    assert (sections + [section])[..|sections|] == sections;
  }

  lemma {:induction false} ReadSections(sections: seq<Section>)
    requires AllWellFormed(sections)
    ensures Finished(ReadLines(START, Lines(SectionsText(sections)))) == DisplaysOf(sections)
    ensures EndsLine(SectionsText(sections))
    decreases |sections|
  {
    if sections != [] {
      var n := |sections| - 1;
      ReadSections(sections[..n]);
      ReadOneMore(SectionsText(sections[..n]), sections[n]);
      DisplaysOfLast(sections);
    }
  }

  /**
    A report is a preamble, the sections and an epilogue.  The reader gets back exactly the printed gates, in
    order, with name, status, required flag and command (none for a gate printed without one).
  */
  lemma ReportRoundTrip(preamble: string, sections: seq<Section>, epilogue: string)
    requires IsNoiseText(preamble) && AllWellFormed(sections) && AllNoise(Lines(epilogue))
    ensures ParsedGates(preamble + (SectionsText(sections) + epilogue)) == DisplaysOf(sections)
  {
    var body := SectionsText(sections);
    ReadSections(sections);
    ReadTextConcat(START, preamble, body + epilogue);
    ReadNoise(START, Lines(preamble));
    ReadTextConcat(START, body, epilogue);
    ReadNoise(ReadLines(START, Lines(body)), Lines(epilogue));
  }
}
