/** Running the quality gates of a repository and reporting on them. */
module GateRunner {
  import opened Text
  import opened Wrappers
  import opened GateOptIns
  import opened GateReport
  import opened Sequences

  datatype QualityCommand = QualityCommand(name: string, command: string, required: bool, finalGate: bool)

  datatype Inspection = Inspection(heading: seq<string>, plan: seq<QualityCommand>, domainPlan: seq<DomainGate>)

  datatype CommandOutput = CommandOutput(executed: string, status: string, success: bool, stdout: string, stderr: string)

  datatype GateError =
    | NoPlan
    | CommandError(reason: string)
    | GateFailed(gate: string, status: string, guidance: Option<string>)
    | DomainGateFailed(gate: string, status: string, degraded: bool)

  datatype RunStatus = RunStatus(success: bool, failedReason: Option<GateError>)

  // ---- The combined plan ----

  /** The old plan is dropped once a language gate with a command exists. */
  predicate IsMigrated(inspection: Inspection) {
    (exists gate :: gate in inspection.domainPlan && "language." <= gate.domain && gate.command.Some?)
    && inspection.plan != []
  }

  datatype Job = Legacy(legacy: QualityCommand) | Typed(gate: DomainGate)

  function Jobs(inspection: Inspection): (jobs: seq<Job>) {
    var typed := seq(|inspection.domainPlan|, i requires 0 <= i < |inspection.domainPlan| => Typed(inspection.domainPlan[i]));
    if IsMigrated(inspection) then typed
    else seq(|inspection.plan|, i requires 0 <= i < |inspection.plan| => Legacy(inspection.plan[i])) + typed
  }

  /** One run: its jobs, the opt-ins, and what the n-th command since the program started would answer. */
  datatype GateRun = GateRun(jobs: seq<Job>, optIns: seq<string>, first: nat,
                             answers: (nat, string, string) -> Result<CommandOutput, string>,
                             guidance: (string, string, string) -> Option<string>)

  predicate IsGuarded(gate: DomainGate) {
    gate.optInRequired || gate.networkRequired || gate.credentialRequired
  }

  predicate IsRequired(job: Job) {
    match job
    case Legacy(c) => c.required
    case Typed(g) => g.required
  }

  /** The name and command a job hands to the shell, if it does. */
  function CallOf(job: Job, optIns: seq<string>): Option<(string, string)> {
    match job
    case Legacy(c) => Some((c.name, c.command))
    case Typed(g) =>
      if g.command.None? || (IsGuarded(g) && !IsEnabled(g, optIns)) then None else Some((g.name, g.command.value))
  }

  /** The commands handed over by the first `k` jobs. */
  function Calls(g: GateRun, k: nat): (calls: seq<(string, string)>)
    requires k <= |g.jobs|
  {
    if k == 0 then []
    else Calls(g, k - 1) + match CallOf(g.jobs[k - 1], g.optIns) case None => [] case Some(call) => [call]
  }

  function AnswerTo(g: GateRun, k: nat): Option<Result<CommandOutput, string>>
    requires k < |g.jobs|
  {
    match CallOf(g.jobs[k], g.optIns)
    case None => None
    case Some((name, command)) => Some(g.answers(g.first + |Calls(g, k)|, name, command))
  }

  function LegacySection(c: QualityCommand, o: CommandOutput): Section {
    Section(c.name, [], Some(o.executed), o.status, c.required, [Note(FinalGate, BoolText(c.finalGate))], Some((o.stdout, o.stderr)))
  }

  function Origin(gate: DomainGate): seq<Note> {
    [Note(Domain, gate.domain), Note(Tool, gate.tool)]
  }

  function DomainName(gate: DomainGate): string {
    "domain:" + gate.name
  }

  function FindingSection(gate: DomainGate): Section {
    Section(DomainName(gate), Origin(gate), None, "finding-only", gate.required, [Note(SetupGuidance, gate.setupGuidance)], None)
  }

  function SkippedSection(gate: DomainGate, command: string): Section {
    Section(DomainName(gate), Origin(gate), Some(command), "skipped", gate.required,
            [Note(OptInRequired, BoolText(gate.optInRequired)), Note(NetworkRequired, BoolText(gate.networkRequired)),
             Note(CredentialRequired, BoolText(gate.credentialRequired)), Note(EnabledByConfig, "false"),
             Note(SetupGuidance, gate.setupGuidance)], None)
  }

  function ExecutedSection(gate: DomainGate, enabled: bool, o: CommandOutput): Section {
    Section(DomainName(gate), Origin(gate), Some(o.executed), o.status, gate.required,
            [Note(Mutates, BoolText(gate.mutates)), Note(EnabledByConfig, BoolText(enabled))], Some((o.stdout, o.stderr)))
  }

  /** What job `k` adds to the report; nothing if its command could not be run. */
  function SectionAt(g: GateRun, k: nat): seq<Section>
    requires k < |g.jobs|
  {
    match AnswerTo(g, k)
    case Some(Err(_)) => []
    case Some(Ok(o)) =>
      [match g.jobs[k] case Legacy(c) => LegacySection(c, o) case Typed(gate) => ExecutedSection(gate, IsEnabled(gate, g.optIns), o)]
    case None =>
      match g.jobs[k]
      case Legacy(_) => []
      case Typed(gate) => [if gate.command.None? then FindingSection(gate) else SkippedSection(gate, gate.command.value)]
  }

  function Sections(g: GateRun, k: nat): seq<Section>
    requires k <= |g.jobs|
  {
    if k == 0 then [] else Sections(g, k - 1) + SectionAt(g, k - 1)
  }

  /** Job `k` ends the run: its command cannot be run, or it is required and fails. */
  predicate Stops(g: GateRun, k: nat)
    requires k < |g.jobs|
  {
    match AnswerTo(g, k)
    case None => false
    case Some(Err(_)) => true
    case Some(Ok(o)) => IsRequired(g.jobs[k]) && !o.success
  }

  /** What the failure of job `k` makes the runner advise. */
  function GuidanceAt(g: GateRun, k: nat): Option<string>
    requires k < |g.jobs|
  {
    match AnswerTo(g, k)
    case Some(Ok(o)) =>
      (match g.jobs[k]
       case Legacy(c) => g.guidance(c.name, o.stdout, o.stderr)
       case Typed(_) => None)
    case _ => None
  }

  function ErrorAt(g: GateRun, k: nat): GateError
    requires k < |g.jobs| && Stops(g, k)
  {
    match AnswerTo(g, k).value
    case Err(reason) => CommandError(reason)
    case Ok(o) =>
      match g.jobs[k]
      case Legacy(c) => GateFailed(c.name, o.status, GuidanceAt(g, k))
      case Typed(gate) => DomainGateFailed(gate.name, o.status, gate.degradedIfMissing)
  }

  function GuidanceText(guidance: Option<string>): string {
    match guidance
    case None => ""
    case Some(text) => Unline(["", "network_guidance:"]) + (text + "\n")
  }

  function HeadingText(inspection: Inspection): string {
    Unline(inspection.heading + [""])
  }

  function MigratedText(): string {
    Unline(["legacy_stack_quality_plan=" + "migrated_to_typed_domain_gates", ""])
  }

  function Preamble(inspection: Inspection): string {
    if IsMigrated(inspection) then HeadingText(inspection) + MigratedText() else HeadingText(inspection)
  }

  function Printed(preamble: string, sections: seq<Section>): string {
    preamble + SectionsText(sections)
  }

  method Print(report: string, section: Section, ghost preamble: string, ghost sections: seq<Section>) returns (longer: string)
    requires report == Printed(preamble, sections)
    ensures longer == Printed(preamble, sections + [section])
  {
    LastSection(sections, section);
    Reassociate(preamble, SectionsText(sections), SectionText(section));
    longer := report + SectionText(section);
  }

  // ---- Running ----

  /** The commands that were run so far, the report file and the status file. */
  class GateHost {
    const answers: (nat, string, string) -> Result<CommandOutput, string>
    var calls: seq<(string, string)>
    var report: Option<string>
    var status: Option<RunStatus>

    constructor (answers: (nat, string, string) -> Result<CommandOutput, string>)
      ensures this.answers == answers && calls == [] && report == None && status == None
    {
      this.answers := answers;
      calls, report, status := [], None, None;
    }

    /** `run_quality_command`. */
    method Run(name: string, command: string) returns (answer: Result<CommandOutput, string>)
      modifies `calls
      ensures calls == old(calls) + [(name, command)] && answer == answers(|old(calls)|, name, command)
    {
      answer := answers(|calls|, name, command);
      calls := calls + [(name, command)];
    }

    /** `write_quality_status` before an error is returned. */
    method Fail(error: GateError) returns (r: Result<(), GateError>)
      modifies `status
      ensures r == Err(error) && status == Some(RunStatus(false, Some(error)))
    {
      status := Some(RunStatus(false, Some(error)));
      r := Err(error);
    }
  }

  /** Nothing stopped the run before job `k`, and the host has seen what the first `k` jobs did. */
  ghost predicate Progress(g: GateRun, preamble: string, written: bool, k: nat, report: string, calls: seq<(string, string)>,
                           file: Option<string>, was: seq<(string, string)>, oldFile: Option<string>) {
    && k <= |g.jobs| && g.first == |was| && (forall j :: 0 <= j < k ==> !Stops(g, j))
    && report == Printed(preamble, Sections(g, k)) && calls == was + Calls(g, k)
    && file == (if written || k > 0 then Some(report) else oldFile)
  }

  /** Job `k` was the first to end the run. */
  ghost predicate StoppedAt(g: GateRun, preamble: string, written: bool, k: nat, calls: seq<(string, string)>,
                            file: Option<string>, was: seq<(string, string)>, oldFile: Option<string>) {
    && k < |g.jobs| && Stops(g, k) && (forall j :: 0 <= j < k ==> !Stops(g, j))
    && calls == was + Calls(g, k + 1)
    && file == (if written || k > 0 || AnswerTo(g, k).value.Ok?
                then Some(Printed(preamble, Sections(g, k + 1)) + GuidanceText(GuidanceAt(g, k))) else oldFile)
  }

  /** Every job was passed. */
  ghost predicate HasPassed(g: GateRun, preamble: string, calls: seq<(string, string)>, file: Option<string>,
                            was: seq<(string, string)>) {
    && (forall k :: 0 <= k < |g.jobs| ==> !Stops(g, k)) && calls == was + Calls(g, |g.jobs|)
    && file == Some(Printed(preamble, Sections(g, |g.jobs|)))
  }

  /** Some job was the first to end the run, with this error. */
  ghost predicate HasStopped(g: GateRun, preamble: string, written: bool, error: GateError, calls: seq<(string, string)>,
                             file: Option<string>, was: seq<(string, string)>, oldFile: Option<string>) {
    exists k :: StoppedAt(g, preamble, written, k, calls, file, was, oldFile) && error == ErrorAt(g, k)
  }

  /** Calls made so far, when job `k` has just been handed over. */
  ghost predicate Called(g: GateRun, k: nat, calls: seq<(string, string)>, was: seq<(string, string)>)
    requires k < |g.jobs|
  {
    calls == was + Calls(g, k + 1)
  }

  lemma NotRun(g: GateRun, preamble: string, written: bool, k: nat, report: string, calls: seq<(string, string)>,
               file: Option<string>, was: seq<(string, string)>, oldFile: Option<string>)
    requires k < |g.jobs| && AnswerTo(g, k).Some? && AnswerTo(g, k).value.Err?
    requires Progress(g, preamble, written, k, report, was + Calls(g, k), file, was, oldFile) && Called(g, k, calls, was)
    ensures StoppedAt(g, preamble, written, k, calls, file, was, oldFile)
  {
    assert Sections(g, k + 1) == Sections(g, k);
    assert report + "" == report;
  }

  lemma Failed(g: GateRun, preamble: string, written: bool, k: nat, report: string, calls: seq<(string, string)>,
               was: seq<(string, string)>, oldFile: Option<string>, section: Section, longer: string)
    requires k < |g.jobs| && Stops(g, k) && AnswerTo(g, k).value.Ok? && SectionAt(g, k) == [section]
    requires forall j :: 0 <= j < k ==> !Stops(g, j)
    requires longer == Printed(preamble, Sections(g, k) + [section]) && Called(g, k, calls, was)
    ensures StoppedAt(g, preamble, written, k, calls, Some(longer + GuidanceText(GuidanceAt(g, k))), was, oldFile)
  {
  }

  lemma Passed(g: GateRun, preamble: string, written: bool, k: nat, calls: seq<(string, string)>,
               was: seq<(string, string)>, oldFile: Option<string>, section: Section, longer: string)
    requires k < |g.jobs| && !Stops(g, k) && SectionAt(g, k) == [section] && g.first == |was|
    requires forall j :: 0 <= j < k ==> !Stops(g, j)
    requires longer == Printed(preamble, Sections(g, k) + [section]) && Called(g, k, calls, was)
    ensures Progress(g, preamble, written, k + 1, longer, calls, Some(longer), was, oldFile)
  {
  }

  lemma Answered(g: GateRun, k: nat, call: (string, string), was: seq<(string, string)>)
    requires k < |g.jobs| && CallOf(g.jobs[k], g.optIns) == Some(call) && g.first == |was|
    ensures AnswerTo(g, k) == Some(g.answers(|was + Calls(g, k)|, call.0, call.1))
    ensures Called(g, k, (was + Calls(g, k)) + [call], was)
  {
  }

  lemma NotCalled(g: GateRun, k: nat, was: seq<(string, string)>)
    requires k < |g.jobs| && CallOf(g.jobs[k], g.optIns) == None
    ensures AnswerTo(g, k) == None && Called(g, k, was + Calls(g, k), was)
  {
    assert Calls(g, k + 1) == Calls(g, k);
  }

  method RunLegacyGate(c: QualityCommand, guidance: (string, string, string) -> Option<string>, report: string, host: GateHost,
                       ghost g: GateRun, ghost preamble: string, ghost written: bool, ghost k: nat,
                       ghost was: seq<(string, string)>, ghost oldFile: Option<string>)
    returns (longer: string, failed: Option<GateError>)
    requires k < |g.jobs| && g.jobs[k] == Legacy(c) && g.answers == host.answers && g.guidance == guidance
    requires Progress(g, preamble, written, k, report, host.calls, host.report, was, oldFile)
    modifies host
    ensures failed.None? ==> Progress(g, preamble, written, k + 1, longer, host.calls, host.report, was, oldFile)
    ensures failed.None? ==> host.status == old(host.status)
    ensures failed.Some? ==> HasStopped(g, preamble, written, failed.value, host.calls, host.report, was, oldFile)
    ensures failed.Some? ==> host.status == Some(RunStatus(false, failed))
  {
    Answered(g, k, (c.name, c.command), was);
    var answer := host.Run(c.name, c.command);
    if answer.Err? {
      NotRun(g, preamble, written, k, report, host.calls, host.report, was, oldFile);
      var _ := host.Fail(CommandError(answer.error));
      return report, Some(CommandError(answer.error));
    }
    var output := answer.value;
    longer := Print(report, LegacySection(c, output), preamble, Sections(g, k));
    host.report := Some(longer);
    if c.required && !output.success {
      Failed(g, preamble, written, k, report, host.calls, was, oldFile, LegacySection(c, output), longer);
      assert longer + "" == longer;
      var text := guidance(c.name, output.stdout, output.stderr);
      if text.Some? {
        longer := longer + GuidanceText(text);
        host.report := Some(longer);
      }
      var error := GateFailed(c.name, output.status, text);
      var _ := host.Fail(error);
      return longer, Some(error);
    }
    Passed(g, preamble, written, k, host.calls, was, oldFile, LegacySection(c, output), longer);
    failed := None;
  }

  /** A gate that is reported without being run. */
  method ReportOnly(section: Section, report: string, host: GateHost, ghost g: GateRun, ghost preamble: string,
                    ghost written: bool, ghost k: nat, ghost was: seq<(string, string)>, ghost oldFile: Option<string>)
    returns (longer: string)
    requires k < |g.jobs| && CallOf(g.jobs[k], g.optIns) == None && SectionAt(g, k) == [section]
    requires Progress(g, preamble, written, k, report, host.calls, host.report, was, oldFile)
    modifies host`report
    ensures Progress(g, preamble, written, k + 1, longer, host.calls, host.report, was, oldFile)
  {
    NotCalled(g, k, was);
    longer := Print(report, section, preamble, Sections(g, k));
    host.report := Some(longer);
    Passed(g, preamble, written, k, host.calls, was, oldFile, section, longer);
  }

  /** A typed gate whose command is run. */
  method RunTypedCommand(gate: DomainGate, command: string, enabled: bool, report: string, host: GateHost,
                         ghost g: GateRun, ghost preamble: string, ghost written: bool, ghost k: nat,
                         ghost was: seq<(string, string)>, ghost oldFile: Option<string>)
    returns (longer: string, failed: Option<GateError>)
    requires k < |g.jobs| && g.jobs[k] == Typed(gate) && g.answers == host.answers && enabled == IsEnabled(gate, g.optIns)
    requires CallOf(g.jobs[k], g.optIns) == Some((gate.name, command))
    requires Progress(g, preamble, written, k, report, host.calls, host.report, was, oldFile)
    modifies host
    ensures failed.None? ==> Progress(g, preamble, written, k + 1, longer, host.calls, host.report, was, oldFile)
    ensures failed.None? ==> host.status == old(host.status)
    ensures failed.Some? ==> HasStopped(g, preamble, written, failed.value, host.calls, host.report, was, oldFile)
    ensures failed.Some? ==> host.status == Some(RunStatus(false, failed))
  {
    Answered(g, k, (gate.name, command), was);
    var answer := host.Run(gate.name, command);
    if answer.Err? {
      NotRun(g, preamble, written, k, report, host.calls, host.report, was, oldFile);
      var _ := host.Fail(CommandError(answer.error));
      return report, Some(CommandError(answer.error));
    }
    var output := answer.value;
    longer := Print(report, ExecutedSection(gate, enabled, output), preamble, Sections(g, k));
    host.report := Some(longer);
    if gate.required && !output.success {
      Failed(g, preamble, written, k, report, host.calls, was, oldFile, ExecutedSection(gate, enabled, output), longer);
      assert longer + "" == longer;
      var error := DomainGateFailed(gate.name, output.status, gate.degradedIfMissing);
      var _ := host.Fail(error);
      return longer, Some(error);
    }
    Passed(g, preamble, written, k, host.calls, was, oldFile, ExecutedSection(gate, enabled, output), longer);
    failed := None;
  }

  method RunDomainGate(gate: DomainGate, optIns: seq<string>, report: string, host: GateHost,
                       ghost g: GateRun, ghost preamble: string, ghost written: bool, ghost k: nat,
                       ghost was: seq<(string, string)>, ghost oldFile: Option<string>)
    returns (longer: string, failed: Option<GateError>)
    requires k < |g.jobs| && g.jobs[k] == Typed(gate) && g.answers == host.answers && g.optIns == optIns
    requires Progress(g, preamble, written, k, report, host.calls, host.report, was, oldFile)
    modifies host
    ensures failed.None? ==> Progress(g, preamble, written, k + 1, longer, host.calls, host.report, was, oldFile)
    ensures failed.None? ==> host.status == old(host.status)
    ensures failed.Some? ==> HasStopped(g, preamble, written, failed.value, host.calls, host.report, was, oldFile)
    ensures failed.Some? ==> host.status == Some(RunStatus(false, failed))
  {
    if gate.command.None? {
      longer := ReportOnly(FindingSection(gate), report, host, g, preamble, written, k, was, oldFile);
      return longer, None;
    }
    var enabled := IsEnabled(gate, optIns);
    if (gate.optInRequired || gate.networkRequired || gate.credentialRequired) && !enabled {
      longer := ReportOnly(SkippedSection(gate, gate.command.value), report, host, g, preamble, written, k, was, oldFile);
      return longer, None;
    }
    longer, failed := RunTypedCommand(gate, gate.command.value, enabled, report, host, g, preamble, written, k, was, oldFile);
  }

  /** The loop over the old plan; job `i` of the run is its command `i`. */
  method RunLegacyPlan(plan: seq<QualityCommand>, guidance: (string, string, string) -> Option<string>, report: string,
                       host: GateHost, ghost g: GateRun, ghost preamble: string, ghost oldFile: Option<string>)
    returns (longer: string, failed: Option<GateError>)
    requires |plan| <= |g.jobs| && forall i :: 0 <= i < |plan| ==> g.jobs[i] == Legacy(plan[i])
    requires g.answers == host.answers && g.guidance == guidance
    requires Progress(g, preamble, false, 0, report, host.calls, host.report, host.calls, oldFile)
    modifies host
    ensures failed.None? ==> Progress(g, preamble, false, |plan|, longer, host.calls, host.report, old(host.calls), oldFile)
    ensures failed.Some? ==> HasStopped(g, preamble, false, failed.value, host.calls, host.report, old(host.calls), oldFile)
    ensures failed.Some? ==> host.status == Some(RunStatus(false, failed))
  {
    ghost var was := host.calls;
    longer := report;
    for i := 0 to |plan|
      invariant Progress(g, preamble, false, i, longer, host.calls, host.report, was, oldFile)
    {
      longer, failed := RunLegacyGate(plan[i], guidance, longer, host, g, preamble, false, i, was, oldFile);
      if failed.Some? {
        return;
      }
    }
    failed := None;
  }

  /** The loop over the typed gates, which follow `m` commands of the old plan. */
  method RunDomainPlan(plan: seq<DomainGate>, optIns: seq<string>, report: string, host: GateHost, ghost g: GateRun,
                       ghost preamble: string, ghost written: bool, ghost m: nat, ghost was: seq<(string, string)>,
                       ghost oldFile: Option<string>)
    returns (longer: string, failed: Option<GateError>)
    requires |g.jobs| == m + |plan| && forall i :: 0 <= i < |plan| ==> g.jobs[m + i] == Typed(plan[i])
    requires g.answers == host.answers && g.optIns == optIns
    requires Progress(g, preamble, written, m, report, host.calls, host.report, was, oldFile)
    modifies host
    ensures failed.None? ==> Progress(g, preamble, written, |g.jobs|, longer, host.calls, host.report, was, oldFile)
    ensures failed.Some? ==> HasStopped(g, preamble, written, failed.value, host.calls, host.report, was, oldFile)
    ensures failed.Some? ==> host.status == Some(RunStatus(false, failed))
  {
    ghost var k := m;
    longer := report;
    failed := None;
    for i := 0 to |plan|
      invariant k == m + i && failed == None
      invariant Progress(g, preamble, written, k, longer, host.calls, host.report, was, oldFile)
    {
      longer, failed := RunDomainGate(plan[i], optIns, longer, host, g, preamble, written, k, was, oldFile);
      if failed.Some? {
        return;
      }
      k := k + 1;
    }
  }

  predicate HasNoPlan(inspection: Inspection) {
    inspection.plan == [] && inspection.domainPlan == []
  }

  function EmptyPlanText(): string {
    "quality_plan=empty\n"
  }

  function RunOf(inspection: Inspection, optIns: seq<string>, first: nat,
                 answers: (nat, string, string) -> Result<CommandOutput, string>,
                 guidance: (string, string, string) -> Option<string>): GateRun {
    GateRun(Jobs(inspection), optIns, first, answers, guidance)
  }

  lemma AllPassed(g: GateRun, preamble: string, written: bool, report: string, calls: seq<(string, string)>,
                  file: Option<string>, was: seq<(string, string)>, oldFile: Option<string>)
    requires Progress(g, preamble, written, |g.jobs|, report, calls, file, was, oldFile) && (written || g.jobs != [])
    ensures HasPassed(g, preamble, calls, file, was)
  {
  }

  /** How many jobs of the run come from the old plan. */
  function OldJobs(inspection: Inspection): nat {
    if IsMigrated(inspection) then 0 else |inspection.plan|
  }

  /** The old plan, or the note that it was migrated. */
  method RunOldPlan(inspection: Inspection, guidance: (string, string, string) -> Option<string>, heading: string,
                    host: GateHost, ghost g: GateRun)
    returns (report: string, failed: Option<GateError>)
    requires heading == HeadingText(inspection) && g.jobs == Jobs(inspection) && g.first == |host.calls|
    requires g.answers == host.answers && g.guidance == guidance
    modifies host
    ensures failed.None? ==> Progress(g, Preamble(inspection), IsMigrated(inspection), OldJobs(inspection), report,
                                      host.calls, host.report, old(host.calls), old(host.report))
    ensures failed.Some? ==> HasStopped(g, Preamble(inspection), IsMigrated(inspection), failed.value,
                                        host.calls, host.report, old(host.calls), old(host.report))
    ensures failed.Some? ==> host.status == Some(RunStatus(false, failed))
  {
    ghost var was, oldFile := host.calls, host.report;
    report := heading;
    var typedLanguageGatesPresent :=
      exists gate :: gate in inspection.domainPlan && "language." <= gate.domain && gate.command.Some?;
    if typedLanguageGatesPresent && inspection.plan != [] {
      report := report + MigratedText();
      host.report := Some(report);
      ProgressStart(g, report, true, Some(report), was, oldFile);
      failed := None;
    } else {
      ProgressStart(g, report, false, oldFile, was, oldFile);
      report, failed := RunLegacyPlan(inspection.plan, guidance, report, host, g, report, oldFile);
    }
  }

  lemma JobsAre(inspection: Inspection)
    ensures |Jobs(inspection)| == OldJobs(inspection) + |inspection.domainPlan|
    ensures forall i :: 0 <= i < |inspection.domainPlan| ==>
              Jobs(inspection)[OldJobs(inspection) + i] == Typed(inspection.domainPlan[i])
    ensures !HasNoPlan(inspection) ==> IsMigrated(inspection) || Jobs(inspection) != []
  {
  }

  /** Both plans, when they are not both empty. */
  method RunPlans(inspection: Inspection, optIns: seq<string>, guidance: (string, string, string) -> Option<string>,
                  heading: string, host: GateHost, ghost g: GateRun)
    returns (failed: Option<GateError>)
    requires !HasNoPlan(inspection) && heading == HeadingText(inspection)
    requires g.jobs == Jobs(inspection) && g.optIns == optIns && g.first == |host.calls|
    requires g.answers == host.answers && g.guidance == guidance
    modifies host
    ensures failed.Some? ==> host.status == Some(RunStatus(false, failed))
    ensures failed.None? ==> HasPassed(g, Preamble(inspection), host.calls, host.report, old(host.calls))
    ensures failed.Some? ==> HasStopped(g, Preamble(inspection), IsMigrated(inspection), failed.value, host.calls,
                                        host.report, old(host.calls), old(host.report))
  {
    JobsAre(inspection);
    ghost var was, oldFile, preamble, written := host.calls, host.report, Preamble(inspection), IsMigrated(inspection);
    var report;
    report, failed := RunOldPlan(inspection, guidance, heading, host, g);
    if failed.None? {
      report, failed := RunDomainPlan(inspection.domainPlan, optIns, report, host, g, preamble, written,
                                      OldJobs(inspection), was, oldFile);
      if failed.None? {
        AllPassed(g, preamble, written, report, host.calls, host.report, was, oldFile);
      }
    }
  }

  // ---- Which answers end a run ----

  /**
    A command of the old plan ends the run exactly when it cannot be run, or is required and does not succeed; and
    what the error then says.
  */
  lemma OldCommandStopsIff(g: GateRun, k: nat, c: QualityCommand)
    requires k < |g.jobs| && g.jobs[k] == Legacy(c)
    ensures match g.answers(g.first + |Calls(g, k)|, c.name, c.command)
            case Err(reason) => Stops(g, k) && ErrorAt(g, k) == CommandError(reason)
            case Ok(o) =>
              && (Stops(g, k) <==> c.required && !o.success)
              && (c.required && !o.success ==> ErrorAt(g, k) == GateFailed(c.name, o.status, g.guidance(c.name, o.stdout, o.stderr)))
  {
  }

  /**
    A typed gate ends the run exactly when it has a command, may be run, and that cannot be run, or the gate is
    required and it does not succeed.
  */
  lemma TypedGateStopsIff(g: GateRun, k: nat, gate: DomainGate)
    requires k < |g.jobs| && g.jobs[k] == Typed(gate)
    ensures if gate.command.None?
               || ((gate.optInRequired || gate.networkRequired || gate.credentialRequired) && !IsEnabled(gate, g.optIns)) then
              !Stops(g, k)
            else
              match g.answers(g.first + |Calls(g, k)|, gate.name, gate.command.value)
              case Err(reason) => Stops(g, k) && ErrorAt(g, k) == CommandError(reason)
              case Ok(o) =>
                && (Stops(g, k) <==> gate.required && !o.success)
                && (gate.required && !o.success ==>
                      ErrorAt(g, k) == DomainGateFailed(gate.name, o.status, gate.degradedIfMissing))
  {
  }

  /** The job's command succeeds, or runs at least and is not required, or is not to be run. */
  predicate JobPasses(g: GateRun, k: nat)
    requires k < |g.jobs|
  {
    match g.jobs[k]
    case Legacy(c) =>
      var answer := g.answers(g.first + |Calls(g, k)|, c.name, c.command);
      answer.Ok? && (c.required ==> answer.value.success)
    case Typed(gate) =>
      gate.command.Some?
      && (gate.optInRequired || gate.networkRequired || gate.credentialRequired ==> IsEnabled(gate, g.optIns)) ==>
        var answer := g.answers(g.first + |Calls(g, k)|, gate.name, gate.command.value);
        answer.Ok? && (gate.required ==> answer.value.success)
  }

  ghost predicate AllJobsPass(g: GateRun) {
    forall k :: 0 <= k < |g.jobs| ==> JobPasses(g, k)
  }

  lemma AllPassIff(g: GateRun)
    ensures AllJobsPass(g) <==> forall k :: 0 <= k < |g.jobs| ==> !Stops(g, k)
  {
    forall k | 0 <= k < |g.jobs|
      ensures JobPasses(g, k) <==> !Stops(g, k)
    {
      JobPassesIff(g, k);
    }
  }

  lemma JobPassesIff(g: GateRun, k: nat)
    requires k < |g.jobs|
    ensures JobPasses(g, k) <==> !Stops(g, k)
  {
    match g.jobs[k]
    case Legacy(c) => OldCommandStopsIff(g, k, c);
    case Typed(gate) => TypedGateStopsIff(g, k, gate);
  }

  /**
    `run_quality_gates_to_report`, with file writes that succeed.  It returns Ok exactly when there is a plan and
    all of its jobs pass; what was run and what the report file holds then covers every job, and otherwise exactly the
    jobs up to the first that did not pass.  The status file repeats the result.
  */
  method RunQualityGates(inspection: Inspection, optIns: seq<string>, guidance: (string, string, string) -> Option<string>,
                         host: GateHost)
    returns (r: Result<(), GateError>)
    modifies host
    ensures host.status == Some(RunStatus(r.Ok?, if r.Ok? then None else Some(r.error)))
    ensures HasNoPlan(inspection) ==>
              r == Err(NoPlan) && host.calls == old(host.calls)
              && host.report == Some(HeadingText(inspection) + EmptyPlanText())
    ensures var g := RunOf(inspection, optIns, |old(host.calls)|, host.answers, guidance);
            r.Ok? <==> (inspection.plan != [] || inspection.domainPlan != []) && AllJobsPass(g)
    ensures !HasNoPlan(inspection) ==>
              var g := RunOf(inspection, optIns, |old(host.calls)|, host.answers, guidance);
              if r.Ok? then HasPassed(g, Preamble(inspection), host.calls, host.report, old(host.calls))
              else HasStopped(g, Preamble(inspection), IsMigrated(inspection), r.error, host.calls, host.report,
                              old(host.calls), old(host.report))
  {
    var report := HeadingText(inspection);
    if inspection.plan == [] && inspection.domainPlan == [] {
      report := report + EmptyPlanText();
      host.report := Some(report);
      r := host.Fail(NoPlan);
      return;
    }
    ghost var g := RunOf(inspection, optIns, |host.calls|, host.answers, guidance);
    AllPassIff(g);
    var failed := RunPlans(inspection, optIns, guidance, report, host, g);
    if failed.Some? {
      return Err(failed.value);
    }
    host.status := Some(RunStatus(true, None));
    r := Ok(());
  }

  lemma ProgressStart(g: GateRun, preamble: string, written: bool, file: Option<string>, was: seq<(string, string)>,
                      oldFile: Option<string>)
    requires g.first == |was| && file == (if written then Some(preamble) else oldFile)
    ensures Progress(g, preamble, written, 0, preamble, was, file, was, oldFile)
  {
    assert preamble + "" == preamble;
  }

  // ---- What is run ----

  /**
    The jobs of a run in order: the old plan unless a typed language gate with a command replaces it, then the typed
    gates.
  */
  lemma JobsInOrder(inspection: Inspection)
    ensures var replaced := exists gate :: gate in inspection.domainPlan && "language." <= gate.domain && gate.command.Some?;
            var m := if replaced then 0 else |inspection.plan|;
            && |Jobs(inspection)| == m + |inspection.domainPlan|
            && (forall i :: 0 <= i < m ==> Jobs(inspection)[i] == Legacy(inspection.plan[i]))
            && forall i :: 0 <= i < |inspection.domainPlan| ==> Jobs(inspection)[m + i] == Typed(inspection.domainPlan[i])
  {
  }

  lemma {:induction false} JobsAreCalled(g: GateRun, k: nat, j: nat)
    requires j < k <= |g.jobs| && CallOf(g.jobs[j], g.optIns).Some?
    ensures CallOf(g.jobs[j], g.optIns).value in Calls(g, k)
  {
    if j < k - 1 {
      JobsAreCalled(g, k - 1, j);
    }
  }

  /** And a run that is not ended early leaves none of them out: every job is handed over, unless it may not be run. */
  lemma EveryJobIsCalled(g: GateRun, k: nat)
    requires k < |g.jobs|
    ensures match g.jobs[k]
            case Legacy(c) => (c.name, c.command) in Calls(g, |g.jobs|)
            case Typed(gate) =>
              gate.command.Some?
              && (gate.optInRequired || gate.networkRequired || gate.credentialRequired ==> IsEnabled(gate, g.optIns)) ==>
                (gate.name, gate.command.value) in Calls(g, |g.jobs|)
  {
    if CallOf(g.jobs[k], g.optIns).Some? {
      JobsAreCalled(g, |g.jobs|, k);
    }
  }

  lemma {:induction false} CallIsOfJob(g: GateRun, k: nat, n: nat) returns (j: nat)
    requires k <= |g.jobs| && n < |Calls(g, k)|
    ensures j < k && |Calls(g, j)| == n && CallOf(g.jobs[j], g.optIns) == Some(Calls(g, k)[n])
  {
    if n < |Calls(g, k - 1)| {
      j := CallIsOfJob(g, k - 1, n);
    } else {
      j := k - 1;
    }
  }

  /**
    Whatever a run executes is a command of the old plan, which then was not migrated, or the command of a typed
    gate; and that gate needs no opt-in, network or credentials, or is enabled by the configuration.
  */
  lemma OnlyEnabledCommandsRun(inspection: Inspection, g: GateRun, k: nat, n: nat)
    requires g.jobs == Jobs(inspection) && k <= |g.jobs| && n < |Calls(g, k)|
    ensures var (name, command) := Calls(g, k)[n];
            || (!IsMigrated(inspection) && exists c :: c in inspection.plan && c.name == name && c.command == command)
            || (exists gate :: gate in inspection.domainPlan && gate.name == name && gate.command == Some(command)
                               && (gate.optInRequired || gate.networkRequired || gate.credentialRequired ==> IsEnabled(gate, g.optIns)))
  {
    var j := CallIsOfJob(g, k, n);
    match g.jobs[j]
    case Legacy(c) => assert c in inspection.plan;
    case Typed(gate) => assert gate in inspection.domainPlan;
  }

  // ---- The printed lines ----

  lemma OneNote(n: Note)
    ensures NoteLines([n]) == [NoteText(n.name) + n.value]
  {
  }

  lemma TwoNotes(m: Note, n: Note)
    ensures NoteLines([m, n]) == [NoteText(m.name) + m.value, NoteText(n.name) + n.value]
  {
  }

  /** The head of the section of an old command. */
  lemma OldCommandLines(c: QualityCommand, o: CommandOutput)
    ensures HeadLines(LegacySection(c, o))
         == ["## " + c.name, "command=" + o.executed, "status=" + o.status, "required=" + BoolText(c.required),
             "final_gate=" + BoolText(c.finalGate)]
  {
    OneNote(Note(FinalGate, BoolText(c.finalGate)));
  }

  /** The head of the section of a typed gate that was run. */
  lemma ExecutedLines(gate: DomainGate, enabled: bool, o: CommandOutput)
    ensures HeadLines(ExecutedSection(gate, enabled, o))
         == ["## " + ("domain:" + gate.name), "domain=" + gate.domain, "tool=" + gate.tool, "command=" + o.executed,
             "status=" + o.status, "required=" + BoolText(gate.required), "mutates=" + BoolText(gate.mutates),
             "enabled_by_config=" + BoolText(enabled)]
  {
    var s := ExecutedSection(gate, enabled, o);
    TwoNotes(Note(Domain, gate.domain), Note(Tool, gate.tool));
    TwoNotes(Note(Mutates, BoolText(gate.mutates)), Note(EnabledByConfig, BoolText(enabled)));
    HeadOfLines(s, NoteLines(s.before), o.executed, NoteLines(s.after));
  }

  /** Of one that has no command. */
  lemma FindingLines(gate: DomainGate)
    ensures HeadLines(FindingSection(gate))
         == ["## " + ("domain:" + gate.name), "domain=" + gate.domain, "tool=" + gate.tool, "status=" + "finding-only",
             "required=" + BoolText(gate.required), "setup_guidance=" + gate.setupGuidance]
  {
    TwoNotes(Note(Domain, gate.domain), Note(Tool, gate.tool));
    OneNote(Note(SetupGuidance, gate.setupGuidance));
  }

  lemma SkippedNotes(gate: DomainGate, command: string)
    ensures NoteLines(SkippedSection(gate, command).after)
         == ["opt_in_required=" + BoolText(gate.optInRequired), "network_required=" + BoolText(gate.networkRequired),
             "credential_required=" + BoolText(gate.credentialRequired), "enabled_by_config=" + "false",
             "setup_guidance=" + gate.setupGuidance]
  {
  }

  lemma HeadOfLines(s: Section, before: seq<string>, command: string, after: seq<string>)
    requires NoteLines(s.before) == before && |before| == 2 && s.command == Some(command) && NoteLines(s.after) == after
    ensures HeadLines(s) == ["## " + s.name, before[0], before[1], "command=" + command, "status=" + s.status,
                             "required=" + BoolText(s.required)] + after
  {
  }

  /** Of one that may not be run. */
  lemma SkippedLines(gate: DomainGate, command: string)
    ensures HeadLines(SkippedSection(gate, command))
         == ["## " + ("domain:" + gate.name), "domain=" + gate.domain, "tool=" + gate.tool, "command=" + command,
             "status=" + "skipped", "required=" + BoolText(gate.required)]
            + ["opt_in_required=" + BoolText(gate.optInRequired), "network_required=" + BoolText(gate.networkRequired),
               "credential_required=" + BoolText(gate.credentialRequired), "enabled_by_config=" + "false",
               "setup_guidance=" + gate.setupGuidance]
  {
    var s := SkippedSection(gate, command);
    TwoNotes(Note(Domain, gate.domain), Note(Tool, gate.tool));
    SkippedNotes(gate, command);
    HeadOfLines(s, NoteLines(s.before), command, NoteLines(s.after));
  }

  // ---- What the report says ----

  predicate IsPlainJob(job: Job) {
    match job
    case Legacy(c) => IsPrintable(c.name)
    case Typed(gate) =>
      && IsPrintable(gate.name) && IsOneLine(gate.domain) && IsOneLine(gate.tool) && IsOneLine(gate.setupGuidance)
      && (gate.command.Some? ==> IsPrintable(gate.command.value))
  }

  predicate IsPlainOutput(o: CommandOutput) {
    IsPrintable(o.executed) && IsPrintable(o.status) && AllNoise(Lines(o.stdout)) && AllNoise(Lines(o.stderr))
  }

  /** Job `k` was reported, with printable fields. */
  predicate IsReported(g: GateRun, k: nat)
    requires k < |g.jobs|
  {
    IsPlainJob(g.jobs[k]) && (AnswerTo(g, k).Some? ==> AnswerTo(g, k).value.Ok? && IsPlainOutput(AnswerTo(g, k).value.value))
  }

  /** What a reader of the report should see of job `k`. */
  function DisplayAt(g: GateRun, k: nat): GateDisplay
    requires k < |g.jobs| && IsReported(g, k)
  {
    var name := match g.jobs[k] case Legacy(c) => c.name case Typed(gate) => DomainName(gate);
    var declared := match g.jobs[k] case Legacy(c) => Some(c.command) case Typed(gate) => gate.command;
    match AnswerTo(g, k)
    case Some(answer) => GateDisplay(name, answer.value.status, Some(BoolText(IsRequired(g.jobs[k]))), Some(answer.value.executed))
    case None => GateDisplay(name, if declared.None? then "finding-only" else "skipped", Some(BoolText(IsRequired(g.jobs[k]))), declared)
  }

  lemma BoolIsLine(b: bool)
    ensures IsOneLine(BoolText(b))
  {
    BoolIsTrimmed(b);
    PrintableIsLine(BoolText(b));
  }

  lemma FixedWordsArePlain()
    ensures IsPrintable("finding-only") && IsPrintable("skipped") && IsOneLine("false")
  {
  }

  lemma DomainNameIsPrintable(gate: DomainGate)
    requires IsPrintable(gate.name)
    ensures IsPrintable(DomainName(gate))
  {
    var name := DomainName(gate);
    assert name[0] == 'd';
    assert name[|name| - 1] == if gate.name == "" then ':' else gate.name[|gate.name| - 1];
    assert forall i :: 0 <= i < |name| ==> name[i] != '\n';
  }

  lemma LegacyIsDisplay(c: QualityCommand, o: CommandOutput)
    requires IsPrintable(c.name) && IsPlainOutput(o)
    ensures IsWellFormed(LegacySection(c, o))
    ensures DisplayOf(LegacySection(c, o)) == GateDisplay(c.name, o.status, Some(BoolText(c.required)), Some(o.executed))
  {
    BoolIsLine(c.finalGate);
  }

  lemma ExecutedIsDisplay(gate: DomainGate, enabled: bool, o: CommandOutput)
    requires IsPlainJob(Typed(gate)) && IsPlainOutput(o)
    ensures var s := ExecutedSection(gate, enabled, o);
            IsWellFormed(s)
            && DisplayOf(s) == GateDisplay(DomainName(gate), o.status, Some(BoolText(gate.required)), Some(o.executed))
  {
    DomainNameIsPrintable(gate);
    BoolIsLine(gate.mutates);
    BoolIsLine(enabled);
  }

  lemma FindingIsDisplay(gate: DomainGate)
    requires IsPlainJob(Typed(gate))
    ensures IsWellFormed(FindingSection(gate))
    ensures DisplayOf(FindingSection(gate)) == GateDisplay(DomainName(gate), "finding-only", Some(BoolText(gate.required)), None)
  {
    DomainNameIsPrintable(gate);
    FixedWordsArePlain();
  }

  lemma SkippedIsDisplay(gate: DomainGate, command: string)
    requires IsPlainJob(Typed(gate)) && IsPrintable(command)
    ensures var s := SkippedSection(gate, command);
            IsWellFormed(s)
            && DisplayOf(s) == GateDisplay(DomainName(gate), "skipped", Some(BoolText(gate.required)), Some(command))
  {
    DomainNameIsPrintable(gate);
    FixedWordsArePlain();
    BoolIsLine(gate.optInRequired);
    BoolIsLine(gate.networkRequired);
    BoolIsLine(gate.credentialRequired);
  }

  lemma SectionIsDisplay(g: GateRun, k: nat) returns (s: Section)
    requires k < |g.jobs| && IsReported(g, k)
    ensures SectionAt(g, k) == [s] && IsWellFormed(s) && DisplayOf(s) == DisplayAt(g, k)
  {
    s := SectionAt(g, k)[0];
    match g.jobs[k]
    case Legacy(c) => LegacyIsDisplay(c, AnswerTo(g, k).value.value);
    case Typed(gate) =>
      if AnswerTo(g, k).Some? {
        ExecutedIsDisplay(gate, IsEnabled(gate, g.optIns), AnswerTo(g, k).value.value);
      } else if gate.command.None? {
        FindingIsDisplay(gate);
      } else {
        SkippedIsDisplay(gate, gate.command.value);
      }
  }

  /** The sections of the first `k` jobs are well formed and say what they should. */
  ghost predicate Shows(g: GateRun, sections: seq<Section>, k: nat)
    requires k <= |g.jobs| && forall j :: 0 <= j < k ==> IsReported(g, j)
  {
    |sections| == k && AllWellFormed(sections) && forall j :: 0 <= j < k ==> DisplayOf(sections[j]) == DisplayAt(g, j)
  }

  lemma ShowsMore(g: GateRun, sections: seq<Section>, k: nat, s: Section)
    requires k < |g.jobs| && forall j :: 0 <= j <= k ==> IsReported(g, j)
    requires Shows(g, sections, k) && IsWellFormed(s) && DisplayOf(s) == DisplayAt(g, k)
    ensures Shows(g, sections + [s], k + 1)
  {
  }

  lemma {:induction false} SectionsAreDisplays(g: GateRun, k: nat)
    requires k <= |g.jobs| && forall j :: 0 <= j < k ==> IsReported(g, j)
    ensures Shows(g, Sections(g, k), k)
  {
    if k > 0 {
      SectionsAreDisplays(g, k - 1);
      var s := SectionIsDisplay(g, k - 1);
      ShowsMore(g, Sections(g, k - 1), k - 1, s);
    }
  }

  predicate IsPlainHeading(inspection: Inspection) {
    AllOneLine(inspection.heading) && AllNoise(inspection.heading)
  }

  lemma MigratedIsNoise()
    ensures IsNoiseText(MigratedText())
  {
    var head, rest := "legacy_stack_quality_plan=", "migrated_to_typed_domain_gates";
    var line := head + rest;
    TaggedIsLine(head, rest);
    assert line[0] == head[0] == 'l';
    StartsOtherwise(line);
    BlankAndLine(line);
  }

  lemma NetworkIsNoise()
    ensures IsNoiseText(Unline(["", "network_guidance:"]))
  {
    var line := "network_guidance:";
    assert line[0] == 'n';
    StartsOtherwise(line);
    BlankAndLine(line);
  }

  lemma StartsOtherwise(line: string)
    requires line != "" && line[0] !in {'#', 's', 'r', 'c'}
    ensures IsNoise(line)
  {
    assert HEADING[0] == '#' && AttributeText(Status)[0] == 's' && AttributeText(Required)[0] == 'r'
        && AttributeText(Command)[0] == 'c';
  }

  lemma PreambleIsNoise(inspection: Inspection)
    requires IsPlainHeading(inspection)
    ensures IsNoiseText(Preamble(inspection))
  {
    BlankIsNoise();
    MigratedIsNoise();
    NoiseLinesText(inspection.heading + [""]);
    NoiseTextConcat(HeadingText(inspection), MigratedText());
  }

  lemma GuidanceIsNoise(guidance: Option<string>)
    requires guidance.Some? ==> AllNoise(Lines(guidance.value))
    ensures AllNoise(Lines(GuidanceText(guidance)))
  {
    if guidance.Some? {
      NetworkIsNoise();
      CompletedIsNoise(guidance.value);
      NoiseTextConcat(Unline(["", "network_guidance:"]), guidance.value + "\n");
    }
  }

  /**
    Reading the report of the first `k` jobs back gives one gate for each of them, in order, with the name, state
    and required flag of the job and the command that was executed or skipped.
  */
  lemma ReportShowsJobs(inspection: Inspection, g: GateRun, k: nat, epilogue: string)
    requires k <= |g.jobs| && IsPlainHeading(inspection) && AllNoise(Lines(epilogue))
    requires forall j :: 0 <= j < k ==> IsReported(g, j)
    ensures var gates := ParsedGates(Printed(Preamble(inspection), Sections(g, k)) + epilogue);
            |gates| == k && forall j :: 0 <= j < k ==> gates[j] == DisplayAt(g, j)
  {
    SectionsAreDisplays(g, k);
    PreambleIsNoise(inspection);
    ReportRoundTrip(Preamble(inspection), Sections(g, k), epilogue);
    Reassociate(Preamble(inspection), SectionsText(Sections(g, k)), epilogue);
  }

  /** After a run that succeeded the report shows every job of the combined plan. */
  lemma PassedReportShowsAll(inspection: Inspection, g: GateRun, calls: seq<(string, string)>, file: Option<string>,
                             was: seq<(string, string)>)
    requires HasPassed(g, Preamble(inspection), calls, file, was) && IsPlainHeading(inspection)
    requires forall j :: 0 <= j < |g.jobs| ==> IsReported(g, j)
    ensures var gates := ParsedGates(file.value);
            |gates| == |g.jobs| && forall j :: 0 <= j < |g.jobs| ==> gates[j] == DisplayAt(g, j)
  {
    ReportShowsJobs(inspection, g, |g.jobs|, "");
    assert file.value + "" == file.value;
  }

  lemma StoppedFile(g: GateRun, preamble: string, written: bool, k: nat, calls: seq<(string, string)>,
                    file: Option<string>, was: seq<(string, string)>, oldFile: Option<string>)
    requires StoppedAt(g, preamble, written, k, calls, file, was, oldFile) && IsReported(g, k)
    ensures file == Some(Printed(preamble, Sections(g, k + 1)) + GuidanceText(GuidanceAt(g, k)))
  {
  }

  /** After a run that a failed required gate ended, the report shows the jobs up to that gate. */
  lemma StoppedReportShowsFailure(inspection: Inspection, g: GateRun, k: nat, calls: seq<(string, string)>,
                                  file: Option<string>, was: seq<(string, string)>, oldFile: Option<string>)
    requires StoppedAt(g, Preamble(inspection), IsMigrated(inspection), k, calls, file, was, oldFile)
    requires IsPlainHeading(inspection) && forall j :: 0 <= j < k + 1 ==> IsReported(g, j)
    requires GuidanceAt(g, k).Some? ==> AllNoise(Lines(GuidanceAt(g, k).value))
    ensures file.Some?
    ensures var gates := ParsedGates(file.value);
            |gates| == k + 1 && forall j :: 0 <= j < k + 1 ==> gates[j] == DisplayAt(g, j)
  {
    StoppedFile(g, Preamble(inspection), IsMigrated(inspection), k, calls, file, was, oldFile);
    GuidanceIsNoise(GuidanceAt(g, k));
    ReportShowsJobs(inspection, g, k + 1, GuidanceText(GuidanceAt(g, k)));
  }
}
