/** The device command handler (UeCmdHandler in src/rgnb/ueApp/cmd_handler.cpp):
    the signal-strength wording, the decisions each command makes, and handleCmd
    wrapping them in the pause protocol. Rendering answers to YAML is left out;
    an answer records what it was built from. */
module UeCommands {
  import opened Base
  import opened Messages
  import opened Effects
  import ConfigEnums
  import SerialNumber
  import PauseControl

  /** SignalDescription: the wording for a received power in dBm. */
  function SignalDescription(dbm: int): (r: string)
    ensures r == "Excellent" <==> dbm > -90
    ensures r == "Good" <==> -105 < dbm <= -90
    ensures r == "Fair" <==> -120 < dbm <= -105
    ensures r == "Poor" <==> dbm <= -120
  {
    if dbm > -90 then "Excellent"
    else if dbm > -105 then "Good"
    else if dbm > -120 then "Fair"
    else "Poor"
  }

  /** The order of the four words, worst first. */
  function SignalRank(description: string): int
  {
    if description == "Excellent" then 3
    else if description == "Good" then 2
    else if description == "Fair" then 1
    else 0
  }

  /** A stronger signal is never described with a worse word. */
  lemma SignalDescriptionMonotone(weaker: int, stronger: int)
    requires weaker <= stronger
    ensures SignalRank(SignalDescription(weaker)) <= SignalRank(SignalDescription(stronger))
  {
  }

  /** The text of the "signal" field of a COVERAGE entry. */
  function SignalText(dbm: int): string
  {
    SerialNumber.IntToString(dbm) + " dBm (" + SignalDescription(dbm) + ")"
  }

  /** EPsState */
  datatype PsState = PS_INACTIVE | PS_ACTIVE_PENDING | PS_ACTIVE | PS_INACTIVE_PENDING | PS_MODIFICATION_PENDING

  /** The fields of a NAS PduSession that PS_LIST filters on. */
  datatype SessionView = SessionView(psi: int, psState: PsState)

  /** Whether PS_LIST shows a session: PSI 0 and inactive sessions are skipped. */
  predicate Listed(ps: SessionView)
  {
    ps.psi != 0 && ps.psState != PS_INACTIVE
  }

  /** PS_LIST: the identities of the listed sessions, in session order. */
  function PsListPsis(sessions: seq<SessionView>): (r: seq<int>)
    ensures |r| <= |sessions|
    ensures forall i :: 0 <= i < |r| ==> r[i] != 0
  {
    if |sessions| == 0 then []
    else (if Listed(sessions[0]) then [sessions[0].psi] else []) + PsListPsis(sessions[1..])
  }

  /** A PSI is shown exactly when some session with it is listed. */
  lemma {:induction false} PsListMembers(sessions: seq<SessionView>, psi: int)
    ensures psi in PsListPsis(sessions) <==>
            exists i :: 0 <= i < |sessions| && Listed(sessions[i]) && sessions[i].psi == psi
  {
    if |sessions| > 0 {
      PsListMembers(sessions[1..], psi);
      if exists i :: 0 <= i < |sessions| && Listed(sessions[i]) && sessions[i].psi == psi {
        var i :| 0 <= i < |sessions| && Listed(sessions[i]) && sessions[i].psi == psi;
        if i > 0 {
          assert sessions[1..][i - 1] == sessions[i];
        }
      }
      if psi in PsListPsis(sessions[1..]) {
        var j :| 0 <= j < |sessions[1..]| && Listed(sessions[1..][j]) && sessions[1..][j].psi == psi;
        assert sessions[j + 1] == sessions[1..][j];
      }
    }
  }

  /** One id reduced by C++'s % 16 stays in -15..15 and in the id's residue class. */
  lemma ReducedId(id: int)
    ensures -16 < TMod(id, 16) < 16 && (id - TMod(id, 16)) % 16 == 0
    ensures id >= 0 ==> TMod(id, 16) == id % 16
  {
    assert id - TMod(id, 16) == TDiv(id, 16) * 16;
  }

  /** PS_RELEASE: the first psCount ids, each reduced with C++'s truncating % 16. */
  function PsReleaseTargets(psCount: int, psIds: seq<int>): (r: seq<int>)
    requires psCount <= |psIds|
    ensures |r| == if psCount < 0 then 0 else psCount
    ensures forall i :: 0 <= i < |r| ==> -16 < r[i] < 16 && (psIds[i] - r[i]) % 16 == 0
    ensures forall i :: 0 <= i < |r| && psIds[i] >= 0 ==> 0 <= r[i] < 16 && r[i] == psIds[i] % 16
    ensures forall i :: 0 <= i < |r| ==> r[i] == TMod(psIds[i], 16)
    decreases psCount
  {
    if psCount <= 0 then []
    else
      ReducedId(psIds[psCount - 1]);
      PsReleaseTargets(psCount - 1, psIds) + [TMod(psIds[psCount - 1], 16)]
  }

  /** Answer texts of the commands that only trigger a NAS procedure. */
  const DEREGISTER_TEXT: string := "De-registration procedure triggered"
  const DEREGISTER_SWITCH_OFF_TEXT: string := "De-registration procedure triggered. UE device will be switched off."
  const PS_RELEASE_TEXT: string := "PDU session release procedure(s) triggered"
  const PS_ESTABLISH_TEXT: string := "PDU session establishment procedure triggered"
  const NO_CELL_TEXT: string := "No cell available"

  /** COVERAGE: one entry per known cell keyed by its id, or the no-cell text. */
  function CoverageAnswer(cellDbm: map<int, int>): (r: CliOutput)
    ensures r.Text? <==> |cellDbm| == 0
    ensures r.Text? ==> r.text == NO_CELL_TEXT
    ensures r.Yaml? ==> r.report.CoverageReport? && r.report.cells.Keys == cellDbm.Keys
    ensures r.Yaml? ==> forall id :: id in cellDbm ==> r.report.cells[id] == SignalText(cellDbm[id])
  {
    if |cellDbm| == 0 then Text(NO_CELL_TEXT)
    else Yaml(CoverageReport(map id | id in cellDbm :: SignalText(cellDbm[id])))
  }

  /** What handleCmdImpl reads: the NAS sessions and the cells the RRC task knows. */
  datatype UeView = UeView(sessions: seq<SessionView>, cellDbm: map<int, int>)

  predicate WellFormedCommand(cmd: UeCliCommand)
  {
    cmd.PsRelease? ==> cmd.psCount <= |cmd.psIds|
  }

  /** handleCmdImpl: the NAS calls each command makes, then exactly one answer,
      which is never an error. The NAS state is an input here; in the node the
      NAS task these commands reach through is never created. */
  function HandleCmdImpl(cmd: UeCliCommand, address: InetAddress, view: UeView): (r: seq<Effect>)
    requires WellFormedCommand(cmd)
    ensures |r| >= 1 && r[|r| - 1].CliRespond? && !r[|r| - 1].isError && r[|r| - 1].address == address
    ensures forall i :: 0 <= i < |r| - 1 ==> r[i].Invoke?
    ensures cmd.DeRegister? ==>
              r[0] == Invoke(DeregistrationRequired(cmd.deregCause)) &&
              r[|r| - 1].output == Text(if cmd.deregCause == SwitchOff then DEREGISTER_SWITCH_OFF_TEXT else DEREGISTER_TEXT)
    ensures cmd.PsRelease? ==>
              var targets := PsReleaseTargets(cmd.psCount, cmd.psIds);
              |r| == |targets| + 1 &&
              (forall i :: 0 <= i < |targets| ==> r[i] == Invoke(SendReleaseRequest(targets[i]))) &&
              r[|targets|] == CliRespond(address, Text(PS_RELEASE_TEXT), false)
    ensures cmd.PsReleaseAll? ==>
              r == [Invoke(SendReleaseRequestForAll), CliRespond(address, Text(PS_RELEASE_TEXT), false)]
    ensures cmd.Status? || cmd.Info? || cmd.Timers? || cmd.RlsState? ==> |r| == 1
    ensures cmd.PsEstablish? ==>
              |r| == 2 && r[1].output == Text(PS_ESTABLISH_TEXT) &&
              r[0] == Invoke(SendEstablishmentRequest(
                        SessionConfig(ConfigEnums.IPV4, cmd.isEmergency, cmd.apn, cmd.sNssai)))
    ensures cmd.PsList? ==> r == [CliRespond(address, Yaml(PsListReport(PsListPsis(view.sessions))), false)]
    ensures cmd.Coverage? ==> r == [CliRespond(address, CoverageAnswer(view.cellDbm), false)]
  {
    if TriggersNasProcedure(cmd) then NasProcedure(cmd, address)
    else [CliRespond(address, Report(cmd, view), false)]
  }

  /** The commands that trigger a NAS procedure and answer that it was triggered. */
  predicate TriggersNasProcedure(cmd: UeCliCommand)
  {
    cmd.DeRegister? || cmd.PsRelease? || cmd.PsReleaseAll? || cmd.PsEstablish?
  }

  /** The NAS-procedure commands: their NAS calls, then one text answer. */
  function NasProcedure(cmd: UeCliCommand, address: InetAddress): (r: seq<Effect>)
    requires TriggersNasProcedure(cmd) && WellFormedCommand(cmd)
    ensures |r| >= 1 && r[|r| - 1].CliRespond? && !r[|r| - 1].isError && r[|r| - 1].address == address
    ensures r[|r| - 1].output.Text?
    ensures forall i :: 0 <= i < |r| - 1 ==> r[i].Invoke?
    ensures cmd.DeRegister? ==>
              r[0] == Invoke(DeregistrationRequired(cmd.deregCause)) &&
              r[|r| - 1].output == Text(if cmd.deregCause == SwitchOff then DEREGISTER_SWITCH_OFF_TEXT else DEREGISTER_TEXT)
    ensures cmd.PsRelease? ==> r == ReleaseThenAnswer(PsReleaseTargets(cmd.psCount, cmd.psIds), address)
    ensures cmd.PsEstablish? ==> |r| == 2 && r[1].output == Text(PS_ESTABLISH_TEXT)
  {
    match cmd
    case DeRegister(cause) =>
      [Invoke(DeregistrationRequired(cause)),
       CliRespond(address, Text(if cause != SwitchOff then DEREGISTER_TEXT else DEREGISTER_SWITCH_OFF_TEXT), false)]
    case PsRelease(psCount, psIds) => ReleaseThenAnswer(PsReleaseTargets(psCount, psIds), address)
    case PsReleaseAll =>
      [Invoke(SendReleaseRequestForAll), CliRespond(address, Text(PS_RELEASE_TEXT), false)]
    case PsEstablish(isEmergency, apn, sNssai) =>
      [Invoke(SendEstablishmentRequest(SessionConfig(ConfigEnums.IPV4, isEmergency, apn, sNssai))),
       CliRespond(address, Text(PS_ESTABLISH_TEXT), false)]
  }

  /** The answer of a command that only reports: the NAS, RLS or cell state it reads. */
  function Report(cmd: UeCliCommand, view: UeView): (o: CliOutput)
    requires !TriggersNasProcedure(cmd)
    ensures o.Text? ==> cmd.Coverage? && o.text == NO_CELL_TEXT
  {
    match cmd
    case Status => Yaml(UeStatusReport)
    case Info => Yaml(UeInfoReport)
    case Timers => Yaml(UeTimersReport)
    case PsList => Yaml(PsListReport(PsListPsis(view.sessions)))
    case RlsState => Yaml(RlsStateReport)
    case Coverage => CoverageAnswer(view.cellDbm)
  }

  /** PS_RELEASE's effects: the release requests, then the one release answer. */
  function ReleaseThenAnswer(targets: seq<int>, address: InetAddress): (r: seq<Effect>)
    ensures |r| == |targets| + 1
    ensures forall i :: 0 <= i < |targets| ==> r[i] == Invoke(SendReleaseRequest(targets[i]))
    ensures r[|targets|] == CliRespond(address, Text(PS_RELEASE_TEXT), false)
  {
    ReleaseRequests(targets) + [CliRespond(address, Text(PS_RELEASE_TEXT), false)]
  }

  /** One release request per target, in order. */
  function ReleaseRequests(targets: seq<int>): (r: seq<Effect>)
    ensures |r| == |targets|
    ensures forall i :: 0 <= i < |targets| ==> r[i] == Invoke(SendReleaseRequest(targets[i]))
  {
    if |targets| == 0 then [] else [Invoke(SendReleaseRequest(targets[0]))] + ReleaseRequests(targets[1..])
  }

  /** handleCmd: the command runs inside the pause protocol over NAS, RRC and RLS. */
  method HandleCmd(cmd: UeCliCommand, address: InetAddress, view: UeView, start: int, polls: seq<PauseControl.Poll>)
    returns (out: seq<Effect>, isPaused: bool)
    requires WellFormedCommand(cmd)
    ensures isPaused <==> PauseControl.ConfirmedInTime(PauseControl.UE_PAUSED_TASKS, start, polls)
    ensures |out| >= 6
    ensures out[..3] == PauseControl.RequestPauses(PauseControl.UE_PAUSED_TASKS)
    ensures out[|out| - 3..] == PauseControl.RequestUnpauses(PauseControl.UE_PAUSED_TASKS)
    ensures isPaused ==> out[3..|out| - 3] == HandleCmdImpl(cmd, address, view)
    ensures !isPaused ==> out[3..|out| - 3] == [CliRespond(address, Text(PauseControl.UE_TIMEOUT_ERROR), true)]
  {
    out, isPaused := PauseControl.HandleCmd(PauseControl.UE_PAUSED_TASKS, start, polls, address,
                                            PauseControl.UE_TIMEOUT_ERROR, HandleCmdImpl(cmd, address, view));
  }
}
