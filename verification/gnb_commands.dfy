/** The station command handler (GnbCmdHandler in src/rgnb/gnbApp/cmd_handler.cpp):
    the decisions of each command over the NGAP task's AMF and UE contexts, and
    handleCmd wrapping them in the pause protocol over GTP, RLS, NGAP, RRC and SCTP. */
module GnbCommands {
  import opened Messages
  import opened Effects
  import SerialNumber
  import PauseControl

  const AMF_NOT_FOUND_TEXT: string := "AMF not found with given ID"
  const UE_NOT_FOUND_TEXT: string := "UE not found with given ID"
  const UE_RELEASE_TEXT: string := "Requesting UE context release"

  /** The fields of an NGAP UE context the handler reads. */
  datatype NgapUeContext = NgapUeContext(ctxId: int, ranUeNgapId: int, amfUeNgapId: int)

  /** What handleCmdImpl reads from the NGAP task: its AMF contexts by id and its UE
      contexts by id. */
  datatype NgapView = NgapView(amfIds: set<int>, ueCtx: map<int, NgapUeContext>)

  /** The UE_LIST document: one entry per UE context. */
  function UeListEntries(ueCtx: map<int, NgapUeContext>): set<UeListEntry>
  {
    set ueId | ueId in ueCtx :: UeListEntry(ueId, ueCtx[ueId].ranUeNgapId, ueCtx[ueId].amfUeNgapId)
  }

  /** Some UE id of a non-empty context table. */
  ghost function SomeContext(ueCtx: map<int, NgapUeContext>): (k: int)
    requires |ueCtx| > 0
    ensures k in ueCtx
  {
    var ks := ueCtx.Keys;
    assert |ks| == |ueCtx|;
    assert exists k :: k in ks by {
      if forall k :: k !in ks {
        assert false;
      }
    }
    var k :| k in ks;
    k
  }

  /** Entries are told apart by UE id, so there are as many as there are contexts
      and each context's ids appear in its own entry. */
  lemma {:induction false} UeListOnePerContext(ueCtx: map<int, NgapUeContext>)
    ensures |UeListEntries(ueCtx)| == |ueCtx|
    ensures forall e :: e in UeListEntries(ueCtx) <==>
              e.ueId in ueCtx && e.ranUeNgapId == ueCtx[e.ueId].ranUeNgapId &&
              e.amfUeNgapId == ueCtx[e.ueId].amfUeNgapId
    decreases |ueCtx|
  {
    if |ueCtx| == 0 {
      assert UeListEntries(ueCtx) == {};
    } else {
      var k := SomeContext(ueCtx);
      var rest := ueCtx - {k};
      assert |rest| == |ueCtx| - 1 by {
        assert rest.Keys == ueCtx.Keys - {k};
      }
      UeListOnePerContext(rest);
      var e := UeListEntry(k, ueCtx[k].ranUeNgapId, ueCtx[k].amfUeNgapId);
      assert UeListEntries(ueCtx) == UeListEntries(rest) + {e};
      assert e !in UeListEntries(rest);
    }
  }

  /** handleCmdImpl: the NGAP call a command makes, if any, then exactly one answer;
      only an unknown AMF or UE id gives an error answer. */
  function HandleCmdImpl(cmd: GnbCliCommand, address: InetAddress, view: NgapView): (r: seq<Effect>)
    ensures |r| >= 1 && r[|r| - 1].CliRespond? && r[|r| - 1].address == address
    ensures forall i :: 0 <= i < |r| - 1 ==> r[i].Invoke?
    ensures r[|r| - 1].isError <==>
              (cmd.AmfInfo? && cmd.amfId !in view.amfIds) || (cmd.UeReleaseReq? && cmd.ueId !in view.ueCtx)
    ensures cmd.AmfInfo? ==>
              r == if cmd.amfId in view.amfIds then [CliRespond(address, Yaml(AmfInfoReport(cmd.amfId)), false)]
                   else [CliRespond(address, Text(AMF_NOT_FOUND_TEXT), true)]
    ensures cmd.UeReleaseReq? ==>
              r == if cmd.ueId in view.ueCtx
                   then [Invoke(SendContextRelease(view.ueCtx[cmd.ueId].ctxId, RadioNetwork_unspecified)),
                         CliRespond(address, Text(UE_RELEASE_TEXT), false)]
                   else [CliRespond(address, Text(UE_NOT_FOUND_TEXT), true)]
    ensures cmd.UeCount? ==>
              |r| == 1 && r[0].output.Text? && SerialNumber.IsDigits(r[0].output.text) &&
              SerialNumber.Value(r[0].output.text) == |view.ueCtx|
    ensures cmd.UeCount? ==> r[0].output.text == SerialNumber.NatToString(|view.ueCtx|)
    ensures cmd.Status? || cmd.Info? ==> |r| == 1
    ensures cmd.UeList? ==> r == [CliRespond(address, Yaml(UeListReport(UeListEntries(view.ueCtx))), false)]
    ensures cmd.AmfList? ==> r == [CliRespond(address, Yaml(AmfListReport(view.amfIds)), false)]
  {
    match cmd
    case Status => [CliRespond(address, Yaml(GnbStatusReport), false)]
    case Info => [CliRespond(address, Yaml(GnbInfoReport), false)]
    case AmfList => [CliRespond(address, Yaml(AmfListReport(view.amfIds)), false)]
    case AmfInfo(amfId) =>
      if amfId !in view.amfIds then [CliRespond(address, Text(AMF_NOT_FOUND_TEXT), true)]
      else [CliRespond(address, Yaml(AmfInfoReport(amfId)), false)]
    case UeList => [CliRespond(address, Yaml(UeListReport(UeListEntries(view.ueCtx))), false)]
    case UeCount => [CliRespond(address, Text(SerialNumber.NatToString(|view.ueCtx|)), false)]
    case UeReleaseReq(ueId) =>
      if ueId !in view.ueCtx then [CliRespond(address, Text(UE_NOT_FOUND_TEXT), true)]
      else
        [Invoke(SendContextRelease(view.ueCtx[ueId].ctxId, RadioNetwork_unspecified)),
         CliRespond(address, Text(UE_RELEASE_TEXT), false)]
  }

  /** An unknown id releases nothing: no NGAP call is made for it. */
  lemma UnknownUeReleasesNothing(ueId: int, address: InetAddress, view: NgapView)
    requires ueId !in view.ueCtx
    ensures forall i :: 0 <= i < |HandleCmdImpl(UeReleaseReq(ueId), address, view)| ==>
              !HandleCmdImpl(UeReleaseReq(ueId), address, view)[i].Invoke?
  {
  }

  /** handleCmd: the command runs inside the pause protocol over the five station
      tasks. */
  method HandleCmd(cmd: GnbCliCommand, address: InetAddress, view: NgapView, start: int,
                   polls: seq<PauseControl.Poll>)
    returns (out: seq<Effect>, isPaused: bool)
    ensures isPaused <==> PauseControl.ConfirmedInTime(PauseControl.GNB_PAUSED_TASKS, start, polls)
    ensures |out| >= 10
    ensures out[..5] == PauseControl.RequestPauses(PauseControl.GNB_PAUSED_TASKS)
    ensures out[|out| - 5..] == PauseControl.RequestUnpauses(PauseControl.GNB_PAUSED_TASKS)
    ensures isPaused ==> out[5..|out| - 5] == HandleCmdImpl(cmd, address, view)
    ensures !isPaused ==> out[5..|out| - 5] == [CliRespond(address, Text(PauseControl.GNB_TIMEOUT_ERROR), true)]
  {
    out, isPaused := PauseControl.HandleCmd(PauseControl.GNB_PAUSED_TASKS, start, polls, address,
                                            PauseControl.GNB_TIMEOUT_ERROR, HandleCmdImpl(cmd, address, view));
  }
}
