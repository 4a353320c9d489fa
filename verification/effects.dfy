/** What a task step can do besides changing its own fields: push a message to a
    task's mailbox, arm a timer, notify the node listener, call a routine whose body
    is not part of this model, log, or answer a command-line client. Task steps in
    the other modules return the list of these, in the order the C++ performs them. */
module Effects {
  import opened Base
  import opened Messages
  import ConfigEnums

  /** The task pointers of TaskBase, plus the RLS control task a station RLS task owns. */
  datatype TaskId =
    | UeRrcTask | UeRlsTask | UeNasTask
    | GnbAppTask | GnbSctpTask | GnbNgapTask | GnbRrcTask | GnbGtpTask | GnbRlsTask
    | RlsControlTask

  /** ERrcState (src/rgnb/types.hpp). */
  datatype RrcState = RRC_CONNECTED | RRC_IDLE | RRC_INACTIVE

  /** NgapCause, by the one value the command handler uses. */
  datatype NgapCause = RadioNetwork_unspecified | OtherNgapCause(code: int)

  /** SessionConfig as the PS_ESTABLISH command fills it in. */
  datatype SessionConfig = SessionConfig(
    sessionType: ConfigEnums.PduSessionType,
    isEmergency: bool,
    apn: Option<string>,
    sNssai: Option<SingleSlice>)

  /** Calls into routines whose bodies are outside the model, with the arguments
      the modelled code hands them. */
  datatype Hook =
    // device RRC
    | PerformCellSelection
    | StartConnectionEstablishment(nasPdu: Octets)
    | SendUlInformationTransfer(nasPdu: Octets)
    | HandleCellSignalChange(cellId: int, dbm: int)
    | HandleDownlinkRrc(cellId: int, channel: RrcChannel, pdu: Octets)
    | PerformUac(uacCtl: UacControl)
    // station RRC
    | HandleGnbRlsSap(rlsMsg: NmGnbRlsToRrc)
    | TriggerSysInfoBroadcast
    | OnBroadcastTimerExpired
    | HandleDownlinkNasDelivery(ueId: int, pdu: Octets)
    | ReleaseConnection(ueId: int)
    | HandlePaging(uePagingTmsi: NgapPagingTmsi, taiListForPaging: TaiListForPaging)
    // device NAS, as the device command handler drives it
    | DeregistrationRequired(deregCause: DeregCause)
    | SendReleaseRequest(psi: int)
    | SendReleaseRequestForAll
    | SendEstablishmentRequest(config: SessionConfig)
    // station NGAP, as the station command handler drives it
    | SendContextRelease(ctxId: int, cause: NgapCause)

  /** One entry of a station UE_LIST answer. */
  datatype UeListEntry = UeListEntry(ueId: int, ranUeNgapId: int, amfUeNgapId: int)

  /** The document a command answer renders to YAML; rendering itself is left out,
      so each answer records what it was built from. */
  datatype Report =
    | UeStatusReport
    | UeInfoReport
    | UeTimersReport
    | PsListReport(psis: seq<int>)
    | RlsStateReport
    | CoverageReport(cells: map<int, string>)
    | GnbStatusReport
    | GnbInfoReport
    | AmfListReport(amfIds: set<int>)
    | AmfInfoReport(amfId: int)
    | UeListReport(entries: set<UeListEntry>)

  /** The text of a command answer. */
  datatype CliOutput = Text(text: string) | Yaml(report: Report)

  datatype Effect =
    | Send(to: TaskId, msg: NtsMessage)
    | ArmTimer(timerId: int, periodMs: int)
    | NotifySwitch(nodeName: string, oldState: RrcState, newState: RrcState)
    | Invoke(hook: Hook)
    | LogError(text: string)
    | LogUnhandled(msgType: NtsMessageType)
    | RequestPause(task: TaskId)
    | RequestUnpause(task: TaskId)
    | CliRespond(address: InetAddress, output: CliOutput, isError: bool)

  /** The messages an outbox pushes to one task, in order. */
  function SentTo(out: seq<Effect>, t: TaskId): seq<NtsMessage>
  {
    if |out| == 0 then []
    else (if out[0].Send? && out[0].to == t then [out[0].msg] else []) + SentTo(out[1..], t)
  }

  /** The messages an outbox pushes to any task. */
  function Sends(out: seq<Effect>): seq<Effect>
  {
    if |out| == 0 then []
    else (if out[0].Send? then [out[0]] else []) + Sends(out[1..])
  }

  /** Collecting sends distributes over joined outboxes. */
  lemma {:induction false} SendsAppend(a: seq<Effect>, b: seq<Effect>)
    ensures Sends(a + b) == Sends(a) + Sends(b)
    ensures forall t :: SentTo(a + b, t) == SentTo(a, t) + SentTo(b, t)
  {
    if |a| == 0 {
      assert a + b == b;
    } else {
      assert (a + b)[1..] == a[1..] + b;
      SendsAppend(a[1..], b);
    }
  }
}
