/** The inter-task message catalog of the relay node (src/rgnb/nts.hpp). Each C++
    message struct holds a `present` discriminant and every variant's fields inline;
    here each family is a sum type whose constructors carry only the fields that
    variant's comments assign to it. NmRgnbRrcToRrc, used by both RRC tasks but
    declared elsewhere, is reconstructed from its uses. */
module Messages {
  import opened Base

  // ---- Opaque values handed between tasks without being looked into ----

  /** rrc::RrcChannel */
  datatype RrcChannel = RrcChannel(code: int)
  /** rls::ERlfCause */
  datatype RlfCause = RlfCause(code: int)
  /** A decoded rls::RlsMessage. */
  datatype RlsMessage = RlsMessage(id: int)
  /** rls::PduInfo */
  datatype PduInfo = PduInfo(id: int)
  /** The shared LightSync<UacInput, UacOutput> of a UAC request: only whether the
      producer side has given up on it matters to the receiver. */
  datatype UacControl = UacControl(id: int, expiredForProducer: bool)
  /** A tracking area identity. */
  datatype Tai = Tai(plmn: int, tac: int)
  /** A 5G-S-TMSI as a GUTI mobile identity: AMF Set ID, AMF Pointer and 5G-TMSI. */
  datatype GutiMobileIdentity = GutiMobileIdentity(amfSetId: nat, amfPointer: nat, tmsi: nat)
  /** The ASN.1 paging parameters NGAP passes to RRC. */
  datatype NgapPagingTmsi = NgapPagingTmsi(id: int)
  datatype TaiListForPaging = TaiListForPaging(id: int)
  /** AggregateMaximumBitRate */
  datatype Ambr = Ambr(dlAmbr: nat, ulAmbr: nat)
  /** GtpUeContextUpdate */
  datatype GtpUeContextUpdate = GtpUeContextUpdate(isCreate: bool, ueId: int, ueAmbr: Ambr)
  /** A reference to a PduSessionResource owned by NGAP. */
  datatype PduSessionResourceRef = PduSessionResourceRef(ueId: int, psi: int)
  /** A reference to a device-side PduSession. */
  datatype PduSessionRef = PduSessionRef(psi: int)
  /** A reference to a NAS timer. */
  datatype NasTimerRef = NasTimerRef(code: int)
  /** The address of a command-line client. */
  datatype InetAddress = InetAddress(id: int)
  /** ECmState */
  datatype CmState = CM_IDLE | CM_CONNECTED
  /** A de-registration cause; only switch-off is told apart by the command handler. */
  datatype DeregCause = SwitchOff | OtherDeregCause(code: int)
  /** A single network slice. */
  datatype SingleSlice = SingleSlice(sst: int, sd: Option<int>)

  /** app::GnbCliCommand, by the branches the station command handler takes. */
  datatype GnbCliCommand =
    | Status
    | Info
    | AmfList
    | AmfInfo(amfId: int)
    | UeList
    | UeCount
    | UeReleaseReq(ueId: int)

  /** app::UeCliCommand, by the branches the device command handler takes. */
  datatype UeCliCommand =
    | Status
    | Info
    | Timers
    | DeRegister(deregCause: DeregCause)
    | PsRelease(psCount: int, psIds: seq<int>)
    | PsReleaseAll
    | PsEstablish(isEmergency: bool, apn: Option<string>, sNssai: Option<SingleSlice>)
    | PsList
    | RlsState
    | Coverage

  // ---- Station-side families ----

  datatype NmGnbRlsToRrc =
    | SignalDetected(ueId: int)
    | UplinkRrc(ueId: int, data: Octets, rrcChannel: RrcChannel)

  datatype NmGnbRlsToGtp = DataPduDelivery(ueId: int, psi: int, pdu: Octets)

  datatype NmGnbGtpToRls = DataPduDelivery(ueId: int, psi: int, pdu: Octets)

  datatype NmGnbRlsToRls =
    | SignalDetected(ueId: int)
    | SignalLost(ueId: int)
    | ReceiveRlsMessage(msg: RlsMessage)
    | DownlinkRrc(ueId: int, data: Octets, pduId: uint32, rrcChannel: RrcChannel)
    | DownlinkData(ueId: int, psi: int, data: Octets)
    | UplinkRrc(ueId: int, data: Octets, rrcChannel: RrcChannel)
    | UplinkData(ueId: int, psi: int, data: Octets)
    | RadioLinkFailure(rlfCause: RlfCause)
    | TransmissionFailure(pduList: seq<PduInfo>)

  datatype NmGnbRrcToRls = RrcPduDelivery(ueId: int, channel: RrcChannel, pdu: Octets)

  datatype NmGnbNgapToRrc =
    | RadioPowerOn
    | NasDelivery(ueId: int, pdu: Octets)
    | AnRelease(ueId: int)
    | Paging(uePagingTmsi: NgapPagingTmsi, taiListForPaging: TaiListForPaging)

  datatype NmGnbRrcToNgap =
    | InitialNasDelivery(ueId: int, pdu: Octets, rrcEstablishmentCause: int,
                         sTmsi: Option<GutiMobileIdentity>)
    | UplinkNasDelivery(ueId: int, pdu: Octets)
    | RadioLinkFailure(ueId: int)

  datatype NmGnbNgapToGtp =
    | UeContextUpdate(update: GtpUeContextUpdate)
    | UeContextRelease(ueId: int)
    | SessionCreate(resource: PduSessionResourceRef)
    | SessionRelease(ueId: int, psi: int)

  datatype NmGnbSctp =
    | ConnectionRequest(clientId: int, localAddress: string, localPort: uint16,
                        remoteAddress: string, remotePort: uint16, ppid: int, associatedTask: int)
    | ConnectionClose(clientId: int)
    | AssociationSetup(clientId: int, associationId: int, inStreams: int, outStreams: int)
    | AssociationShutdown(clientId: int)
    | ReceiveMessage(clientId: int, buffer: Octets, stream: uint16)
    | SendMessage(clientId: int, buffer: Octets, stream: uint16)
    | UnhandledNotification(clientId: int)

  /** NmGnbStatusUpdate has one kind, NGAP_IS_UP (what = 1). */
  datatype NmGnbStatusUpdate = NgapIsUp(isNgapUp: bool)

  // ---- Device-side families ----

  datatype NmAppToTun = DataPduDelivery(psi: int, data: Octets)

  datatype NmUeTunToApp =
    | DataPduDelivery(psi: int, data: Octets)
    | TunError(error: string)

  datatype NmUeRrcToNas =
    | NasNotify
    | NasDelivery(nasPdu: Octets)
    | RrcConnectionSetup
    | RrcConnectionRelease
    | RrcEstablishmentFailure
    | RadioLinkFailure
    | Paging(pagingTmsi: seq<GutiMobileIdentity>)
    | ActiveCellChanged(previousTai: Tai)
    | RrcFallbackIndication

  datatype NmUeNasToRrc =
    | LocalReleaseConnection(treatBarred: bool)
    | UplinkNasDelivery(pduId: uint32, nasPdu: Octets)
    | RrcNotify
    | PerformUac(uacCtl: UacControl)

  datatype NmUeRrcToRls =
    | AssignCurrentCell(cellId: int)
    | RrcPduDelivery(channel: RrcChannel, pduId: uint32, pdu: Octets)
    | ResetSti

  datatype NmUeRrcToRrc = TriggerCycle

  datatype NmUeRlsToRrc =
    | DownlinkRrcDelivery(cellId: int, channel: RrcChannel, pdu: Octets)
    | SignalChanged(cellId: int, dbm: int)
    | RadioLinkFailure(rlfCause: RlfCause)

  datatype NmUeNasToNas =
    | PerformMmCycle
    | NasTimerExpire(timer: NasTimerRef)

  datatype NmUeNasToApp =
    | PerformSwitchOff
    | DownlinkDataDelivery(psi: int, data: Octets)

  datatype NmUeAppToNas = UplinkDataDelivery(psi: int, data: Octets)

  datatype NmUeNasToRls = DataPduDelivery(psi: int, pdu: Octets)

  datatype NmUeRlsToNas = DataPduDelivery(psi: int, pdu: Octets)

  datatype NmUeRlsToRls =
    | ReceiveRlsMessage(cellId: int, msg: RlsMessage)
    | SignalChanged(cellId: int, dbm: int)
    | UplinkData(psi: int, data: Octets)
    | UplinkRrc(cellId: int, rrcChannel: RrcChannel, pduId: uint32, data: Octets)
    | DownlinkData(psi: int, data: Octets)
    | DownlinkRrc(cellId: int, rrcChannel: RrcChannel, data: Octets)
    | RadioLinkFailure(rlfCause: RlfCause)
    | TransmissionFailure(pduList: seq<PduInfo>)
    | AssignCurrentCell(cellId: int)

  /** NmUeStatusUpdate, told apart by the integer `what`. */
  datatype NmUeStatusUpdate =
    | SessionEstablishment(pduSession: PduSessionRef)
    | SessionRelease(psi: int)
    | CmStateChanged(cmState: CmState)

  const SESSION_ESTABLISHMENT: int := 1
  const SESSION_RELEASE: int := 2
  const CM_STATE: int := 3

  /** The `what` discriminant a status update is built with. */
  function StatusWhat(u: NmUeStatusUpdate): int
  {
    match u
    case SessionEstablishment(_) => SESSION_ESTABLISHMENT
    case SessionRelease(_) => SESSION_RELEASE
    case CmStateChanged(_) => CM_STATE
  }

  /** A check of the discriminant table: the three kinds carry distinct
      discriminants 1, 2 and 3, so `what` tells a receiver which field is meaningful. */
  lemma StatusWhatDistinguishesKinds(a: NmUeStatusUpdate, b: NmUeStatusUpdate)
    ensures 1 <= StatusWhat(a) <= 3
    ensures StatusWhat(a) == StatusWhat(b) <==>
              (a.SessionEstablishment? && b.SessionEstablishment?) ||
              (a.SessionRelease? && b.SessionRelease?) ||
              (a.CmStateChanged? && b.CmStateChanged?)
  {
  }

  // ---- The relay family between the two RRC tasks ----

  /** NmRgnbRrcToRrc: NAS payloads crossing between the device RRC and the station RRC. */
  datatype NmRgnbRrcToRrc =
    | InitialNasDelivery(ueId: int, pdu: Octets)
    | UplinkNasDelivery(ueId: int, pdu: Octets)
    | DownlinkNasDelivery(ueId: int, pdu: Octets)

  // ---- The mailbox message: family plus variant ----

  /** NtsMessageType: the family discriminant of a mailbox message. */
  datatype NtsMessageType =
    | GNB_RLS_TO_RRC | GNB_RLS_TO_GTP | GNB_GTP_TO_RLS | GNB_RLS_TO_RLS | GNB_RRC_TO_RLS
    | GNB_NGAP_TO_RRC | GNB_RRC_TO_NGAP | GNB_NGAP_TO_GTP | GNB_SCTP | GNB_STATUS_UPDATE
    | GNB_CLI_COMMAND
    | UE_APP_TO_TUN | UE_TUN_TO_APP | UE_RRC_TO_NAS | UE_NAS_TO_RRC | UE_RRC_TO_RLS
    | UE_RRC_TO_RRC | UE_RLS_TO_RRC | UE_NAS_TO_NAS | UE_NAS_TO_APP | UE_APP_TO_NAS
    | UE_NAS_TO_RLS | UE_RLS_TO_NAS | UE_RLS_TO_RLS | UE_STATUS_UPDATE | UE_CLI_COMMAND
    | RGNB_RRC_TO_RRC | TIMER_EXPIRED

  /** Anything a task's mailbox can hold. */
  datatype NtsMessage =
    | GnbRlsToRrc(gnbRlsToRrc: NmGnbRlsToRrc)
    | GnbRlsToGtp(gnbRlsToGtp: NmGnbRlsToGtp)
    | GnbGtpToRls(gnbGtpToRls: NmGnbGtpToRls)
    | GnbRlsToRls(gnbRlsToRls: NmGnbRlsToRls)
    | GnbRrcToRls(gnbRrcToRls: NmGnbRrcToRls)
    | GnbNgapToRrc(gnbNgapToRrc: NmGnbNgapToRrc)
    | GnbRrcToNgap(gnbRrcToNgap: NmGnbRrcToNgap)
    | GnbNgapToGtp(gnbNgapToGtp: NmGnbNgapToGtp)
    | GnbSctp(gnbSctp: NmGnbSctp)
    | GnbStatusUpdate(gnbStatus: NmGnbStatusUpdate)
    | GnbCliCommandMsg(gnbCmd: GnbCliCommand, gnbCmdAddress: InetAddress)
    | AppToTun(appToTun: NmAppToTun)
    | UeTunToApp(ueTunToApp: NmUeTunToApp)
    | UeRrcToNas(ueRrcToNas: NmUeRrcToNas)
    | UeNasToRrc(ueNasToRrc: NmUeNasToRrc)
    | UeRrcToRls(ueRrcToRls: NmUeRrcToRls)
    | UeRrcToRrc(ueRrcToRrc: NmUeRrcToRrc)
    | UeRlsToRrc(ueRlsToRrc: NmUeRlsToRrc)
    | UeNasToNas(ueNasToNas: NmUeNasToNas)
    | UeNasToApp(ueNasToApp: NmUeNasToApp)
    | UeAppToNas(ueAppToNas: NmUeAppToNas)
    | UeNasToRls(ueNasToRls: NmUeNasToRls)
    | UeRlsToNas(ueRlsToNas: NmUeRlsToNas)
    | UeRlsToRls(ueRlsToRls: NmUeRlsToRls)
    | UeStatusUpdate(ueStatus: NmUeStatusUpdate)
    | UeCliCommandMsg(ueCmd: UeCliCommand, ueCmdAddress: InetAddress)
    | RgnbRrcToRrc(rgnbRrcToRrc: NmRgnbRrcToRrc)
    | TimerExpired(timerId: int)

  /** The family tag each message constructor stamps on the message. */
  function MsgType(m: NtsMessage): NtsMessageType
  {
    match m
    case GnbRlsToRrc(_) => GNB_RLS_TO_RRC
    case GnbRlsToGtp(_) => GNB_RLS_TO_GTP
    case GnbGtpToRls(_) => GNB_GTP_TO_RLS
    case GnbRlsToRls(_) => GNB_RLS_TO_RLS
    case GnbRrcToRls(_) => GNB_RRC_TO_RLS
    case GnbNgapToRrc(_) => GNB_NGAP_TO_RRC
    case GnbRrcToNgap(_) => GNB_RRC_TO_NGAP
    case GnbNgapToGtp(_) => GNB_NGAP_TO_GTP
    case GnbSctp(_) => GNB_SCTP
    case GnbStatusUpdate(_) => GNB_STATUS_UPDATE
    case GnbCliCommandMsg(_, _) => GNB_CLI_COMMAND
    case AppToTun(_) => UE_APP_TO_TUN
    case UeTunToApp(_) => UE_TUN_TO_APP
    case UeRrcToNas(_) => UE_RRC_TO_NAS
    case UeNasToRrc(_) => UE_NAS_TO_RRC
    case UeRrcToRls(_) => UE_RRC_TO_RLS
    case UeRrcToRrc(_) => UE_RRC_TO_RRC
    case UeRlsToRrc(_) => UE_RLS_TO_RRC
    case UeNasToNas(_) => UE_NAS_TO_NAS
    case UeNasToApp(_) => UE_NAS_TO_APP
    case UeAppToNas(_) => UE_APP_TO_NAS
    case UeNasToRls(_) => UE_NAS_TO_RLS
    case UeRlsToNas(_) => UE_RLS_TO_NAS
    case UeRlsToRls(_) => UE_RLS_TO_RLS
    case UeStatusUpdate(_) => UE_STATUS_UPDATE
    case UeCliCommandMsg(_, _) => UE_CLI_COMMAND
    case RgnbRrcToRrc(_) => RGNB_RRC_TO_RRC
    case TimerExpired(_) => TIMER_EXPIRED
  }

  /** A check of the family-tag table: a handler that switches on the family tag and
      then downcasts never picks the wrong struct, because the tags the relay tasks
      dispatch on identify their family. */
  lemma TagIdentifiesFamily(m: NtsMessage)
    ensures MsgType(m) == GNB_RLS_TO_RRC <==> m.GnbRlsToRrc?
    ensures MsgType(m) == GNB_RLS_TO_RLS <==> m.GnbRlsToRls?
    ensures MsgType(m) == GNB_RRC_TO_RLS <==> m.GnbRrcToRls?
    ensures MsgType(m) == GNB_GTP_TO_RLS <==> m.GnbGtpToRls?
    ensures MsgType(m) == GNB_NGAP_TO_RRC <==> m.GnbNgapToRrc?
    ensures MsgType(m) == UE_NAS_TO_RRC <==> m.UeNasToRrc?
    ensures MsgType(m) == UE_RLS_TO_RRC <==> m.UeRlsToRrc?
    ensures MsgType(m) == UE_RRC_TO_RRC <==> m.UeRrcToRrc?
    ensures MsgType(m) == RGNB_RRC_TO_RRC <==> m.RgnbRrcToRrc?
    ensures MsgType(m) == TIMER_EXPIRED <==> m.TimerExpired?
  {
  }

  /** The user equipment identifier a message is about, where it carries one. */
  function UeIdOf(m: NtsMessage): Option<int>
  {
    match m
    case GnbRlsToRrc(w) => Some(w.ueId)
    case GnbRlsToGtp(w) => Some(w.ueId)
    case GnbGtpToRls(w) => Some(w.ueId)
    case GnbRlsToRls(w) =>
      if w.ReceiveRlsMessage? || w.RadioLinkFailure? || w.TransmissionFailure? then None else Some(w.ueId)
    case GnbRrcToRls(w) => Some(w.ueId)
    case GnbNgapToRrc(w) => if w.NasDelivery? || w.AnRelease? then Some(w.ueId) else None
    case GnbRrcToNgap(w) => Some(w.ueId)
    case RgnbRrcToRrc(w) => Some(w.ueId)
    case _ => None
  }

  /** The opaque byte payload a message carries, where it carries one. */
  function PayloadOf(m: NtsMessage): Option<Octets>
  {
    match m
    case GnbRlsToRrc(w) => if w.UplinkRrc? then Some(w.data) else None
    case GnbRlsToGtp(w) => Some(w.pdu)
    case GnbGtpToRls(w) => Some(w.pdu)
    case GnbRlsToRls(w) =>
      if w.DownlinkRrc? || w.DownlinkData? || w.UplinkRrc? || w.UplinkData? then Some(w.data) else None
    case GnbRrcToRls(w) => Some(w.pdu)
    case GnbNgapToRrc(w) => if w.NasDelivery? then Some(w.pdu) else None
    case GnbRrcToNgap(w) => if w.RadioLinkFailure? then None else Some(w.pdu)
    case UeNasToRrc(w) => if w.UplinkNasDelivery? then Some(w.nasPdu) else None
    case UeRlsToRrc(w) => if w.DownlinkRrcDelivery? then Some(w.pdu) else None
    case RgnbRrcToRrc(w) => Some(w.pdu)
    case _ => None
  }

  /** The PDU session identity a user-plane message is for. */
  function PsiOf(m: NtsMessage): Option<int>
  {
    match m
    case GnbRlsToGtp(w) => Some(w.psi)
    case GnbGtpToRls(w) => Some(w.psi)
    case GnbRlsToRls(w) => if w.DownlinkData? || w.UplinkData? then Some(w.psi) else None
    case _ => None
  }

  /** The RRC channel a control-plane message travels on. */
  function ChannelOf(m: NtsMessage): Option<RrcChannel>
  {
    match m
    case GnbRlsToRrc(w) => if w.UplinkRrc? then Some(w.rrcChannel) else None
    case GnbRlsToRls(w) => if w.DownlinkRrc? || w.UplinkRrc? then Some(w.rrcChannel) else None
    case GnbRrcToRls(w) => Some(w.channel)
    case _ => None
  }
}
