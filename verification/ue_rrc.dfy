/** The device-side RRC task of the relay node (the files of src/rgnb/ueRrc) as a step
    function: a message in, the task's new fields and its outbox out. The relay's
    only correlation state is `ngapUeId`, the station UE id of the last
    INITIAL_NAS_DELIVERY, which every downlink NAS transfer is tagged with. */
module UeRrc {
  import opened Base
  import opened Messages
  import opened Effects
  import UeIdentity
  import Paging

  const TIMER_ID_MACHINE_CYCLE: int := 1
  const TIMER_PERIOD_MACHINE_CYCLE: int := 2500

  /** mt-Access, the third value (2) of EstablishmentCause in section 6.3.2 of
      3GPP TS 38.331. */
  const MT_ACCESS: int := 2

  const NO_ACTIVE_CELL_ERROR: string := "Uplink NAS delivery failed. No active cell"

  /** The fields of UeRrcTask the modelled code reads or writes. */
  datatype UeRrcState = UeRrcState(
    state: RrcState,
    establishmentCause: int,
    ngapUeId: int,
    loggerName: string)

  /** What the task reads from TaskBase: whether the shared current cell is set,
      whether a node listener is attached, and the device configuration. */
  datatype Env = Env(hasActiveCell: bool, hasNodeListener: bool, naming: UeIdentity.UeNaming)

  /** The result of handling one event. */
  datatype Outcome = Outcome(next: UeRrcState, out: seq<Effect>)

  /** The constructor: IDLE, mt-Access, and a logger named after the device. The
      initial ngapUeId is set by a member initializer that is not part of this
      model, so it is a parameter. */
  function Create(naming: UeIdentity.UeNaming, ngapUeId: int): (r: UeRrcState)
    ensures r.state == RRC_IDLE && r.establishmentCause == MT_ACCESS && r.ngapUeId == ngapUeId
    ensures |r.loggerName| >= 5 && r.loggerName[|r.loggerName| - 5..] == "ueRrc"
    ensures r.loggerName == "ueRrc" <==> !naming.prefixLogger
  {
    var prefix := UeIdentity.LoggerPrefix(naming);
    UeRrcState(RRC_IDLE, MT_ACCESS, ngapUeId, prefix + "ueRrc")
  }

  /** The message triggerCycle pushes to the task's own mailbox. */
  const TRIGGER_CYCLE_MSG: NtsMessage := UeRrcToRrc(TriggerCycle)

  /** triggerCycle: only a TRIGGER_CYCLE to itself. */
  function TriggerCycleStep(s: UeRrcState): (r: Outcome)
    ensures r.next == s
    ensures SentTo(r.out, UeRrcTask) == [TRIGGER_CYCLE_MSG] && |r.out| == 1
  {
    Outcome(s, [Send(UeRrcTask, TRIGGER_CYCLE_MSG)])
  }

  /** onStart: one cycle trigger, then the machine-cycle timer. */
  function OnStart(s: UeRrcState): (r: Outcome)
    ensures r.next == s
    ensures SentTo(r.out, UeRrcTask) == [TRIGGER_CYCLE_MSG]
    ensures |r.out| == 2 && r.out[1] == ArmTimer(TIMER_ID_MACHINE_CYCLE, TIMER_PERIOD_MACHINE_CYCLE)
  {
    var timer := [ArmTimer(TIMER_ID_MACHINE_CYCLE, TIMER_PERIOD_MACHINE_CYCLE)];
    SendsAppend(TriggerCycleStep(s).out, timer);
    assert SentTo(timer, UeRrcTask) == [] by { assert timer[1..] == []; }
    Outcome(s, TriggerCycleStep(s).out + timer)
  }

  /** performCycle: cell selection unless connected. */
  function PerformCycle(s: UeRrcState): (r: Outcome)
    ensures r.next == s
    ensures r.out == [] <==> s.state == RRC_CONNECTED
    ensures r.out != [] ==> r.out == [Invoke(PerformCellSelection)]
  {
    match s.state
    case RRC_CONNECTED => Outcome(s, [])
    case RRC_IDLE => Outcome(s, [Invoke(PerformCellSelection)])
    case RRC_INACTIVE => Outcome(s, [Invoke(PerformCellSelection)])
  }

  /** switchState: the new state is taken unconditionally and the listener, when
      attached, hears (old, new) once. */
  function SwitchState(s: UeRrcState, env: Env, newState: RrcState): (r: Outcome)
    ensures r.next == s.(state := newState)
    ensures r.out == [] <==> !env.hasNodeListener
    ensures env.hasNodeListener ==>
              r.out == [NotifySwitch(UeIdentity.NodeName(env.naming), s.state, newState)]
  {
    var notify := if env.hasNodeListener
                  then [NotifySwitch(UeIdentity.NodeName(env.naming), s.state, newState)]
                  else [];
    Outcome(s.(state := newState), notify)
  }

  /** deliverUplinkNas: the active-cell check comes first, then the empty check,
      then the state decides. The PDU id takes no part. */
  function DeliverUplinkNas(s: UeRrcState, env: Env, pduId: uint32, nasPdu: Octets): (r: Outcome)
    ensures r.next == s
    ensures r.out == [LogError(NO_ACTIVE_CELL_ERROR)] <==> !env.hasActiveCell
    ensures r.out == [Invoke(StartConnectionEstablishment(nasPdu))] <==>
              env.hasActiveCell && |nasPdu| > 0 && s.state == RRC_IDLE
    ensures r.out == [Invoke(SendUlInformationTransfer(nasPdu))] <==>
              env.hasActiveCell && |nasPdu| > 0 && s.state == RRC_CONNECTED
    ensures r.out == [] <==> env.hasActiveCell && (|nasPdu| == 0 || s.state == RRC_INACTIVE)
  {
    if !env.hasActiveCell then Outcome(s, [LogError(NO_ACTIVE_CELL_ERROR)])
    else if |nasPdu| == 0 then Outcome(s, [])
    else
      match s.state
      case RRC_IDLE => Outcome(s, [Invoke(StartConnectionEstablishment(nasPdu))])
      case RRC_INACTIVE => Outcome(s, [])
      case RRC_CONNECTED => Outcome(s, [Invoke(SendUlInformationTransfer(nasPdu))])
  }

  /** Two deliveries differing only in PDU id behave the same. */
  lemma DeliverIgnoresPduId(s: UeRrcState, env: Env, a: uint32, b: uint32, nasPdu: Octets)
    ensures DeliverUplinkNas(s, env, a, nasPdu) == DeliverUplinkNas(s, env, b, nasPdu)
  {
  }

  /** receiveDownlinkInformationTransfer: the NAS payload goes to the station RRC
      as a DOWNLINK_NAS_DELIVERY tagged with the stored ngapUeId, and not to NAS. */
  function ReceiveDownlinkInformationTransfer(s: UeRrcState, nasPdu: Octets): (r: Outcome)
    ensures r.next == s && |r.out| == 1
    ensures SentTo(r.out, GnbRrcTask) == [RgnbRrcToRrc(DownlinkNasDelivery(s.ngapUeId, nasPdu))]
    ensures SentTo(r.out, UeNasTask) == []
  {
    Outcome(s, [Send(GnbRrcTask, RgnbRrcToRrc(DownlinkNasDelivery(s.ngapUeId, nasPdu)))])
  }

  /** handleRadioLinkFailure: back to IDLE by direct assignment, so no listener
      notification and nothing sent. */
  function HandleRadioLinkFailure(s: UeRrcState, cause: RlfCause): (r: Outcome)
    ensures r.next == s.(state := RRC_IDLE) && r.out == []
  {
    Outcome(s.(state := RRC_IDLE), [])
  }

  /** declareRadioLinkFailure: delegates to handleRadioLinkFailure, so it too lands
      in IDLE silently. */
  function DeclareRadioLinkFailure(s: UeRrcState, cause: RlfCause): (r: Outcome)
    ensures r.next == s.(state := RRC_IDLE) && r.out == []
  {
    HandleRadioLinkFailure(s, cause)
  }

  /** receivePaging: the PAGING notification listing the paged 5G-S-TMSIs is built,
      but it is handed to no task, so the step changes nothing and sends nothing. */
  function ReceivePaging(s: UeRrcState, records: seq<Paging.PagingRecord>): (r: (Outcome, NmUeRrcToNas))
    ensures r.0 == Outcome(s, [])
    ensures r.1.Paging? && r.1.pagingTmsi == Paging.PagingTmsiList(records)
    ensures |r.1.pagingTmsi| <= |records|
    ensures forall g :: g in r.1.pagingTmsi ==> Paging.FitsSTmsi(g)
  {
    (Outcome(s, []), Paging.BuildPagingNotification(records))
  }

  /** Radio link failure is idempotent and blind to its cause. */
  lemma RadioLinkFailureIdempotent(s: UeRrcState, c1: RlfCause, c2: RlfCause)
    ensures HandleRadioLinkFailure(HandleRadioLinkFailure(s, c1).next, c2) == HandleRadioLinkFailure(s, c1)
    ensures HandleRadioLinkFailure(s, c1) == HandleRadioLinkFailure(s, c2)
  {
  }

  /** Radio link failure lands where a switch to IDLE lands, but tells no listener. */
  lemma RadioLinkFailureBypassesSwitch(s: UeRrcState, env: Env, c: RlfCause)
    ensures HandleRadioLinkFailure(s, c).next == SwitchState(s, env, RRC_IDLE).next
    ensures env.hasNodeListener ==> HandleRadioLinkFailure(s, c).out != SwitchState(s, env, RRC_IDLE).out
  {
  }

  /** handleRlsSapMessage. */
  function HandleRlsSap(s: UeRrcState, m: NmUeRlsToRrc): (r: Outcome)
    ensures m.RadioLinkFailure? ==> r == HandleRadioLinkFailure(s, m.rlfCause)
    ensures !m.RadioLinkFailure? ==> r.next == s && |r.out| == 1
    ensures m.SignalChanged? ==> r.out == [Invoke(HandleCellSignalChange(m.cellId, m.dbm))]
    ensures m.DownlinkRrcDelivery? ==> r.out == [Invoke(HandleDownlinkRrc(m.cellId, m.channel, m.pdu))]
  {
    match m
    case SignalChanged(cellId, dbm) => Outcome(s, [Invoke(HandleCellSignalChange(cellId, dbm))])
    case DownlinkRrcDelivery(cellId, channel, pdu) => Outcome(s, [Invoke(HandleDownlinkRrc(cellId, channel, pdu))])
    case RadioLinkFailure(cause) => HandleRadioLinkFailure(s, cause)
  }

  /** handleNasSapMessage. A local release ignores treatBarred, switches to IDLE and
      resets the STI; PERFORM_UAC reaches the UAC routine only while the requester
      still waits. */
  function HandleNasSap(s: UeRrcState, env: Env, m: NmUeNasToRrc): (r: Outcome)
    ensures r.next.ngapUeId == s.ngapUeId
    ensures m.UplinkNasDelivery? ==> r == DeliverUplinkNas(s, env, m.pduId, m.nasPdu)
    ensures m.LocalReleaseConnection? ==>
              r.next == s.(state := RRC_IDLE) &&
              SentTo(r.out, UeRlsTask) == [UeRrcToRls(ResetSti)] &&
              SentTo(r.out, UeNasTask) == []
    ensures m.LocalReleaseConnection? ==>
              r.out == SwitchState(s, env, RRC_IDLE).out + [Send(UeRlsTask, UeRrcToRls(ResetSti))]
    ensures m.RrcNotify? ==> r == TriggerCycleStep(s)
    ensures m.PerformUac? ==>
              (r.next == s &&
               (r.out == [Invoke(Hook.PerformUac(m.uacCtl))] <==> !m.uacCtl.expiredForProducer) &&
               (r.out == [] <==> m.uacCtl.expiredForProducer))
  {
    match m
    case UplinkNasDelivery(pduId, nasPdu) => DeliverUplinkNas(s, env, pduId, nasPdu)
    case LocalReleaseConnection(treatBarred) =>
      var sw := SwitchState(s, env, RRC_IDLE);
      var out := sw.out + [Send(UeRlsTask, UeRrcToRls(ResetSti))];
      SendsAppend(sw.out, [Send(UeRlsTask, UeRrcToRls(ResetSti))]);
      Outcome(sw.next, out)
    case RrcNotify => TriggerCycleStep(s)
    case PerformUac(uacCtl) =>
      if !uacCtl.expiredForProducer then Outcome(s, [Invoke(Hook.PerformUac(uacCtl))]) else Outcome(s, [])
  }

  /** handleRrcSapMessage (the relay family from the station RRC): INITIAL records
      the station UE id and then delivers with PDU id 0, UPLINK delivers with PDU id
      0, DOWNLINK is ignored. */
  function HandleRrcSap(s: UeRrcState, env: Env, m: NmRgnbRrcToRrc): (r: Outcome)
    ensures r.next.ngapUeId == if m.InitialNasDelivery? then m.ueId else s.ngapUeId
    ensures m.InitialNasDelivery? ==> r == DeliverUplinkNas(s.(ngapUeId := m.ueId), env, 0, m.pdu)
    ensures m.UplinkNasDelivery? ==> r == DeliverUplinkNas(s, env, 0, m.pdu)
    ensures m.DownlinkNasDelivery? ==> r == Outcome(s, [])
  {
    match m
    case InitialNasDelivery(ueId, pdu) => DeliverUplinkNas(s.(ngapUeId := ueId), env, 0, pdu)
    case UplinkNasDelivery(_, pdu) => DeliverUplinkNas(s, env, 0, pdu)
    case DownlinkNasDelivery(_, _) => Outcome(s, [])
  }

  /** The families onLoop dispatches; everything else is logged as unhandled. */
  predicate Dispatched(t: NtsMessageType)
  {
    t == RGNB_RRC_TO_RRC || t == UE_NAS_TO_RRC || t == UE_RLS_TO_RRC || t == UE_RRC_TO_RRC || t == TIMER_EXPIRED
  }

  /** Whether a message is a relay INITIAL_NAS_DELIVERY, the one event that writes
      the correlation field. */
  predicate IsInitialDelivery(m: NtsMessage)
  {
    m.RgnbRrcToRrc? && m.rgnbRrcToRrc.InitialNasDelivery?
  }

  /** onLoop for one message. */
  function Step(s: UeRrcState, env: Env, m: NtsMessage): (r: Outcome)
    ensures r.next.establishmentCause == s.establishmentCause && r.next.loggerName == s.loggerName
    ensures r.next.state == s.state || r.next.state == RRC_IDLE
    ensures r.next.ngapUeId == if IsInitialDelivery(m) then m.rgnbRrcToRrc.ueId else s.ngapUeId
    ensures !Dispatched(MsgType(m)) <==> r.out == [LogUnhandled(MsgType(m))]
    ensures !Dispatched(MsgType(m)) ==> r.next == s
  {
    if Dispatched(MsgType(m)) then Dispatch(s, env, m)
    else Outcome(s, [LogUnhandled(MsgType(m))])
  }

  /** The families onLoop hands to a handler. */
  function Dispatch(s: UeRrcState, env: Env, m: NtsMessage): (r: Outcome)
    requires Dispatched(MsgType(m))
    ensures r.next.establishmentCause == s.establishmentCause && r.next.loggerName == s.loggerName
    ensures r.next.state == s.state || r.next.state == RRC_IDLE
    ensures r.next.ngapUeId == if IsInitialDelivery(m) then m.rgnbRrcToRrc.ueId else s.ngapUeId
    ensures r.out != [LogUnhandled(MsgType(m))]
    ensures m.RgnbRrcToRrc? ==> r == HandleRrcSap(s, env, m.rgnbRrcToRrc)
    ensures m.UeNasToRrc? ==> r == HandleNasSap(s, env, m.ueNasToRrc)
    ensures m.UeRlsToRrc? ==> r == HandleRlsSap(s, m.ueRlsToRrc)
  {
    match m
    case RgnbRrcToRrc(w) => HandleRrcSap(s, env, w)
    case UeNasToRrc(w) => HandleNasSap(s, env, w)
    case UeRlsToRrc(w) => HandleRlsSap(s, w)
    case UeRrcToRrc(w) =>
      (match w
       case TriggerCycle => PerformCycle(s))
    case TimerExpired(timerId) =>
      if timerId == TIMER_ID_MACHINE_CYCLE then
        var c := PerformCycle(s);
        var out := [ArmTimer(TIMER_ID_MACHINE_CYCLE, TIMER_PERIOD_MACHINE_CYCLE)] + c.out;
        assert out[0].ArmTimer?;
        Outcome(c.next, out)
      else Outcome(s, [])
  }

  /** Timer 1 re-arms itself before exactly one cycle; other timers do nothing. */
  lemma TimerExpiry(s: UeRrcState, env: Env, timerId: int)
    ensures timerId == TIMER_ID_MACHINE_CYCLE ==>
              Step(s, env, TimerExpired(timerId)) ==
              Outcome(s, [ArmTimer(TIMER_ID_MACHINE_CYCLE, TIMER_PERIOD_MACHINE_CYCLE)] + PerformCycle(s).out)
    ensures timerId != TIMER_ID_MACHINE_CYCLE ==> Step(s, env, TimerExpired(timerId)) == Outcome(s, [])
  {
  }

  /** The cycle trigger onStart queues, once taken, runs exactly one cycle. */
  lemma StartTriggersOneCycle(s: UeRrcState, env: Env)
    ensures var queued := SentTo(OnStart(s).out, UeRrcTask);
            |queued| == 1 && Step(s, env, queued[0]) == PerformCycle(s)
  {
  }

  /** The lifetime of the task over a sequence of messages, in mailbox order. */
  function Run(s: UeRrcState, env: Env, msgs: seq<NtsMessage>): Outcome
  {
    if |msgs| == 0 then Outcome(s, [])
    else
      var before := Run(s, env, msgs[..|msgs| - 1]);
      var last := Step(before.next, env, msgs[|msgs| - 1]);
      Outcome(last.next, before.out + last.out)
  }

  /** The station UE id carried by the most recent INITIAL_NAS_DELIVERY in msgs, or
      `none` when there was none. */
  function LastInitialUeId(msgs: seq<NtsMessage>, none: int): int
  {
    if |msgs| == 0 then none
    else if IsInitialDelivery(msgs[|msgs| - 1]) then msgs[|msgs| - 1].rgnbRrcToRrc.ueId
    else LastInitialUeId(msgs[..|msgs| - 1], none)
  }

  /** The correlation slot: after any run, ngapUeId is the UE id of the last initial
      delivery, or what it was before the run. */
  lemma {:induction false} CorrelationSlot(s: UeRrcState, env: Env, msgs: seq<NtsMessage>)
    ensures Run(s, env, msgs).next.ngapUeId == LastInitialUeId(msgs, s.ngapUeId)
  {
    if |msgs| > 0 {
      CorrelationSlot(s, env, msgs[..|msgs| - 1]);
    }
  }

  /** So a downlink transfer received after any run is tagged with that UE id. */
  lemma DownlinkFollowsLastInitial(s: UeRrcState, env: Env, msgs: seq<NtsMessage>, nasPdu: Octets)
    ensures SentTo(ReceiveDownlinkInformationTransfer(Run(s, env, msgs).next, nasPdu).out, GnbRrcTask)
            == [RgnbRrcToRrc(DownlinkNasDelivery(LastInitialUeId(msgs, s.ngapUeId), nasPdu))]
  {
    CorrelationSlot(s, env, msgs);
  }

  /** None of the modelled handlers leaves IDLE by itself: the only writes of the
      state in the modelled code go to IDLE. The routines that do leave IDLE
      (startConnectionEstablishment, handleDownlinkRrc on an RRC Setup) are `Invoke`
      effects, and their writes to the task's fields are outside the model, so this
      is a property of the modelled handlers, not of the whole task. */
  lemma {:induction false} IdleIsClosed(s: UeRrcState, env: Env, msgs: seq<NtsMessage>)
    requires s.state == RRC_IDLE
    ensures Run(s, env, msgs).next.state == RRC_IDLE
    ensures Run(s, env, msgs).next.establishmentCause == s.establishmentCause
  {
    if |msgs| > 0 {
      IdleIsClosed(s, env, msgs[..|msgs| - 1]);
    }
  }
}
