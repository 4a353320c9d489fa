/** The station RRC task's start-up and message loop (GnbRrcTask::onStart and
    onLoop in src/rgnb/gnbRrc/task.cpp). Of its fields only the barring flag is
    written here; every other action is a call into a routine outside the model. */
module GnbRrc {
  import opened Messages
  import opened Effects

  const TIMER_ID_SI_BROADCAST: int := 1
  const TIMER_PERIOD_SI_BROADCAST: int := 10000

  datatype GnbRrcState = GnbRrcState(isBarred: bool)

  datatype Outcome = Outcome(next: GnbRrcState, out: seq<Effect>)

  /** onStart: only the system-information timer. */
  function OnStart(s: GnbRrcState): (r: Outcome)
    ensures r.next == s
    ensures r.out == [ArmTimer(TIMER_ID_SI_BROADCAST, TIMER_PERIOD_SI_BROADCAST)]
  {
    Outcome(s, [ArmTimer(TIMER_ID_SI_BROADCAST, TIMER_PERIOD_SI_BROADCAST)])
  }

  /** The families onLoop dispatches; the rest are logged as unhandled. */
  predicate Dispatched(t: NtsMessageType)
  {
    t == GNB_RLS_TO_RRC || t == GNB_NGAP_TO_RRC || t == RGNB_RRC_TO_RRC || t == TIMER_EXPIRED
  }

  /** onLoop for one message. */
  function Step(s: GnbRrcState, m: NtsMessage): (r: Outcome)
    ensures r.next.isBarred == if m.GnbNgapToRrc? && m.gnbNgapToRrc.RadioPowerOn? then false else s.isBarred
    ensures |r.out| <= 2
    ensures forall i :: 0 <= i < |r.out| ==> !r.out[i].Send?
    ensures !Dispatched(MsgType(m)) <==> r.out == [LogUnhandled(MsgType(m))]
    ensures m.RgnbRrcToRrc? && !m.rgnbRrcToRrc.DownlinkNasDelivery? ==> r == Outcome(s, [])
    ensures m.GnbRlsToRrc? ==> r == Outcome(s, [Invoke(HandleGnbRlsSap(m.gnbRlsToRrc))])
    ensures m.GnbNgapToRrc? && m.gnbNgapToRrc.Paging? ==>
              r == Outcome(s, [Invoke(HandlePaging(m.gnbNgapToRrc.uePagingTmsi, m.gnbNgapToRrc.taiListForPaging))])
  {
    match m
    case GnbRlsToRrc(w) => Outcome(s, [Invoke(HandleGnbRlsSap(w))])
    case GnbNgapToRrc(w) =>
      (match w
       case RadioPowerOn => Outcome(s.(isBarred := false), [Invoke(TriggerSysInfoBroadcast)])
       case NasDelivery(ueId, pdu) => Outcome(s, [Invoke(HandleDownlinkNasDelivery(ueId, pdu))])
       case AnRelease(ueId) => Outcome(s, [Invoke(ReleaseConnection(ueId))])
       case Paging(tmsi, tais) => Outcome(s, [Invoke(HandlePaging(tmsi, tais))]))
    case RgnbRrcToRrc(w) =>
      (match w
       case DownlinkNasDelivery(ueId, pdu) => Outcome(s, [Invoke(HandleDownlinkNasDelivery(ueId, pdu))])
       case InitialNasDelivery(_, _) => Outcome(s, [])
       case UplinkNasDelivery(_, _) => Outcome(s, []))
    case TimerExpired(timerId) =>
      if timerId == TIMER_ID_SI_BROADCAST then
        Outcome(s, [ArmTimer(TIMER_ID_SI_BROADCAST, TIMER_PERIOD_SI_BROADCAST), Invoke(OnBroadcastTimerExpired)])
      else Outcome(s, [])
    case _ => Outcome(s, [LogUnhandled(MsgType(m))])
  }

  /** A NAS PDU for a UE reaches the downlink handler the same way whether NGAP or
      the relay's device half delivers it. */
  lemma DownlinkNasSameFromBothSides(s: GnbRrcState, ueId: int, pdu: Base.Octets)
    ensures Step(s, GnbNgapToRrc(NmGnbNgapToRrc.NasDelivery(ueId, pdu)))
            == Step(s, RgnbRrcToRrc(NmRgnbRrcToRrc.DownlinkNasDelivery(ueId, pdu)))
    ensures Step(s, GnbNgapToRrc(NmGnbNgapToRrc.NasDelivery(ueId, pdu)))
            == Outcome(s, [Invoke(HandleDownlinkNasDelivery(ueId, pdu))])
  {
  }

  /** Power-on lifts barring before the broadcast it triggers, and the SI timer is
      re-armed before each broadcast; other timers are ignored. */
  lemma PowerOnAndTimer(s: GnbRrcState, timerId: int)
    ensures Step(s, GnbNgapToRrc(RadioPowerOn)) == Outcome(GnbRrcState(false), [Invoke(TriggerSysInfoBroadcast)])
    ensures timerId == TIMER_ID_SI_BROADCAST ==>
              Step(s, TimerExpired(timerId)).out ==
              OnStart(s).out + [Invoke(OnBroadcastTimerExpired)]
    ensures timerId != TIMER_ID_SI_BROADCAST ==> Step(s, TimerExpired(timerId)) == Outcome(s, [])
  {
  }

  /** AN_RELEASE releases exactly the connection it names. */
  lemma AnReleaseTargetsUe(s: GnbRrcState, ueId: int)
    ensures Step(s, GnbNgapToRrc(AnRelease(ueId))) == Outcome(s, [Invoke(ReleaseConnection(ueId))])
  {
  }
}
