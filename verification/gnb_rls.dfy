/** The station RLS task's message loop (GnbRlsTask::onLoop in
    src/rgnb/gnbRls/task.cpp). It keeps no state of its own: each message is
    translated into at most one message to a fixed neighbour, with the identifiers
    and the payload carried over, or logged as unhandled. */
module GnbRls {
  import opened Messages
  import opened Effects

  /** The content a translation must carry across: UE id, PDU session, RRC channel
      and payload bytes, as the message catalog locates them in each family. */
  predicate SameContent(a: NtsMessage, b: NtsMessage)
  {
    UeIdOf(a) == UeIdOf(b) && PsiOf(a) == PsiOf(b) &&
    ChannelOf(a) == ChannelOf(b) && PayloadOf(a) == PayloadOf(b)
  }

  /** The inner variants of the RLS-to-RLS family this loop does not handle. */
  predicate UnhandledRlsVariant(w: NmGnbRlsToRls)
  {
    w.ReceiveRlsMessage? || w.DownlinkRrc? || w.DownlinkData?
  }

  /** The variants it handles by only writing a debug line. */
  predicate QuietRlsVariant(w: NmGnbRlsToRls)
  {
    w.SignalLost? || w.RadioLinkFailure? || w.TransmissionFailure?
  }

  /** onLoop for one message. */
  function Route(m: NtsMessage): (out: seq<Effect>)
    ensures |out| <= 1
    ensures |out| == 1 && out[0].Send? ==> SameContent(m, out[0].msg)
    ensures m.GnbRlsToRls? && m.gnbRlsToRls.SignalDetected? ==>
              out == [Send(GnbRrcTask, GnbRlsToRrc(NmGnbRlsToRrc.SignalDetected(m.gnbRlsToRls.ueId)))]
    ensures m.GnbRlsToRls? && m.gnbRlsToRls.UplinkData? ==>
              out == [Send(GnbGtpTask, GnbRlsToGtp(NmGnbRlsToGtp.DataPduDelivery(
                         m.gnbRlsToRls.ueId, m.gnbRlsToRls.psi, m.gnbRlsToRls.data)))]
    ensures m.GnbRlsToRls? && m.gnbRlsToRls.UplinkRrc? ==>
              out == [Send(GnbRrcTask, GnbRlsToRrc(NmGnbRlsToRrc.UplinkRrc(
                         m.gnbRlsToRls.ueId, m.gnbRlsToRls.data, m.gnbRlsToRls.rrcChannel)))]
    ensures m.GnbRrcToRls? ==>
              out == [Send(RlsControlTask, GnbRlsToRls(NmGnbRlsToRls.DownlinkRrc(
                         m.gnbRrcToRls.ueId, m.gnbRrcToRls.pdu, 0, m.gnbRrcToRls.channel)))]
    ensures m.GnbGtpToRls? ==>
              out == [Send(RlsControlTask, GnbRlsToRls(NmGnbRlsToRls.DownlinkData(
                         m.gnbGtpToRls.ueId, m.gnbGtpToRls.psi, m.gnbGtpToRls.pdu)))]
    ensures out == [] <==> m.GnbRlsToRls? && QuietRlsVariant(m.gnbRlsToRls)
    ensures out == [LogUnhandled(MsgType(m))] <==>
              !(m.GnbRlsToRls? || m.GnbRrcToRls? || m.GnbGtpToRls?) ||
              (m.GnbRlsToRls? && UnhandledRlsVariant(m.gnbRlsToRls))
  {
    match m
    case GnbRlsToRls(w) =>
      (match w
       case SignalDetected(ueId) => [Send(GnbRrcTask, GnbRlsToRrc(NmGnbRlsToRrc.SignalDetected(ueId)))]
       case SignalLost(_) => []
       case UplinkData(ueId, psi, data) =>
         [Send(GnbGtpTask, GnbRlsToGtp(NmGnbRlsToGtp.DataPduDelivery(ueId, psi, data)))]
       case UplinkRrc(ueId, data, rrcChannel) =>
         [Send(GnbRrcTask, GnbRlsToRrc(NmGnbRlsToRrc.UplinkRrc(ueId, data, rrcChannel)))]
       case RadioLinkFailure(_) => []
       case TransmissionFailure(_) => []
       case _ => [LogUnhandled(MsgType(m))])
    case GnbRrcToRls(w) =>
      [Send(RlsControlTask, GnbRlsToRls(NmGnbRlsToRls.DownlinkRrc(w.ueId, w.pdu, 0, w.channel)))]
    case GnbGtpToRls(w) =>
      [Send(RlsControlTask, GnbRlsToRls(NmGnbRlsToRls.DownlinkData(w.ueId, w.psi, w.pdu)))]
    case _ => [LogUnhandled(MsgType(m))]
  }

  /** Downlink traffic from RRC and GTP goes only to the RLS control task, uplink
      traffic only to RRC or GTP; nothing is ever sent back to the sender's family. */
  lemma RouteDirection(m: NtsMessage)
    ensures (m.GnbRrcToRls? || m.GnbGtpToRls?) ==> |SentTo(Route(m), RlsControlTask)| == 1
    ensures m.GnbRlsToRls? ==> SentTo(Route(m), RlsControlTask) == []
    ensures m.GnbGtpToRls? ==> SentTo(Route(m), GnbGtpTask) == []
    ensures m.GnbRrcToRls? ==> SentTo(Route(m), GnbRrcTask) == []
  {
  }
}
