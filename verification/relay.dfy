/** The relay seam between the two halves of the node: a downlink NAS PDU the
    device RRC receives is pushed to the station RRC (src/rgnb/ueRrc/nas.cpp), which
    hands it to its downlink NAS routine (src/rgnb/gnbRrc/task.cpp). */
module Relay {
  import opened Messages
  import opened Effects
  import GnbRrc
  import UeRrc

  /** Whatever the device RRC has processed, a downlink NAS transfer it receives
      next reaches the station's downlink NAS routine once, for the UE id of the last
      initial delivery and with the payload unchanged. */
  lemma DownlinkReachesStation(s: UeRrc.UeRrcState, env: UeRrc.Env, msgs: seq<NtsMessage>,
                               g: GnbRrc.GnbRrcState, nasPdu: Base.Octets)
    ensures var dev := UeRrc.Run(s, env, msgs).next;
            var sent := SentTo(UeRrc.ReceiveDownlinkInformationTransfer(dev, nasPdu).out, GnbRrcTask);
            |sent| == 1 &&
            GnbRrc.Step(g, sent[0]) ==
              GnbRrc.Outcome(g, [Invoke(HandleDownlinkNasDelivery(UeRrc.LastInitialUeId(msgs, s.ngapUeId), nasPdu))])
  {
    var id := UeRrc.LastInitialUeId(msgs, s.ngapUeId);
    UeRrc.DownlinkFollowsLastInitial(s, env, msgs, nasPdu);
    GnbRrc.DownlinkNasSameFromBothSides(g, id, nasPdu);
  }
}
