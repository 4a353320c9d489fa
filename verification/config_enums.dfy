/** The string-to-enum decisions inside ReadGnbConfigYaml and ReadUeConfigYaml
    (src/rgnb.cpp). File loading is outside the model; what is kept is which texts
    are accepted, what each becomes, and which error the rest raise. */
module ConfigEnums {
  import opened Base

  datatype OpType = OP | OPC

  /** The `opType` field: "OP" or "OPC", anything else is a configuration error. */
  function ParseOpType(s: string): (r: Result<OpType, string>)
    ensures r == Success(OP) <==> s == "OP"
    ensures r == Success(OPC) <==> s == "OPC"
    ensures r.Failure? <==> s != "OP" && s != "OPC"
    ensures r.Failure? ==> r.error == "Invalid OP type: " + s
  {
    if s == "OP" then Success(OP)
    else if s == "OPC" then Success(OPC)
    else Failure("Invalid OP type: " + s)
  }

  /** The configuration name of each OP type. */
  function OpTypeName(t: OpType): string
  {
    match t
    case OP => "OP"
    case OPC => "OPC"
  }

  /** Every OP type is accepted back from its name. */
  lemma OpTypeRoundTrip(t: OpType)
    ensures ParseOpType(OpTypeName(t)) == Success(t)
  {
  }

  /** nas::EPduSessionType, the values a default session may use. */
  datatype PduSessionType = IPV4 | IPV6 | IPV4V6 | UNSTRUCTURED | ETHERNET

  /** The `type` field of each entry of `sessions`. */
  function ParsePduSessionType(s: string): (r: Result<PduSessionType, string>)
    ensures r.Success? <==> s in {"IPv4", "IPv6", "IPv4v6", "Ethernet", "Unstructured"}
    ensures r.Success? ==> PduSessionTypeName(r.value) == s
    ensures r.Failure? ==> r.error == "Invalid PDU session type: " + s
  {
    if s == "IPv4" then Success(IPV4)
    else if s == "IPv6" then Success(IPV6)
    else if s == "IPv4v6" then Success(IPV4V6)
    else if s == "Ethernet" then Success(ETHERNET)
    else if s == "Unstructured" then Success(UNSTRUCTURED)
    else Failure("Invalid PDU session type: " + s)
  }

  /** The configuration name of each PDU session type. */
  function PduSessionTypeName(t: PduSessionType): string
  {
    match t
    case IPV4 => "IPv4"
    case IPV6 => "IPv6"
    case IPV4V6 => "IPv4v6"
    case ETHERNET => "Ethernet"
    case UNSTRUCTURED => "Unstructured"
  }

  /** Every PDU session type is accepted back from its name. */
  lemma PduSessionTypeRoundTrip(t: PduSessionType)
    ensures ParsePduSessionType(PduSessionTypeName(t)) == Success(t)
  {
  }

  datatype IntegrityMaxDataRateConfig = IntegrityMaxDataRateConfig(uplinkFull: bool, downlinkFull: bool)

  predicate IsRateText(s: string)
  {
    s == "full" || s == "64kbps"
  }

  /** The `integrityMaxRate` block: each direction is "full" or "64kbps"; the uplink
      value is checked first. */
  function ParseIntegrityMaxRate(uplink: string, downlink: string): (r: Result<IntegrityMaxDataRateConfig, string>)
    ensures r.Success? <==> IsRateText(uplink) && IsRateText(downlink)
    ensures r.Success? ==> (r.value.uplinkFull <==> uplink == "full")
    ensures r.Success? ==> (r.value.downlinkFull <==> downlink == "full")
    ensures !IsRateText(uplink) ==>
              r == Failure("Invalid integrity protection maximum uplink data rate: " + uplink)
    ensures IsRateText(uplink) && !IsRateText(downlink) ==>
              r == Failure("Invalid integrity protection maximum downlink data rate: " + downlink)
  {
    if uplink != "full" && uplink != "64kbps" then
      Failure("Invalid integrity protection maximum uplink data rate: " + uplink)
    else if downlink != "full" && downlink != "64kbps" then
      Failure("Invalid integrity protection maximum downlink data rate: " + downlink)
    else
      Success(IntegrityMaxDataRateConfig(uplink == "full", downlink == "full"))
  }

  /** isLongMnc as the gNB configuration reads it: any MNC text not two digits long. */
  function GnbIsLongMnc(mnc: string): bool
  {
    |mnc| != 2
  }

  /** isLongMnc as the UE configuration reads it: an MNC text three digits long. */
  function UeIsLongMnc(mnc: string): bool
  {
    |mnc| == 3
  }

  /** The two rules agree exactly on the lengths the reader admits (2 and 3). */
  lemma MncRulesAgree(mnc: string)
    ensures GnbIsLongMnc(mnc) == UeIsLongMnc(mnc) <==> 2 <= |mnc| <= 3
  {
  }
}
