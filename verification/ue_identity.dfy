/** Node naming of the device half (RGnbUeConfig::getNodeName and getLoggerPrefix in
    src/rgnb/types.hpp): the first identity present among SUPI, IMEI and IMEISV names
    the node. */
module UeIdentity {
  import opened Base

  /** A SUPI: its type tag ("imsi", "nai") and its value. */
  datatype Supi = Supi(kind: string, value: string)

  /** The identity fields of RGnbUeConfig that naming reads. */
  datatype UeNaming = UeNaming(
    supi: Option<Supi>,
    imei: Option<string>,
    imeiSv: Option<string>,
    prefixLogger: bool)

  /** Which identity names the node, by the fixed priority SUPI, IMEI, IMEISV. */
  datatype IdentitySource = FromSupi | FromImei | FromImeiSv | NoIdentity

  function SourceOf(c: UeNaming): (s: IdentitySource)
    ensures s == FromSupi <==> c.supi.Some?
    ensures s == FromImei <==> c.supi.None? && c.imei.Some?
    ensures s == FromImeiSv <==> c.supi.None? && c.imei.None? && c.imeiSv.Some?
    ensures s == NoIdentity <==> c.supi.None? && c.imei.None? && c.imeiSv.None?
  {
    if c.supi.Some? then FromSupi
    else if c.imei.Some? then FromImei
    else if c.imeiSv.Some? then FromImeiSv
    else NoIdentity
  }

  /** The text form of a SUPI, "<type>-<value>". */
  function SupiText(s: Supi): string
  {
    s.kind + "-" + s.value
  }

  /** RGnbUeConfig::getNodeName. */
  function NodeName(c: UeNaming): (r: string)
    ensures SourceOf(c) == FromSupi ==> r == SupiText(c.supi.value)
    ensures SourceOf(c) == FromImei ==> r == "imei-" + c.imei.value
    ensures SourceOf(c) == FromImeiSv ==> r == "imeisv-" + c.imeiSv.value
    ensures SourceOf(c) == NoIdentity ==> r == "unknown-ue"
  {
    if c.supi.Some? then SupiText(c.supi.value)
    else if c.imei.Some? then "imei-" + c.imei.value
    else if c.imeiSv.Some? then "imeisv-" + c.imeiSv.value
    else "unknown-ue"
  }

  /** RGnbUeConfig::getLoggerPrefix: empty unless the logger is prefixed; otherwise the
      bare identity chosen by the same priority as the node name, followed by "|". */
  function LoggerPrefix(c: UeNaming): (r: string)
    ensures r == "" <==> !c.prefixLogger
    ensures c.prefixLogger ==> |r| > 0 && r[|r| - 1] == '|'
    ensures c.prefixLogger ==> r[..|r| - 1] == match SourceOf(c)
                                               case FromSupi => c.supi.value.value
                                               case FromImei => c.imei.value
                                               case FromImeiSv => c.imeiSv.value
                                               case NoIdentity => "unknown-ue"
  {
    if !c.prefixLogger then ""
    else if c.supi.Some? then c.supi.value.value + "|"
    else if c.imei.Some? then c.imei.value + "|"
    else if c.imeiSv.Some? then c.imeiSv.value + "|"
    else "unknown-ue|"
  }

  /** Node name and logger prefix follow one priority: changing an identity the
      priority does not reach changes neither. */
  lemma NamingIgnoresLowerPriority(c: UeNaming, imei: Option<string>, imeiSv: Option<string>)
    requires c.supi.Some?
    ensures NodeName(c.(imei := imei, imeiSv := imeiSv)) == NodeName(c)
    ensures LoggerPrefix(c.(imei := imei, imeiSv := imeiSv)) == LoggerPrefix(c)
  {
  }
}
