# Relay gNB core, modelled in Dafny

This project models the relay node of UERANSIM-5g-relays. The node (`RGNodeB`) is one
process that contains two halves:

- a device half (the UE RRC and RLS tasks), which attaches to an upstream gNB;
- a station half (the gNB App, SCTP, NGAP, RRC, GTP and RLS tasks), which serves
  downstream devices.

NAS payloads cross between the two RRC tasks as `NmRgnbRrcToRrc` messages. The only
correlation state on the device side is one field, `ngapUeId`. An
`INITIAL_NAS_DELIVERY` writes it. Every downlink NAS transfer is tagged with it.

## Modules

Each module is one file and follows one component of the source.

- `Base` (base.dfy): fixed-width integer types, `Option`/`Result`, powers of two and
  ten, and C++'s truncating division (`TDiv`, `TMod`).
- `NasSecurity` (nas_security.dfy): the 24-bit NAS COUNT of section 4.4.3 of
  3GPP TS 24.501. It covers `toOctet4`, the uplink count step and its rollback, the
  downlink estimate, and the deep copies of `UeKeys` and `NasSecurityContext`.
- `CellIdentity` (cell_identity.dfy): the split of the 36-bit NR Cell Identity into
  gNB ID and cell ID, as section 8.2 of 3GPP TS 38.300 lays it out.
- `UeIdentity` (ue_identity.dfy): how the device half's node name and logger prefix
  are chosen.
- `SerialNumber` (serial_number.dfy): `LargeSum` and `IncrementNumber`, decimal
  addition over strings with an overflow error.
- `ConfigEnums` (config_enums.dfy): the string-to-enum decisions of the two YAML
  readers.
- `Messages` (messages.dfy): every `Nm*` message family as a datatype. Each constructor
  carries only the fields its variant uses. For example:
  - `NmGnbRlsToRls.DownlinkRrc` alone carries a `pduId`;
  - only the `INITIAL_NAS_DELIVERY` of `NmGnbRrcToNgap` carries the establishment
    cause and the S-TMSI;
  - the single-variant families are single constructors.
- `Effects` (effects.dfy): the outbox vocabulary. An effect is one of:
  - a message pushed to a task;
  - a timer armed;
  - a call into a routine whose body is not part of this model (`Invoke(Hook)`);
  - an error or unhandled-message log line;
  - a pause or resume request;
  - a CLI answer.
- `Paging` (paging.dfy): the ng-5G-S-TMSI decode of `receivePaging`, using the 10/6/32
  bit layout of section 2.10.1 of 3GPP TS 23.003.
- `UeRrc` (ue_rrc.dfy): the device RRC task as a step function
  `(state, environment, message) -> (state, outbox)`, a `Run` over message sequences,
  and the correlation slot.
- `GnbRls` (gnb_rls.dfy) and `GnbRrc` (gnb_rrc.dfy): the station tasks' message
  routing.
- `Relay` (relay.dfy): the seam where a downlink NAS PDU received by the device RRC
  reaches the station RRC's downlink routine.
- `PauseControl` (pause_control.dfy): the pause protocol both command handlers wrap
  around a command. It is a method with a polling loop over a given sequence of clock
  readings and confirmation sets.
- `UeCommands` (ue_commands.dfy) and `GnbCommands` (gnb_commands.dfy): the command
  handlers' decisions.
- `NodeLifecycle` (node_lifecycle.dfy): the constructor, `start()` and destructor as
  sequences of calls, replayed against the rules an object's life obeys.

## Where the code and its description differ

- **`IncrementNumber` and length.** The result has the width of the wider operand. So
  the length of `s` is kept only when the decimal text of `delta` is no wider than
  `s`; otherwise the result is longer. The model follows the code.
- **The UE command handler and `ueNasTask`.** The handler pauses, polls and resumes
  `ueNasTask`, and eight of its commands read or call through the same pointer.
  `RGNodeB` never creates that task, so the pointer is null. The model keeps the NAS
  task in the pause list, takes the NAS state the commands read as an input
  (`UeCommands.UeView`), and proves that the node's task set excludes NAS
  (`NodeLifecycle.TaskSet`).

## Model

| member | source | states |
|---|---|---|
| NasSecurity.CountValue | src/rgnb/types.hpp:614-617 | A count (16-bit overflow, 8-bit sequence number) denotes a 24-bit value, always below 2^24 |
| NasSecurity.CountOf | src/rgnb/types.hpp:614-617 | Every value below 2^24 is denoted by some count |
| NasSecurity.ToOctet4 | src/rgnb/types.hpp:619-626 | The 32-bit word is overflow*2^8 + sqn, stays below 2^24, and converting it back yields the same count |
| NasSecurity.CountValueInjective | src/rgnb/types.hpp:614-626 | Two counts have the same 24-bit value iff they are the same count, so the word loses nothing |
| NasSecurity.KeysDeepCopy | src/rgnb/types.hpp:639-648 | kAusf, kSeaf, kAmf, kNasInt and kNasEnc are copied; abba stays at its empty default; so the copy equals the original iff abba was empty |
| NasSecurity.UpdateDownlinkCount | src/rgnb/types.hpp:667-671 | Both fields of the validated count are adopted; the uplink count and every other field are untouched |
| NasSecurity.EstimatedDownlinkCount | src/rgnb/types.hpp:673-683 | The estimate has the received sqn; its overflow is the stored overflow + 1 (mod 2^16) iff the stored sqn is above the received one, else the stored overflow |
| NasSecurity.EstimateAdvancesLessThanOneCycle | src/rgnb/types.hpp:673-683 | The estimate lies fewer than 2^8 steps ahead of the stored downlink count, modulo 2^24 |
| NasSecurity.CountOnEncrypt | src/rgnb/types.hpp:685-690 | The 24-bit uplink value advances by exactly one modulo 2^24; the overflow moves iff the sqn wraps to 0; nothing else changes |
| NasSecurity.RollbackCountOnEncrypt | src/rgnb/types.hpp:692-707 | The uplink value steps back by one modulo 2^24 (0/0 wraps to 0xFFFF/0xFF); nothing else changes |
| NasSecurity.RollbackAfterCount | src/rgnb/types.hpp:685-707 | Rolling back after a count step restores the context exactly |
| NasSecurity.CountAfterRollback | src/rgnb/types.hpp:685-707 | A count step after a rollback restores the context exactly, including at the wrap |
| NasSecurity.ContextDeepCopy | src/rgnb/types.hpp:709-722 | Every field but the keys is kept; the keys are deep-copied; the copy equals the original iff its abba is empty |
| NasSecurity.DeepCopyIdempotent | src/rgnb/types.hpp:709-722 | Copying a copy gives the same copy |
| CellIdentity.GnbId | src/rgnb/types.hpp:347-350 | The gNB ID fits in gnbIdLength bits |
| CellIdentity.CellId | src/rgnb/types.hpp:352-355 | The cell ID fits in 36 - gnbIdLength bits |
| CellIdentity.SplitIsLossless | src/rgnb/types.hpp:347-355 | gNB ID shifted above the cell ID rebuilds the low 36 bits of the NCI, for every NCI and every length 22..32 |
| CellIdentity.JoinThenSplit | src/rgnb/types.hpp:347-355 | Any gNB ID and cell ID within their widths join into an NCI below 2^36 that splits back into exactly them |
| UeIdentity.SourceOf | src/rgnb/types.hpp:924-933 | The naming identity is the SUPI if present, else the IMEI, else the IMEISV, else none; each case holds iff the presence pattern matches |
| UeIdentity.NodeName | src/rgnb/types.hpp:924-933 | The node name is the SUPI text, "imei-" + IMEI, "imeisv-" + IMEISV or "unknown-ue", according to the chosen identity |
| UeIdentity.LoggerPrefix | src/rgnb/types.hpp:935-946 | The prefix is empty iff prefixLogger is off; otherwise it is the bare identity chosen by the same priority, followed by "\|" |
| UeIdentity.NamingIgnoresLowerPriority | src/rgnb/types.hpp:924-946 | Once a SUPI is present, changing the IMEI or IMEISV changes neither the name nor the prefix |
| ConfigEnums.ParseOpType | src/rgnb.cpp:230-236 | "OP" gives OP and "OPC" gives OPC; every other text fails with "Invalid OP type: " + text |
| ConfigEnums.OpTypeRoundTrip | src/rgnb.cpp:230-236 | Every OP type parses back from its configuration name |
| ConfigEnums.ParsePduSessionType | src/rgnb.cpp:255-267 | Exactly IPv4, IPv6, IPv4v6, Ethernet and Unstructured are accepted, each as the type of that name; every other text fails with the session-type error |
| ConfigEnums.PduSessionTypeRoundTrip | src/rgnb.cpp:255-267 | Every PDU session type parses back from its configuration name |
| ConfigEnums.ParseIntegrityMaxRate | src/rgnb.cpp:277-284 | Success iff both texts are "full" or "64kbps"; each flag is set iff its text is "full"; the uplink error takes precedence over the downlink error |
| ConfigEnums.MncRulesAgree | src/rgnb.cpp:119 | The station's long-MNC rule (length not 2) and the device's rule at line 165 (length 3) agree iff the MNC text is 2 or 3 characters long |
| SerialNumber.Add | src/rgnb.cpp:356-368 | The two digit loops produce one character per position of the longer operand |
| SerialNumber.AddIsAddition | src/rgnb.cpp:356-368 | On digit strings the loops do schoolbook addition: the digits produced, plus the final carry times 10^width, equal x + y + carry-in |
| SerialNumber.AddSymmetric | src/rgnb.cpp:357-362 | For operands of equal width, swapping them changes neither the digits nor the carry |
| SerialNumber.AddWithoutCarry | src/rgnb.cpp:356-370 | With no carry-in, no carry is left iff x + y < 10^width, and then the digits denote x + y |
| SerialNumber.LargeSum | src/rgnb.cpp:345-373 | On digit strings, success iff a + b < 10^max(\|a\|,\|b\|), and then the result is a digit string of that width denoting a + b; failure is always "UE serial number overflow" |
| SerialNumber.LargeSumSymmetric | src/rgnb.cpp:347-348 | LargeSum(a, b) == LargeSum(b, a) for all strings, digits or not |
| SerialNumber.NatToString | src/rgnb.cpp:377 | std::to_string of a non-negative number is a digit string with no leading zero that denotes the number |
| SerialNumber.IntToString | src/rgnb.cpp:377 | std::to_string of a negative number is "-" followed by the text of its magnitude |
| SerialNumber.IncrementNumber | src/rgnb.cpp:375-378 | For a digit string and a non-negative delta, success iff the sum fits the wider width, and then the result denotes s + delta; when delta's text is no wider than s, the length of s (and so its leading zeros) is kept |
| Messages.StatusWhatDistinguishesKinds | src/rgnb/nts.hpp:608-628 | A check of the discriminant table: the three status-update kinds carry the distinct discriminants 1, 2 and 3, so equal discriminants mean equal kinds |
| Messages.TagIdentifiesFamily | src/rgnb/nts.hpp:38-641 | A check of the family-tag table: each message constructor stamps its own family tag, so switching on the tag and then downcasting always picks the right family |
| Paging.DecodeSTmsi | src/rgnb/ueRrc/handler.cpp:42-47 | The decoded AMF Set ID is below 2^10, the AMF Pointer below 2^6 and the 5G-TMSI below 2^32, and together they re-encode to the 48-bit input |
| Paging.EncodeThenDecode | src/rgnb/ueRrc/handler.cpp:42-47 | Every identity within the 10/6/32 widths encodes below 2^48 and decodes back to itself |
| Paging.PagingTmsiList | src/rgnb/ueRrc/handler.cpp:36-51 | The list is no longer than the record list and every entry fits the layout |
| Paging.PagingListAppend | src/rgnb/ueRrc/handler.cpp:38-51 | The list for joined record lists is the join of the lists, so output order follows record order |
| Paging.PagingListMembers | src/rgnb/ueRrc/handler.cpp:38-49 | An identity is listed iff some ng-5G-S-TMSI record decodes to it |
| Paging.NoTmsiNoList | src/rgnb/ueRrc/handler.cpp:38-39 | Records paging by I-RNTI alone yield an empty list |
| Paging.BuildPagingNotification | src/rgnb/ueRrc/handler.cpp:53-54 | The PAGING notification carries exactly the decoded list |
| UeRrc.Create | src/rgnb/ueRrc/task.cpp:24-31 | A new task is IDLE with cause mt-Access; its logger name ends in "ueRrc" and is exactly "ueRrc" iff prefixing is off |
| UeRrc.TriggerCycleStep | src/rgnb/ueRrc/state.cpp:18-21 | Exactly one TRIGGER_CYCLE goes to the task's own mailbox and the state is unchanged |
| UeRrc.OnStart | src/rgnb/ueRrc/task.cpp:33-38 | One TRIGGER_CYCLE is queued to itself, then timer 1 is armed with period 2500 ms |
| UeRrc.PerformCycle | src/rgnb/ueRrc/state.cpp:23-36 | Nothing happens iff the task is CONNECTED; IDLE and INACTIVE both run cell selection |
| UeRrc.SwitchState | src/rgnb/ueRrc/state.cpp:38-52 | The new state is taken even when equal to the old one; the listener hears (old, new) once, and only if it is attached |
| UeRrc.DeliverUplinkNas | src/rgnb/ueRrc/nas.cpp:23-61 | No active cell gives only the error log, checked before emptiness; an empty PDU or INACTIVE gives nothing; IDLE starts connection establishment; CONNECTED sends one UL transfer with the PDU unchanged; each case holds iff its condition holds |
| UeRrc.DeliverIgnoresPduId | src/rgnb/ueRrc/nas.cpp:23-61 | Deliveries that differ only in PDU id behave the same |
| UeRrc.ReceiveDownlinkInformationTransfer | src/rgnb/ueRrc/nas.cpp:63-79 | Exactly one DOWNLINK_NAS_DELIVERY goes to the station RRC, tagged with the stored ngapUeId and carrying the PDU unchanged; nothing goes to NAS |
| UeRrc.HandleRadioLinkFailure | src/rgnb/ueRrc/failures.cpp:22-26 | The task lands in IDLE from any state, sending and notifying nothing |
| UeRrc.DeclareRadioLinkFailure | src/rgnb/ueRrc/failures.cpp:17-20 | Declaring a failure has the same silent move to IDLE |
| UeRrc.RadioLinkFailureIdempotent | src/rgnb/ueRrc/failures.cpp:22-26 | A second failure changes nothing, and the cause does not matter |
| UeRrc.RadioLinkFailureBypassesSwitch | src/rgnb/ueRrc/failures.cpp:22-26 | A failure reaches the state a switch to IDLE reaches, but an attached listener is not told |
| UeRrc.ReceivePaging | src/rgnb/ueRrc/handler.cpp:34-56 | The notification lists exactly the identities `Paging.PagingTmsiList` decodes from the records, in record order, at most one per record; but the step changes no state and sends nothing |
| UeRrc.HandleRlsSap | src/rgnb/ueRrc/sap.cpp:18-35 | A radio link failure is handled as above; signal changes and downlink RRC go to their routines with the message's fields, state unchanged |
| UeRrc.HandleNasSap | src/rgnb/ueRrc/sap.cpp:37-64 | NAS uplink is delivered with its own PDU id and PDU; local release, whatever its treatBarred flag, goes to IDLE through switchState (so an attached listener is told) and then sends one RESET_STI to RLS and nothing to NAS; RRC_NOTIFY triggers a cycle; UAC runs iff its controller has not expired; ngapUeId is never touched |
| UeRrc.HandleRrcSap | src/rgnb/ueRrc/sap.cpp:66-84 | INITIAL sets ngapUeId to the message's UE id and then delivers with PDU id 0; UPLINK delivers with PDU id 0 and keeps ngapUeId; DOWNLINK does nothing |
| UeRrc.Dispatch | src/rgnb/ueRrc/task.cpp:57-87 | RGNB_RRC_TO_RRC, UE_NAS_TO_RRC and UE_RLS_TO_RRC reach handleRrcSapMessage, handleNasSapMessage and handleRlsSapMessage respectively, and no dispatched family is logged as unhandled; the cause and logger are kept; the state stays or becomes IDLE |
| UeRrc.Step | src/rgnb/ueRrc/task.cpp:45-92 | A message is logged as unhandled iff its family is not one of the five dispatched ones, and then nothing changes; only INITIAL_NAS_DELIVERY writes ngapUeId |
| UeRrc.TimerExpiry | src/rgnb/ueRrc/task.cpp:79-87 | Timer 1 re-arms itself, then runs exactly one cycle; any other timer id changes nothing |
| UeRrc.StartTriggersOneCycle | src/rgnb/ueRrc/task.cpp:69-78 | The trigger queued at start runs exactly one performCycle when it is taken |
| UeRrc.CorrelationSlot | src/rgnb/ueRrc/sap.cpp:70-73 | After any message sequence, ngapUeId is the UE id of the last INITIAL_NAS_DELIVERY, or its initial value if there was none |
| UeRrc.DownlinkFollowsLastInitial | src/rgnb/ueRrc/nas.cpp:69-72 | A downlink transfer after any run goes to the station RRC tagged with that last initial UE id |
| UeRrc.IdleIsClosed | src/rgnb/ueRrc/task.cpp:45-92 | The modelled handlers only ever write IDLE into the state, so under them a task that starts idle stays idle with the same establishment cause; the routines that leave IDLE are `Invoke` effects whose writes are outside the model |
| GnbRls.Route | src/rgnb/gnbRls/task.cpp:43-125 | Each message gives at most one output, and a forwarded message keeps UE id, PSI, channel and payload. SIGNAL_DETECTED and UPLINK_RRC go to the station RRC. UPLINK_DATA goes to GTP. RRC and GTP downlink go to the control task, with pduId 0 for RRC. The quiet variants give nothing. Exactly the other variants and families are logged as unhandled |
| GnbRls.RouteDirection | src/rgnb/gnbRls/task.cpp:91-117 | Downlink from RRC or GTP reaches the control task exactly once and never goes back to its sender; uplink never goes to the control task |
| GnbRrc.OnStart | src/rgnb/gnbRrc/task.cpp:30-33 | Start-up arms only SI timer 1 with period 10000 ms |
| GnbRrc.Step | src/rgnb/gnbRrc/task.cpp:40-107 | Only RADIO_POWER_ON changes the barring flag (it clears it); no message is pushed anywhere; RLS messages reach the RLS-side handler and NGAP PAGING reaches the paging routine with its TMSI and TAI list, unchanged; a family is logged as unhandled iff it is not dispatched; relay INITIAL and UPLINK deliveries do nothing |
| GnbRrc.DownlinkNasSameFromBothSides | src/rgnb/gnbRrc/task.cpp:61-82 | NGAP NAS_DELIVERY and relay DOWNLINK_NAS_DELIVERY with the same UE id and PDU have the same outcome, one downlink NAS call |
| GnbRrc.PowerOnAndTimer | src/rgnb/gnbRrc/task.cpp:94-101 | Power-on clears barring before its broadcast; SI timer expiry re-arms the timer as at start-up before broadcasting; other timer ids change nothing |
| GnbRrc.AnReleaseTargetsUe | src/rgnb/gnbRrc/task.cpp:65-68 | AN_RELEASE releases exactly the connection it names |
| Relay.DownlinkReachesStation | src/rgnb/ueRrc/nas.cpp:69-72 | After any run of the device RRC, a downlink NAS transfer reaches the station RRC's downlink routine exactly once, for the last initial UE id and with the PDU unchanged |
| PauseControl.RequestPauses | src/rgnb/ueApp/cmd_handler.cpp:47-52 | One pause request per task, in list order |
| PauseControl.RequestUnpauses | src/rgnb/ueApp/cmd_handler.cpp:54-59 | One resume request per task, in list order |
| PauseControl.IsAllPaused | src/rgnb/ueApp/cmd_handler.cpp:61-70 | The early-exit check is true iff every task in the list has confirmed |
| PauseControl.HandleCmd | src/rgnb/ueApp/cmd_handler.cpp:72-101 | Pauses come first and resumes last on both paths; the body runs iff some poll sees all tasks confirmed while every earlier clock reading was before start + 3000; otherwise exactly one timeout error is answered |
| UeCommands.SignalDescription | src/rgnb/ueApp/cmd_handler.cpp:23-32 | Each word is given iff dbm lies in its band: above -90, (-105, -90], (-120, -105], at most -120 |
| UeCommands.SignalDescriptionMonotone | src/rgnb/ueApp/cmd_handler.cpp:23-32 | A stronger signal never gets a worse word |
| UeCommands.PsListPsis | src/rgnb/ueApp/cmd_handler.cpp:197-219 | The listed PSIs number at most the sessions and none is 0 |
| UeCommands.PsListMembers | src/rgnb/ueApp/cmd_handler.cpp:199-202 | A PSI is listed iff some session with that PSI is neither PSI 0 nor INACTIVE |
| UeCommands.PsReleaseTargets | src/rgnb/ueApp/cmd_handler.cpp:176-178 | One target per requested id (none for a negative count); each is the id's C++ truncating remainder by 16, so it lies in 0..15 for a non-negative id and in -15..0 for a negative one |
| UeCommands.ReleaseRequests | src/rgnb/ueApp/cmd_handler.cpp:177-178 | One release request per target, in order |
| UeCommands.CoverageAnswer | src/rgnb/ueApp/cmd_handler.cpp:228-269 | The answer is "No cell available" iff no cell is known; otherwise it has one entry per known cell with that cell's signal text |
| UeCommands.HandleCmdImpl | src/rgnb/ueApp/cmd_handler.cpp:103-271 | Each command makes its NAS calls and then exactly one answer, never an error. De-registration words its answer by the switch-off cause. PS_RELEASE makes one request per reduced id and PS_RELEASE_ALL one release-all call; both answer with the release text. PS_ESTABLISH makes one call for an IPv4 session with the command's fields and answers with the establishment text. STATUS, INFO, TIMERS and RLS_STATE make no call |
| UeCommands.HandleCmd | src/rgnb/ueApp/cmd_handler.cpp:72-101 | The device command runs inside the pause protocol over NAS, RRC and RLS, with the device timeout text |
| GnbCommands.UeListOnePerContext | src/rgnb/gnbApp/cmd_handler.cpp:129-141 | UE_LIST has exactly one entry per UE context, carrying that context's RAN and AMF NGAP ids |
| GnbCommands.HandleCmdImpl | src/rgnb/gnbApp/cmd_handler.cpp:100-158 | Exactly one answer, which is an error iff an AMF_INFO or UE_RELEASE_REQ id is unknown. A known UE is released with cause RadioNetwork_unspecified. UE_COUNT answers the number of contexts as its decimal text, with no leading zero. STATUS and INFO make no call |
| GnbCommands.UnknownUeReleasesNothing | src/rgnb/gnbApp/cmd_handler.cpp:146-149 | Releasing an unknown UE makes no NGAP call |
| GnbCommands.HandleCmd | src/rgnb/gnbApp/cmd_handler.cpp:69-98 | The station command runs inside the pause protocol over GTP, RLS, NGAP, RRC and SCTP, with the station timeout text |
| NodeLifecycle.LogPathInjective | src/rgnb/rgnb.cpp:34 | Two stations share a log file iff they share a name |
| NodeLifecycle.Construct | src/rgnb/rgnb.cpp:26-53 | The constructor makes the task base, then the log base, then creates the eight tasks in construction order |
| NodeLifecycle.StartAll | src/rgnb/rgnb.cpp:81-92 | start() starts the tasks in its own order, RLS before GTP |
| NodeLifecycle.Teardown | src/rgnb/rgnb.cpp:55-79 | Every quit precedes every delete, and the log base and then the task base are freed last |
| NodeLifecycle.TaskSet | src/rgnb/rgnb.cpp:39-91 | The constructor creates eight distinct tasks and no NAS task; start() starts exactly those tasks, each once |
| NodeLifecycle.ConstructThenStart | src/rgnb/rgnb.cpp:26-92 | Construction then start() is legal and leaves both bases and exactly the eight tasks running |
| NodeLifecycle.TeardownReplay | src/rgnb/rgnb.cpp:55-79 | Tearing down running tasks while no other task lives is legal and ends with them deleted and both bases freed |
| NodeLifecycle.FreeBases | src/rgnb/rgnb.cpp:77-78 | With no task alive, freeing the log base and then the task base is legal |
| NodeLifecycle.WholeLife | src/rgnb/rgnb.cpp:26-92 | The whole life (construct, start, destroy) is legal and ends with both bases freed and exactly the eight tasks deleted |
| NodeLifecycle.EarlyFreeRefused | src/rgnb/rgnb.cpp:55-79 | The order matters: freeing the log base while tasks run, or deleting a task that was never quit, is illegal |

## Left out

- File and YAML loading, option parsing, `main` and the stub controller. These are I/O; only the pure string-to-enum decisions are kept.
- JSON/YAML rendering and `ToJson`. A CLI answer records what it was built from (a report datatype) instead of the rendered text.
- UeIdentity.NodeName: `ToJson(supi)` is not part of this model. The SUPI text is assumed to be "<type>-<value>".
- ASN.1 construction and decoding, and `BitBuffer`. The S-TMSI is a 48-bit number, and the UL information transfer is an `Invoke` of its payload.
- Routines whose bodies are not part of this model become `Invoke` effects. These are performCellSelection, startConnectionEstablishment, handleDownlinkNasDelivery, releaseConnection, performUac, handleCellSignalChange, handleDownlinkRrc, sendContextRelease, the station RRC's RLS-side handler, paging and broadcast routines, and the NAS session and deregistration calls.
- The mailbox, threads, timers' internals and the real clock. Timers are `ArmTimer` effects. In the pause protocol, the clock and confirmations are a given sequence of observations.
- PauseControl.HandleCmd: running out of observations counts as a timeout. The uint64 clock arithmetic is taken as unbounded, so the wrap of `currentTime + 3000` near 2^64 is not modelled.
- Debug and info log lines are dropped. Only the error log of `deliverUplinkNas` and the unhandled-message log are effects.
- UeRrc.Create: the initial value of `ngapUeId` comes from a member initializer that is not part of this model, so it is a parameter. The same holds for the station RRC's initial barring flag.
- `NmRgnbRrcToRrc` is not defined in the source files of this model. Its three variants and the fields `ueId` and `pdu` are taken from its uses in the two RRC tasks.
- UeCommands.PsReleaseTargets: the declared type of `psIds` is not part of this model, so ids are unbounded integers. The result lies in 0..15 only for non-negative ids; for negative ids it lies in -15..0.
- SerialNumber.IncrementNumber: the length of `s` is kept only when delta's decimal text is no wider than `s`, which is what the code does.
- UeRrc.Step: the writes that `Invoke`d routines make to the task's own fields (`m_state`, `m_establishmentCause`) are not modelled. startConnectionEstablishment and handleDownlinkRrc are the routines that move the task out of IDLE, so `UeRrc.IdleIsClosed` speaks only of the modelled handlers.
- UeCommands.HandleCmd / GnbCommands.HandleCmd: `TaskBase::cliCallbackTask` is never assigned (src/rgnb/types.hpp:963; the assignment at src/rgnb/rgnb.cpp:36 is commented out). So every answer `sendResult`/`sendError` pushes goes through a null pointer. The model records each answer as an ordinary `CliRespond` effect.
- SerialNumber.LargeSum: characters are Unicode scalars, not the source's signed bytes. So `c - '0'` and the string lengths agree with the source only on ASCII text. A non-ASCII character is one character here but several bytes there, and the claims about non-digit strings, such as `LargeSumSymmetric`, are claims about the model's strings.
- UeCommands.HandleCmd: pausing and polling the never-created `ueNasTask` would dereference a null pointer. The model treats it like any other task.
- UeCommands.HandleCmdImpl: STATUS, INFO, TIMERS, DE_REGISTER, PS_RELEASE, PS_RELEASE_ALL, PS_ESTABLISH and PS_LIST read or call through the never-assigned `ueNasTask` (src/rgnb/ueApp/cmd_handler.cpp:121-133, 144, 157, 164, 168, 178, 183, 193, 199), which would dereference a null pointer. The model takes the NAS sessions as the `UeView` input and records the NAS calls as `Invoke` effects, so its "exactly one answer, never an error" holds only for a node that has a NAS task.
- NodeLifecycle: the stage rules (created, running, stopped, deleted) abstract the NtsTask life, whose internals are not part of this model.
- Commented-out code is not modelled, such as the RRC-to-NAS release and paging pushes.
