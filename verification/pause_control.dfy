/** The pause/quiesce protocol both command handlers run around a command
    (handleCmd in src/rgnb/ueApp/cmd_handler.cpp and src/rgnb/gnbApp/cmd_handler.cpp):
    ask a fixed list of tasks to pause, poll their confirmations until a deadline
    3000 ms after the first clock reading, run the command only if all confirmed,
    and ask every task to resume on both outcomes. The clock and the confirmations
    are given as the sequence of observations the polling loop makes. */
module PauseControl {
  import opened Messages
  import opened Effects

  const PAUSE_CONFIRM_TIMEOUT: int := 3000

  /** One pass of the polling loop: the clock reading it takes and the set of tasks
      whose pause is confirmed when it checks. */
  datatype Poll = Poll(time: int, confirmed: set<TaskId>)

  /** The tasks the device handler pauses, in its order. */
  const UE_PAUSED_TASKS: seq<TaskId> := [UeNasTask, UeRrcTask, UeRlsTask]
  /** The tasks the station handler pauses, in its order. */
  const GNB_PAUSED_TASKS: seq<TaskId> := [GnbGtpTask, GnbRlsTask, GnbNgapTask, GnbRrcTask, GnbSctpTask]

  const UE_TIMEOUT_ERROR: string := "UE is unable process command due to pausing timeout"
  const GNB_TIMEOUT_ERROR: string := "gNB is unable process command due to pausing timeout"

  /** pauseTasks: one pause request per task, in list order. */
  function RequestPauses(tasks: seq<TaskId>): (r: seq<Effect>)
    ensures |r| == |tasks|
    ensures forall i :: 0 <= i < |tasks| ==> r[i] == RequestPause(tasks[i])
  {
    if |tasks| == 0 then [] else [RequestPause(tasks[0])] + RequestPauses(tasks[1..])
  }

  /** unpauseTasks: one resume request per task, in list order. */
  function RequestUnpauses(tasks: seq<TaskId>): (r: seq<Effect>)
    ensures |r| == |tasks|
    ensures forall i :: 0 <= i < |tasks| ==> r[i] == RequestUnpause(tasks[i])
  {
    if |tasks| == 0 then [] else [RequestUnpause(tasks[0])] + RequestUnpauses(tasks[1..])
  }

  /** Every task of the list has confirmed. */
  predicate AllConfirmed(tasks: seq<TaskId>, confirmed: set<TaskId>)
  {
    forall i :: 0 <= i < |tasks| ==> tasks[i] in confirmed
  }

  /** isAllPaused: the tasks are asked in list order and the first unconfirmed one
      ends the check. */
  function IsAllPaused(tasks: seq<TaskId>, confirmed: set<TaskId>): (r: bool)
    ensures r <==> AllConfirmed(tasks, confirmed)
  {
    if |tasks| == 0 then true
    else if tasks[0] !in confirmed then false
    else
      var rest := IsAllPaused(tasks[1..], confirmed);
      assert AllConfirmed(tasks, confirmed) <==> AllConfirmed(tasks[1..], confirmed) by {
        if AllConfirmed(tasks[1..], confirmed) {
          forall i | 0 <= i < |tasks|
            ensures tasks[i] in confirmed
          {
            if i > 0 { assert tasks[i] == tasks[1..][i - 1]; }
          }
        }
      }
      rest
  }

  /** The loop stops at the first confirmed poll, and it reaches poll k only if every
      earlier reading was still before the deadline. */
  predicate ConfirmedInTime(tasks: seq<TaskId>, start: int, polls: seq<Poll>)
  {
    exists k :: 0 <= k < |polls| && AllConfirmed(tasks, polls[k].confirmed) &&
                (forall j :: 0 <= j < k ==> polls[j].time < start + PAUSE_CONFIRM_TIMEOUT)
  }

  /** handleCmd: pause, poll, then the command's own effects or the timeout error,
      then resume. `start` is the first clock reading, `polls` the readings and
      confirmations of successive passes, `body` what the command does once the
      tasks are quiet. Running out of observations counts as a timeout. */
  method HandleCmd(tasks: seq<TaskId>, start: int, polls: seq<Poll>, address: InetAddress,
                   timeoutError: string, body: seq<Effect>)
    returns (out: seq<Effect>, isPaused: bool)
    ensures isPaused <==> ConfirmedInTime(tasks, start, polls)
    ensures out == RequestPauses(tasks)
                   + (if isPaused then body else [CliRespond(address, Text(timeoutError), true)])
                   + RequestUnpauses(tasks)
  {
    out := RequestPauses(tasks);
    var currentTime := start;
    var endTime := start + PAUSE_CONFIRM_TIMEOUT;
    isPaused := false;
    var k := 0;
    while currentTime < endTime
      invariant 0 <= k <= |polls|
      invariant endTime == start + PAUSE_CONFIRM_TIMEOUT
      invariant k == 0 ==> currentTime == start
      invariant k > 0 ==> currentTime == polls[k - 1].time
      invariant forall j :: 0 <= j < k ==> !AllConfirmed(tasks, polls[j].confirmed)
      invariant forall j :: 0 <= j < k - 1 ==> polls[j].time < endTime
      invariant !isPaused
      decreases |polls| - k
    {
      if k == |polls| {
        break;
      }
      currentTime := polls[k].time;
      if IsAllPaused(tasks, polls[k].confirmed) {
        isPaused := true;
        break;
      }
      k := k + 1;
    }
    if isPaused {
      assert forall j :: 0 <= j < k ==> polls[j].time < start + PAUSE_CONFIRM_TIMEOUT;
      out := out + body;
    } else {
      out := out + [CliRespond(address, Text(timeoutError), true)];
    }
    out := out + RequestUnpauses(tasks);
  }
}
