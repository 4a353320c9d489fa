/** The relay node's lifecycle (RGNodeB in src/rgnb/rgnb.cpp): the constructor
    builds one shared task base, its log base and eight tasks; start() starts them;
    the destructor quits every task, deletes every task, then frees the log base
    and the task base. Each phase is the sequence of actions it performs, and a
    replay of those actions against the rules an object's life obeys shows the
    whole life is legal. */
module NodeLifecycle {
  import opened Base
  import opened Effects

  /** The calls the three members make, in the order they make them. */
  datatype Action =
    | NewTaskBase
    | NewLogBase(path: string)
    | Create(task: TaskId)
    | Start(task: TaskId)
    | Quit(task: TaskId)
    | Delete(task: TaskId)
    | DeleteLogBase
    | DeleteTaskBase

  /** The tasks in the order the constructor creates them: the device half's RRC
      and RLS, then the station's App, SCTP, NGAP, RRC, GTP and RLS. No NAS task. */
  const TASKS: seq<TaskId> :=
    [UeRrcTask, UeRlsTask, GnbAppTask, GnbSctpTask, GnbNgapTask, GnbRrcTask, GnbGtpTask, GnbRlsTask]

  /** start() runs RLS before GTP; otherwise it follows the construction order. */
  const START_ORDER: seq<TaskId> :=
    [UeRrcTask, UeRlsTask, GnbAppTask, GnbSctpTask, GnbNgapTask, GnbRrcTask, GnbRlsTask, GnbGtpTask]

  predicate Distinct(ts: seq<TaskId>)
  {
    forall i, j :: 0 <= i < j < |ts| ==> ts[i] != ts[j]
  }

  /** The log file of a station named `name`. */
  function LogPath(name: string): string
  {
    "logs/" + name + ".log"
  }

  /** Two stations share a log file only if they share a name. */
  lemma LogPathInjective(a: string, b: string)
    ensures LogPath(a) == LogPath(b) <==> a == b
  {
    if LogPath(a) == LogPath(b) {
      assert |a| == |b|;
      assert a == LogPath(a)[5..|LogPath(a)| - 4];
      assert b == LogPath(b)[5..|LogPath(b)| - 4];
    }
  }

  /** The four per-task calls. */
  datatype Kind = CreateKind | StartKind | QuitKind | DeleteKind

  function Act(k: Kind, t: TaskId): Action
  {
    match k
    case CreateKind => Create(t)
    case StartKind => Start(t)
    case QuitKind => Quit(t)
    case DeleteKind => Delete(t)
  }

  /** One call of the given kind per task, in list order. */
  function Each(k: Kind, ts: seq<TaskId>): (r: seq<Action>)
    ensures |r| == |ts|
    ensures forall i :: 0 <= i < |ts| ==> r[i] == Act(k, ts[i])
  {
    seq(|ts|, i requires 0 <= i < |ts| => Act(k, ts[i]))
  }

  /** The constructor. */
  function Construct(name: string): (r: seq<Action>)
    ensures |r| == 2 + |TASKS|
    ensures r[0] == NewTaskBase && r[1] == NewLogBase(LogPath(name))
    ensures forall i :: 2 <= i < |r| ==> r[i] == Create(TASKS[i - 2])
  {
    [NewTaskBase, NewLogBase(LogPath(name))] + Each(CreateKind, TASKS)
  }

  /** start(). */
  function StartAll(): (r: seq<Action>)
    ensures |r| == |START_ORDER|
    ensures forall i :: 0 <= i < |r| ==> r[i] == Start(START_ORDER[i])
  {
    Each(StartKind, START_ORDER)
  }

  /** The destructor's calls over a list of tasks: quit each, delete each, then
      the two bases. */
  function Teardown(ts: seq<TaskId>): (r: seq<Action>)
    ensures |r| == 2 * |ts| + 2
    ensures forall i, j :: 0 <= i < |r| && 0 <= j < |r| && r[i].Quit? && r[j].Delete? ==> i < j
    ensures forall i :: 0 <= i < |r| - 2 ==> r[i].Quit? || r[i].Delete?
    ensures r[|r| - 2] == DeleteLogBase && r[|r| - 1] == DeleteTaskBase
  {
    var quits := Each(QuitKind, ts);
    var deletes := Each(DeleteKind, ts);
    var r := quits + deletes + [DeleteLogBase, DeleteTaskBase];
    assert forall i :: 0 <= i < |ts| ==> r[i] == Quit(ts[i]);
    assert forall i :: |ts| <= i < 2 * |ts| ==> r[i] == Delete(ts[i - |ts|]);
    r
  }

  /** The destructor. */
  function Destroy(): seq<Action>
  {
    Teardown(TASKS)
  }

  /** The position of a task in the construction order, or -1 for the tasks the
      constructor does not create. */
  function CreationIndex(t: TaskId): int
  {
    match t
    case UeRrcTask => 0
    case UeRlsTask => 1
    case GnbAppTask => 2
    case GnbSctpTask => 3
    case GnbNgapTask => 4
    case GnbRrcTask => 5
    case GnbGtpTask => 6
    case GnbRlsTask => 7
    case _ => -1
  }

  /** The constructor creates eight distinct tasks and no NAS task; start() starts
      exactly the tasks the constructor created, each once. */
  lemma TaskSet()
    ensures |TASKS| == 8 && Distinct(TASKS) && UeNasTask !in TASKS
    ensures |START_ORDER| == |TASKS| && Distinct(START_ORDER)
    ensures forall t :: t in START_ORDER <==> t in TASKS
  {
    assert forall i :: 0 <= i < 8 ==> CreationIndex(TASKS[i]) == i;
    assert forall i :: 0 <= i < 6 ==> START_ORDER[i] == TASKS[i];
    assert START_ORDER[6] == TASKS[7] && START_ORDER[7] == TASKS[6];
    forall t
      ensures t in TASKS <==> CreationIndex(t) >= 0
      ensures t in START_ORDER <==> CreationIndex(t) >= 0
    {
      if CreationIndex(t) >= 0 {
        assert TASKS[CreationIndex(t)] == t;
      }
    }
  }

  /** Where one object is in its life. */
  datatype Stage = Absent | Created | Running | Stopped | Deleted

  /** The bases that exist and the stage of each task. */
  datatype Node = Node(hasTaskBase: bool, hasLogBase: bool, stages: map<TaskId, Stage>)

  const INITIAL: Node := Node(false, false, map[])

  function StageOf(n: Node, t: TaskId): Stage
  {
    if t in n.stages then n.stages[t] else Absent
  }

  /** A task that exists and has not been deleted. */
  predicate Live(n: Node, t: TaskId)
  {
    StageOf(n, t) != Absent && StageOf(n, t) != Deleted
  }

  /** The rules of an object's life: a task is created on an existing base, started
      once after creation, quit before deletion, and the bases outlive every task. */
  function Apply(n: Node, a: Action): Option<Node>
  {
    match a
    case NewTaskBase => if n.hasTaskBase then None else Some(n.(hasTaskBase := true))
    case NewLogBase(_) => if !n.hasTaskBase || n.hasLogBase then None else Some(n.(hasLogBase := true))
    case Create(t) =>
      if !n.hasTaskBase || StageOf(n, t) != Absent then None else Some(n.(stages := n.stages[t := Created]))
    case Start(t) =>
      if StageOf(n, t) != Created then None else Some(n.(stages := n.stages[t := Running]))
    case Quit(t) =>
      if StageOf(n, t) != Created && StageOf(n, t) != Running then None else Some(n.(stages := n.stages[t := Stopped]))
    case Delete(t) =>
      if StageOf(n, t) != Stopped then None else Some(n.(stages := n.stages[t := Deleted]))
    case DeleteLogBase =>
      if !n.hasLogBase || exists t :: Live(n, t) then None else Some(n.(hasLogBase := false))
    case DeleteTaskBase =>
      if !n.hasTaskBase || n.hasLogBase || exists t :: Live(n, t) then None else Some(n.(hasTaskBase := false))
  }

  /** The node after a sequence of calls, or None at the first illegal one. */
  function Replay(n: Node, calls: seq<Action>): Option<Node>
    decreases |calls|
  {
    if |calls| == 0 then Some(n)
    else match Apply(n, calls[0])
      case None => None
      case Some(m) => Replay(m, calls[1..])
  }

  lemma {:induction false} ReplayAppend(n: Node, a: seq<Action>, b: seq<Action>)
    ensures Replay(n, a + b) == if Replay(n, a).None? then None else Replay(Replay(n, a).value, b)
    decreases |a|
  {
    if |a| == 0 {
      assert a + b == b;
    } else {
      assert (a + b)[0] == a[0];
      assert (a + b)[1..] == a[1..] + b;
      if Apply(n, a[0]).Some? {
        ReplayAppend(Apply(n, a[0]).value, a[1..], b);
      }
    }
  }

  function Before(k: Kind): Stage
  {
    match k
    case CreateKind => Absent
    case StartKind => Created
    case QuitKind => Running
    case DeleteKind => Stopped
  }

  function After(k: Kind): Stage
  {
    match k
    case CreateKind => Created
    case StartKind => Running
    case QuitKind => Stopped
    case DeleteKind => Deleted
  }

  /** Calls of one kind on distinct tasks that are all at the stage the call expects
      succeed, move exactly those tasks on by one stage and touch nothing else. */
  lemma {:induction false} ReplayEach(n: Node, k: Kind, ts: seq<TaskId>)
    requires Distinct(ts)
    requires forall i :: 0 <= i < |ts| ==> StageOf(n, ts[i]) == Before(k)
    requires k == CreateKind ==> n.hasTaskBase
    ensures Replay(n, Each(k, ts)).Some?
    ensures Replay(n, Each(k, ts)).value.hasTaskBase == n.hasTaskBase
    ensures Replay(n, Each(k, ts)).value.hasLogBase == n.hasLogBase
    ensures forall t :: StageOf(Replay(n, Each(k, ts)).value, t) == if t in ts then After(k) else StageOf(n, t)
    decreases |ts|
  {
    if |ts| > 0 {
      var m := n.(stages := n.stages[ts[0] := After(k)]);
      assert Apply(n, Act(k, ts[0])) == Some(m);
      var rest := Each(k, ts[1..]);
      assert Each(k, ts)[0] == Act(k, ts[0]);
      assert Each(k, ts)[1..] == rest;
      forall i | 0 <= i < |ts[1..]|
        ensures StageOf(m, ts[1..][i]) == Before(k)
      {
        assert ts[1..][i] == ts[i + 1] && ts[i + 1] != ts[0];
      }
      ReplayEach(m, k, ts[1..]);
      forall t
        ensures StageOf(Replay(n, Each(k, ts)).value, t) == if t in ts then After(k) else StageOf(n, t)
      {
        assert t in ts <==> t == ts[0] || t in ts[1..];
      }
    }
  }

  /** The constructor's first two calls leave both bases and no task. */
  lemma BasesFirst(name: string)
    ensures Replay(INITIAL, [NewTaskBase, NewLogBase(LogPath(name))]) == Some(Node(true, true, map[]))
  {
    var header := [NewTaskBase, NewLogBase(LogPath(name))];
    var withTasks := Node(true, false, map[]);
    var both := Node(true, true, map[]);
    assert Apply(INITIAL, NewTaskBase) == Some(withTasks);
    assert Apply(withTasks, NewLogBase(LogPath(name))) == Some(both);
    assert header[1..] == [NewLogBase(LogPath(name))];
    assert header[1..][1..] == [];
    assert Replay(both, []) == Some(both);
    assert Replay(withTasks, header[1..]) == Replay(both, []);
    assert Replay(INITIAL, header) == Replay(withTasks, header[1..]);
  }

  /** Construction followed by start() leaves the two bases and the eight tasks
      running, and no other task exists. */
  lemma {:induction false} ConstructThenStart(name: string)
    ensures Replay(INITIAL, Construct(name) + StartAll()).Some?
    ensures Replay(INITIAL, Construct(name) + StartAll()).value.hasTaskBase
    ensures Replay(INITIAL, Construct(name) + StartAll()).value.hasLogBase
    ensures forall t :: StageOf(Replay(INITIAL, Construct(name) + StartAll()).value, t) ==
                        if t in TASKS then Running else Absent
  {
    TaskSet();
    var header := [NewTaskBase, NewLogBase(LogPath(name))];
    var built := Node(true, true, map[]);
    BasesFirst(name);
    ReplayAppend(INITIAL, header, Each(CreateKind, TASKS));
    ReplayEach(built, CreateKind, TASKS);
    var created := Replay(built, Each(CreateKind, TASKS)).value;
    assert Replay(INITIAL, Construct(name)) == Some(created);
    forall i | 0 <= i < |START_ORDER|
      ensures StageOf(created, START_ORDER[i]) == Created
    {
      assert START_ORDER[i] in START_ORDER;
    }
    ReplayAppend(INITIAL, Construct(name), StartAll());
    ReplayEach(created, StartKind, START_ORDER);
  }

  /** Tearing down running tasks, while no other task is alive, is legal and ends
      with the tasks deleted and both bases freed. */
  lemma {:induction false} TeardownReplay(n: Node, ts: seq<TaskId>)
    requires Distinct(ts)
    requires n.hasTaskBase && n.hasLogBase
    requires forall i :: 0 <= i < |ts| ==> StageOf(n, ts[i]) == Running
    requires forall t :: t !in ts ==> !Live(n, t)
    ensures Replay(n, Teardown(ts)).Some?
    ensures !Replay(n, Teardown(ts)).value.hasTaskBase && !Replay(n, Teardown(ts)).value.hasLogBase
    ensures forall t :: StageOf(Replay(n, Teardown(ts)).value, t) == if t in ts then Deleted else StageOf(n, t)
  {
    var quits := Each(QuitKind, ts);
    var deletes := Each(DeleteKind, ts);
    var tail := [DeleteLogBase, DeleteTaskBase];
    assert Teardown(ts) == quits + (deletes + tail);
    ReplayAppend(n, quits, deletes + tail);
    ReplayEach(n, QuitKind, ts);
    var stopped := Replay(n, quits).value;
    ReplayAppend(stopped, deletes, tail);
    ReplayEach(stopped, DeleteKind, ts);
    var deleted := Replay(stopped, deletes).value;
    forall t
      ensures !Live(deleted, t)
    {
      if t !in ts {
        assert StageOf(deleted, t) == StageOf(n, t);
      }
    }
    FreeBases(deleted);
  }

  /** With no task alive, the log base and then the task base can be freed. */
  lemma FreeBases(n: Node)
    requires n.hasTaskBase && n.hasLogBase
    requires forall t :: !Live(n, t)
    ensures Replay(n, [DeleteLogBase, DeleteTaskBase]) == Some(n.(hasLogBase := false, hasTaskBase := false))
  {
    var tail := [DeleteLogBase, DeleteTaskBase];
    var noLog := n.(hasLogBase := false);
    var neither := noLog.(hasTaskBase := false);
    assert Apply(n, DeleteLogBase) == Some(noLog);
    forall t
      ensures !Live(noLog, t)
    {
      assert !Live(n, t);
      assert StageOf(noLog, t) == StageOf(n, t);
    }
    assert Apply(noLog, DeleteTaskBase) == Some(neither);
    assert tail[1..] == [DeleteTaskBase];
    assert tail[1..][1..] == [];
    assert Replay(neither, []) == Some(neither);
    assert Replay(noLog, tail[1..]) == Replay(neither, []);
    assert Replay(n, tail) == Replay(noLog, tail[1..]);
  }

  /** The whole life, construct, start and destroy, is legal, and it ends with
      both bases freed and every task deleted. */
  lemma {:induction false} WholeLife(name: string)
    ensures AllFreed(Replay(INITIAL, Construct(name) + StartAll() + Destroy()))
  {
    var whole := Construct(name) + StartAll() + Destroy();
    ConstructThenStart(name);
    var running := Replay(INITIAL, Construct(name) + StartAll()).value;
    assert Replay(INITIAL, whole) == Replay(running, Teardown(TASKS)) by {
      ReplayAppend(INITIAL, Construct(name) + StartAll(), Destroy());
    }
    assert AllFreed(Replay(running, Teardown(TASKS))) by {
      TaskSet();
      TeardownReplay(running, TASKS);
    }
  }

  /** The end of a legal life: both bases freed and exactly the eight tasks
      deleted. */
  predicate AllFreed(r: Option<Node>)
  {
    r.Some? && !r.value.hasTaskBase && !r.value.hasLogBase &&
    forall t :: StageOf(r.value, t) == if t in TASKS then Deleted else Absent
  }

  /** The order matters: freeing the log base while a task is still alive, or
      deleting a task that was never quit, is refused. */
  lemma EarlyFreeRefused(name: string, t: TaskId)
    requires t in TASKS
    ensures Replay(INITIAL, Construct(name) + StartAll() + [DeleteLogBase]).None?
    ensures Replay(INITIAL, Construct(name) + StartAll() + [Delete(t)]).None?
  {
    ConstructThenStart(name);
    var running := Replay(INITIAL, Construct(name) + StartAll()).value;
    assert Live(running, t);
    ReplayAppend(INITIAL, Construct(name) + StartAll(), [DeleteLogBase]);
    ReplayAppend(INITIAL, Construct(name) + StartAll(), [Delete(t)]);
    assert Apply(running, DeleteLogBase).None?;
    assert Apply(running, Delete(t)).None?;
  }
}
