/** A socket's task queue: any thread queues tasks and bytes to send, one worker takes the tasks and sends the bytes. */
module SocketWriter {
  /** Open is CONNECT or ACCEPTED. */
  datatype Task = Open | Disconnect | SendData | SendFile | Shutdown | Updated

  datatype State = Starting | Running | Failed

  /** Where the worker is: between tasks, after taking a signal, after taking a task, before exchanging the buffers,
      sending, or gone. */
  datatype Worker = Idle | Signalled | Popped(task: Task) | Exchanging | Sending | Gone

  datatype Socket = Socket(
    tasks: seq<Task>, signals: nat, writeBuf: string, sendBuf: string, done: nat,
    state: State, disconnecting: bool, hasSock: bool, worker: Worker,
    written: string, sent: string, openQueued: bool, early: bool)

  /** What the threads do, each step under the lock or on the worker's own. The queuing threads' steps come first; the
      last ones are the worker's, with what the network makes of them. */
  datatype Action =
    | SetSocket | QueueOpen | Write(data: string) | TransmitFile | QueueUpdated | QueueDisconnect(graceless: bool)
    | QueueShutdown
    | Wait | Pop | Dispatch(succeeds: bool) | Exchange | SendSome(accepted: nat) | SendFails | ReadFails

  const INITIAL := Socket([], 0, "", "", 0, Starting, false, false, Idle, "", "", false, false)

  // ----- the steps -----

  function AddTask(s: Socket, task: Task): Socket {
    s.(tasks := s.tasks + [task], signals := s.signals + 1)
  }

  function AfterWrite(s: Socket, data: string): Socket {
    if !s.hasSock then s else
      var t := if s.writeBuf == "" then AddTask(s, SendData) else s;
      t.(writeBuf := t.writeBuf + data, written := t.written + data, early := t.early || (!t.openQueued && data != ""))
  }

  function Fail(s: Socket): Socket {
    s.(state := if s.state == Failed then s.state else Failed, worker := Idle)
  }

  function AfterDispatch(s: Socket, task: Task, succeeds: bool): Socket {
    var idle := s.(worker := Idle);
    if task == Shutdown then s.(worker := Gone)
    else if task == Updated then idle
    else if s.state == Starting then
      if task == Open then if succeeds then idle.(state := Running) else Fail(s)
      else if task == Disconnect then Fail(s)
      else idle
    else if s.state == Failed then idle
    else if task == SendData then s.(worker := Exchanging)
    else if task == SendFile then if succeeds then idle else Fail(s)
    else if task == Disconnect then Fail(s)
    else idle
  }

  function AfterExchange(s: Socket): Socket {
    if s.writeBuf == "" then s.(worker := Idle)
    else s.(writeBuf := s.sendBuf, sendBuf := s.writeBuf, done := 0, worker := Sending)
  }

  function Min(a: nat, b: nat): nat {
    if a < b then a else b
  }

  function AfterSend(s: Socket, accepted: nat): Socket {
    if s.done >= |s.sendBuf| then s.(sendBuf := "", done := 0, worker := Idle)
    else if s.disconnecting then s.(worker := Idle)
    else
      var n := Min(accepted, |s.sendBuf| - s.done);
      s.(done := s.done + n, sent := s.sent + s.sendBuf[s.done..s.done + n])
  }

  /** A step that cannot be taken changes nothing. */
  function Next(s: Socket, a: Action): Socket {
    match a
    case SetSocket => s.(hasSock := true)
    case QueueOpen => if s.hasSock && !s.openQueued then AddTask(s, Open).(openQueued := true) else s
    case Write(data) => AfterWrite(s, data)
    case TransmitFile => if s.hasSock then AddTask(s, SendFile) else s
    case QueueUpdated => if s.hasSock then AddTask(s, Updated) else s
    case QueueDisconnect(graceless) => AddTask(s.(disconnecting := s.disconnecting || graceless), Disconnect)
    case QueueShutdown => AddTask(s.(disconnecting := true), Shutdown)
    case Wait => if s.worker == Idle && s.signals > 0 then s.(worker := Signalled, signals := s.signals - 1) else s
    case Pop => if s.worker == Signalled && s.tasks != [] then s.(worker := Popped(s.tasks[0]), tasks := s.tasks[1..])
        else s
    case Dispatch(succeeds) => if s.worker.Popped? then AfterDispatch(s, s.worker.task, succeeds) else s
    case Exchange => if s.worker == Exchanging then AfterExchange(s) else s
    case SendSome(accepted) => if s.worker == Sending then AfterSend(s, accepted) else s
    case SendFails => if s.worker == Sending then Fail(s) else s
    case ReadFails => if s.worker == Idle && s.state == Running then Fail(s) else s
  }

  function Run(s: Socket, actions: seq<Action>): Socket {
    if actions == [] then s else Next(Run(s, actions[..|actions| - 1]), actions[|actions| - 1])
  }

  // ----- what holds in every reachable state -----

  /** The signals count the tasks, except for one that has been signalled and not yet taken. */
  predicate Counted(s: Socket) {
    |s.tasks| == s.signals + if s.worker == Signalled then 1 else 0
  }

  predicate Alive(s: Socket) {
    s.state != Failed && !s.disconnecting
  }

  /** What is in the send buffer and has not been sent. */
  function Unsent(s: Socket): string {
    if s.worker == Sending && s.done <= |s.sendBuf| then s.sendBuf[s.done..] else ""
  }

  /** No byte is lost, doubled or out of order. */
  predicate InOrder(s: Socket) {
    && s.sent <= s.written
    && (s.worker == Sending ==> s.done <= |s.sendBuf| && s.state == Running)
    && (s.worker == Exchanging ==> s.state == Running)
    && (Alive(s) ==> s.written == s.sent + Unsent(s) + s.writeBuf && (s.worker != Sending ==> s.sendBuf == ""))
  }

  /** A task to send is queued behind the one that opens the connection. */
  predicate OpenThenSend(tasks: seq<Task>) {
    exists j, i :: 0 <= j < i < |tasks| && tasks[j] == Open && tasks[i] == SendData
  }

  predicate Due(s: Socket) {
    SendData in s.tasks || s.worker == Popped(SendData) || s.worker == Exchanging
  }

  /** There will be a task to send once the connection is open. */
  predicate DueWhenOpen(s: Socket) {
    (s.worker == Popped(Open) && SendData in s.tasks) || OpenThenSend(s.tasks)
  }

  /** Where the task that opens the connection is. */
  predicate Opening(s: Socket) {
    && (s.state == Starting ==> s.worker != Exchanging && s.worker != Sending)
    && (s.state == Starting && s.openQueued ==> Open in s.tasks || s.worker == Popped(Open))
    && (!s.openQueued ==> s.state != Running && Open !in s.tasks && s.worker != Popped(Open))
  }

  /** Without bytes written before the opening was queued: bytes to be sent are never forgotten. */
  predicate Remembered(s: Socket) {
    && (!s.openQueued ==> s.writeBuf == "")
    && (s.writeBuf != "" && Alive(s) ==> if s.state == Starting then DueWhenOpen(s) else Due(s))
  }

  /** A connection with bytes to be sent and nothing that will ever send them. */
  predicate Stuck(s: Socket) {
    s.writeBuf != "" && !Due(s) && s.worker != Sending && s.state != Starting
  }

  /** With such bytes: they are never sent. */
  predicate Forgotten(s: Socket) {
    && (s.state == Starting ==> s.writeBuf != "" && !DueWhenOpen(s))
    && (s.state == Running ==> Stuck(s))
  }

  predicate Inv(s: Socket) {
    Counted(s) && InOrder(s) && Opening(s) && if s.early then Forgotten(s) else Remembered(s)
  }

  lemma AddCounts(s: Socket, task: Task)
    requires Counted(s)
    ensures Counted(AddTask(s, task))
  {
  }

  lemma DispatchCounts(s: Socket, succeeds: bool)
    requires Counted(s) && s.worker.Popped?
    ensures Counted(AfterDispatch(s, s.worker.task, succeeds))
  {
  }

  lemma StepCounts(s: Socket, a: Action)
    requires Counted(s)
    ensures Counted(Next(s, a))
    ensures a == Pop && s.worker == Signalled ==> s.tasks != []
  {
    match a
    case Write(data) => AddCounts(s, SendData);
    case QueueOpen => AddCounts(s, Open);
    case TransmitFile => AddCounts(s, SendFile);
    case QueueUpdated => AddCounts(s, Updated);
    case QueueDisconnect(graceless) => AddCounts(s, Disconnect);
    case QueueShutdown => AddCounts(s, Shutdown);
    case Dispatch(succeeds) => if s.worker.Popped? { DispatchCounts(s, succeeds); }
    case _ =>
  }

  lemma WriteInOrder(s: Socket, data: string)
    requires InOrder(s)
    ensures InOrder(AfterWrite(s, data))
  {
    if s.hasSock {
      assert s.written <= s.written + data;
      assert s.sent + Unsent(s) + (s.writeBuf + data) == (s.sent + Unsent(s) + s.writeBuf) + data;
    }
  }

  lemma ExchangeInOrder(s: Socket)
    requires InOrder(s) && s.worker == Exchanging
    ensures InOrder(AfterExchange(s))
  {
    if s.writeBuf != "" {
      var t := AfterExchange(s);
      assert Unsent(t) == s.writeBuf;
      if Alive(s) {
        assert s.sent + Unsent(s) + s.writeBuf == s.sent + s.writeBuf + "";
      }
    }
  }

  lemma SentAll(s: Socket, accepted: nat)
    requires InOrder(s) && s.worker == Sending && s.done >= |s.sendBuf|
    ensures InOrder(AfterSend(s, accepted))
  {
    assert Unsent(s) == "" && s.sent + "" == s.sent;
  }

  lemma SentSome(s: Socket, accepted: nat)
    requires InOrder(s) && s.worker == Sending && s.done < |s.sendBuf| && !s.disconnecting
    ensures InOrder(AfterSend(s, accepted))
  {
    var t := AfterSend(s, accepted);
    var n := t.done - s.done;
    var rest := Unsent(s);
    SlicesOf(s.sendBuf, s.done, n);
    assert t.sent == s.sent + rest[..n] && Unsent(t) == rest[n..];
    Moved(s.sent, rest, n, s.writeBuf);
  }

  lemma SlicesOf(buf: string, done: nat, n: nat)
    requires done + n <= |buf|
    ensures buf[done..][..n] == buf[done..done + n] && buf[done..][n..] == buf[done + n..]
  {
  }

  lemma SendInOrder(s: Socket, accepted: nat)
    requires InOrder(s) && s.worker == Sending
    ensures InOrder(AfterSend(s, accepted))
  {
    if s.done >= |s.sendBuf| {
      SentAll(s, accepted);
    } else if !s.disconnecting {
      SentSome(s, accepted);
    }
  }

  lemma Moved(sent: string, rest: string, n: nat, behind: string)
    requires n <= |rest|
    ensures sent + rest + behind == (sent + rest[..n]) + rest[n..] + behind
    ensures sent + rest[..n] <= sent + rest + behind
  {
    assert rest == rest[..n] + rest[n..];
  }

  /** A step that leaves the buffers alone. */
  lemma SameBuffers(s: Socket, t: Socket)
    requires InOrder(s)
    requires t.written == s.written && t.sent == s.sent && t.writeBuf == s.writeBuf && t.sendBuf == s.sendBuf
             && t.done == s.done
    requires Alive(t) ==> Alive(s) && (t.worker == Sending <==> s.worker == Sending)
    requires t.worker == Sending ==> s.worker == Sending && t.state == s.state
    requires t.worker == Exchanging ==> t.state == Running
    ensures InOrder(t)
  {
  }

  lemma DispatchInOrder(s: Socket, succeeds: bool)
    requires InOrder(s) && s.worker.Popped?
    ensures InOrder(AfterDispatch(s, s.worker.task, succeeds))
  {
    DispatchKeepsBuffers(s, succeeds);
    DispatchStays(s, succeeds);
    SameBuffers(s, AfterDispatch(s, s.worker.task, succeeds));
  }

  lemma DispatchKeepsBuffers(s: Socket, succeeds: bool)
    requires s.worker.Popped?
    ensures var t := AfterDispatch(s, s.worker.task, succeeds);
            && t.written == s.written && t.sent == s.sent && t.writeBuf == s.writeBuf && t.sendBuf == s.sendBuf
            && t.done == s.done
  {
  }

  lemma DispatchStays(s: Socket, succeeds: bool)
    requires s.worker.Popped?
    ensures var t := AfterDispatch(s, s.worker.task, succeeds);
            (Alive(t) ==> Alive(s)) && t.worker != Sending && (t.worker == Exchanging ==> t.state == Running)
  {
  }

  lemma WorkerInOrder(s: Socket, a: Action)
    requires InOrder(s) && (a.Wait? || a.Pop? || a.Dispatch? || a.Exchange? || a.SendSome? || a.SendFails?
             || a.ReadFails?)
    ensures InOrder(Next(s, a))
  {
    match a
    case Dispatch(succeeds) => if s.worker.Popped? { DispatchInOrder(s, succeeds); }
    case Exchange => if s.worker == Exchanging { ExchangeInOrder(s); }
    case SendSome(accepted) => if s.worker == Sending { SendInOrder(s, accepted); }
    case Wait => SameBuffers(s, Next(s, a));
    case Pop => SameBuffers(s, Next(s, a));
    case SendFails => SameBuffers(s, Next(s, a));
    case ReadFails => SameBuffers(s, Next(s, a));
  }

  lemma StepInOrder(s: Socket, a: Action)
    requires InOrder(s)
    ensures InOrder(Next(s, a))
  {
    match a
    case Write(data) => WriteInOrder(s, data);
    case SetSocket => SameBuffers(s, Next(s, a));
    case QueueOpen => SameBuffers(s, Next(s, a));
    case TransmitFile => SameBuffers(s, Next(s, a));
    case QueueUpdated => SameBuffers(s, Next(s, a));
    case QueueDisconnect(graceless) => SameBuffers(s, Next(s, a));
    case QueueShutdown => SameBuffers(s, Next(s, a));
    case _ => WorkerInOrder(s, a);
  }

  lemma AddOpens(s: Socket, task: Task)
    requires Opening(s) && task != Open
    ensures Opening(AddTask(s, task))
  {
  }

  lemma DispatchOpens(s: Socket, succeeds: bool)
    requires Opening(s) && s.worker.Popped?
    ensures Opening(AfterDispatch(s, s.worker.task, succeeds))
  {
  }

  lemma StepOpens(s: Socket, a: Action)
    requires Opening(s) && InOrder(s)
    ensures Opening(Next(s, a))
  {
    match a
    case Write(data) => AddOpens(s, SendData);
    case TransmitFile => AddOpens(s, SendFile);
    case QueueUpdated => AddOpens(s, Updated);
    case QueueDisconnect(graceless) => AddOpens(s, Disconnect);
    case QueueShutdown => AddOpens(s, Shutdown);
    case Dispatch(succeeds) => if s.worker.Popped? { DispatchOpens(s, succeeds); }
    case _ =>
  }

  /** Queuing another task, or the first to send. */
  lemma AddOpenThenSend(tasks: seq<Task>, task: Task)
    ensures OpenThenSend(tasks + [task]) <==> OpenThenSend(tasks) || (task == SendData && Open in tasks)
  {
    var more := tasks + [task];
    if OpenThenSend(tasks) {
      var j, i :| 0 <= j < i < |tasks| && tasks[j] == Open && tasks[i] == SendData;
      assert more[j] == Open && more[i] == SendData;
    }
    if task == SendData && Open in tasks {
      var j :| 0 <= j < |tasks| && tasks[j] == Open;
      assert more[j] == Open && more[|tasks|] == SendData;
    }
  }

  lemma PopOpenThenSend(tasks: seq<Task>)
    requires tasks != []
    ensures OpenThenSend(tasks) <==> OpenThenSend(tasks[1..]) || (tasks[0] == Open && SendData in tasks[1..])
  {
    var rest := tasks[1..];
    if OpenThenSend(tasks) {
      var j, i :| 0 <= j < i < |tasks| && tasks[j] == Open && tasks[i] == SendData;
      assert rest[i - 1] == SendData && (j > 0 ==> rest[j - 1] == Open);
    }
    if OpenThenSend(rest) {
      var j, i :| 0 <= j < i < |rest| && rest[j] == Open && rest[i] == SendData;
      assert tasks[j + 1] == Open && tasks[i + 1] == SendData;
    }
    if tasks[0] == Open && SendData in rest {
      var i :| 0 <= i < |rest| && rest[i] == SendData;
      assert tasks[i + 1] == SendData;
    }
  }

  predicate Sound(s: Socket) {
    if s.early then Forgotten(s) else Remembered(s)
  }

  lemma AddSound(s: Socket, task: Task)
    requires Sound(s) && task != SendData
    ensures Sound(AddTask(s, task))
  {
    AddOpenThenSend(s.tasks, task);
  }

  lemma DispatchSound(s: Socket, succeeds: bool)
    requires Sound(s) && Opening(s) && s.worker.Popped?
    ensures Sound(AfterDispatch(s, s.worker.task, succeeds))
  {
  }

  lemma WriteSound(s: Socket, data: string)
    requires Sound(s) && Opening(s) && InOrder(s)
    ensures Sound(AfterWrite(s, data))
  {
    AddOpenThenSend(s.tasks, SendData);
  }

  lemma PopSound(s: Socket)
    requires Sound(s) && Opening(s) && s.worker == Signalled && s.tasks != []
    ensures Sound(Next(s, Pop))
  {
    PopOpenThenSend(s.tasks);
    assert s.tasks == [s.tasks[0]] + s.tasks[1..];
  }

  lemma WorkerSound(s: Socket, a: Action)
    requires Sound(s) && Opening(s) && InOrder(s)
    requires a.Wait? || a.Pop? || a.Dispatch? || a.Exchange? || a.SendSome? || a.SendFails? || a.ReadFails?
    ensures Sound(Next(s, a))
  {
    match a
    case Pop => if s.worker == Signalled && s.tasks != [] { PopSound(s); }
    case Dispatch(succeeds) => if s.worker.Popped? { DispatchSound(s, succeeds); }
    case _ =>
  }

  lemma StepSound(s: Socket, a: Action)
    requires Sound(s) && Opening(s) && InOrder(s)
    ensures Sound(Next(s, a))
  {
    match a
    case Write(data) => WriteSound(s, data);
    case SetSocket =>
    case QueueOpen => AddSound(s, Open);
    case TransmitFile => AddSound(s, SendFile);
    case QueueUpdated => AddSound(s, Updated);
    case QueueDisconnect(graceless) => AddSound(s.(disconnecting := s.disconnecting || graceless), Disconnect);
    case QueueShutdown => AddSound(s.(disconnecting := true), Shutdown);
    case _ => WorkerSound(s, a);
  }

  /** No step takes a task from an empty queue, loses or repeats a byte, or forgets bytes to be sent. */
  lemma StepKeeps(s: Socket, a: Action)
    requires Inv(s)
    ensures Inv(Next(s, a))
    ensures a == Pop && s.worker == Signalled ==> s.tasks != []
  {
    StepCounts(s, a);
    StepInOrder(s, a);
    StepOpens(s, a);
    StepSound(s, a);
  }

  /** The same over every run, in whatever order the threads take their steps. */
  lemma {:induction false} RunKeeps(actions: seq<Action>)
    ensures Inv(Run(INITIAL, actions))
  {
    if actions != [] {
      RunKeeps(actions[..|actions| - 1]);
      StepKeeps(Run(INITIAL, actions[..|actions| - 1]), actions[|actions| - 1]);
    }
  }

  /** Whatever the run, the bytes sent are a prefix of the bytes written. While the connection runs, bytes to be sent
      have a task that will send them exactly if no bytes were written before the opening was queued; and then, if the
      worker has nothing more to do, everything has been sent. */
  lemma SentIsWritten(actions: seq<Action>)
    ensures var s := Run(INITIAL, actions);
            && s.sent <= s.written
            && (Alive(s) && s.state == Running ==> (Stuck(s) <==> s.early))
            && (Alive(s) && !s.early && s.state == Running && s.tasks == [] && s.worker == Idle ==> s.sent == s.written)
  {
    RunKeeps(actions);
    var s := Run(INITIAL, actions);
    assert s.sent + "" + "" == s.sent;
  }

  // ----- how a connection opens and ends -----

  /** A connection opens by its first task, and does not when that fails or when it is disconnected before. */
  lemma StepOpensOrNot(s: Socket, a: Action)
    requires s.state == Starting && s.worker != Sending
    ensures Next(s, a).state == Running <==> a == Dispatch(true) && s.worker == Popped(Open)
    ensures Next(s, a).state == Failed <==>
              || (a.Dispatch? && s.worker == Popped(Disconnect)) || (a == Dispatch(false) && s.worker == Popped(Open))
  {
    match a
    case Dispatch(succeeds) => assert s.worker.Popped? ==> s.worker == Popped(s.worker.task);
    case SendSome(accepted) =>
    case _ =>
  }

  /** A running one ends by a disconnect, or when sending or reading fails, which the worker notices while it sends or
      between two tasks; what has ended never begins again. */
  lemma StepEnds(s: Socket, a: Action)
    requires s.state != Starting
    ensures Next(s, a).state == Failed <==>
              || s.state == Failed || (a.Dispatch? && s.worker == Popped(Disconnect))
              || (a == Dispatch(false) && s.worker == Popped(SendFile))
              || (a == SendFails && s.worker == Sending) || (a == ReadFails && s.worker == Idle)
  {
    if a.Dispatch? {
      if s.worker.Popped? {
        assert s.worker == Popped(s.worker.task);
        DispatchEnds(s, s.worker.task, a.succeeds);
      }
    } else {
      OthersEnd(s, a);
    }
  }

  lemma OthersEnd(s: Socket, a: Action)
    requires s.state != Starting && !a.Dispatch?
    ensures Next(s, a).state == Failed <==>
              s.state == Failed || (a == SendFails && s.worker == Sending) || (a == ReadFails && s.worker == Idle)
  {
    if a.SendSome? {
      SendKeepsState(s, a.accepted);
    }
  }

  lemma SendKeepsState(s: Socket, accepted: nat)
    ensures AfterSend(s, accepted).state == s.state
  {
    if s.done < |s.sendBuf| && !s.disconnecting {
      var n := Min(accepted, |s.sendBuf| - s.done);
      assert AfterSend(s, accepted) == s.(done := s.done + n, sent := s.sent + s.sendBuf[s.done..s.done + n]);
    }
  }

  lemma DispatchEnds(s: Socket, task: Task, succeeds: bool)
    requires s.state != Starting
    ensures AfterDispatch(s, task, succeeds).state == Failed <==>
              s.state == Failed || task == Disconnect || (task == SendFile && !succeeds)
  {
  }

  /** Only a shutdown ends the worker. */
  lemma StepLeaves(s: Socket, a: Action)
    requires s.worker != Gone
    ensures Next(s, a).worker == Gone <==> a.Dispatch? && s.worker == Popped(Shutdown)
  {
    match a
    case Dispatch(succeeds) => assert s.worker.Popped? ==> s.worker == Popped(s.worker.task);
    case SendSome(accepted) =>
    case _ =>
  }

  /** As long as the network takes something, a round of sending sends or is the last one. */
  lemma SendGoesOn(s: Socket, accepted: nat)
    requires s.worker == Sending && s.done <= |s.sendBuf| && Alive(s) && accepted > 0
    ensures var t := Next(s, SendSome(accepted));
            if s.done < |s.sendBuf| then |t.sent| > |s.sent| && t.done > s.done else t.worker == Idle
  {
  }

  /** The opening is queued once, and without a socket nothing is queued but the end. */
  predicate OnlyEnds(s: Socket) {
    !s.hasSock ==> s.written == "" && !s.openQueued && forall t :: t in s.tasks ==> t == Disconnect || t == Shutdown
  }

  lemma {:induction false} NoSocketNoTask(actions: seq<Action>)
    ensures var s := Run(INITIAL, actions); OnlyEnds(s) && (s.openQueued ==> Next(s, QueueOpen) == s)
  {
    if actions != [] {
      NoSocketNoTask(actions[..|actions| - 1]);
      EndsStep(Run(INITIAL, actions[..|actions| - 1]), actions[|actions| - 1]);
    }
  }

  lemma EndsStep(s: Socket, a: Action)
    requires OnlyEnds(s)
    ensures OnlyEnds(Next(s, a))
  {
    if s.hasSock || a == SetSocket {
      SockStays(s, a);
    } else {
      NoSockStep(s, a);
    }
  }

  lemma SockStays(s: Socket, a: Action)
    requires s.hasSock || a == SetSocket
    ensures Next(s, a).hasSock
  {
    match a
    case Dispatch(succeeds) =>
    case SendSome(accepted) =>
    case _ =>
  }

  lemma NoSockStep(s: Socket, a: Action)
    requires !s.hasSock && a != SetSocket
    ensures var t := Next(s, a);
            && t.written == s.written && t.openQueued == s.openQueued
            && (forall x :: x in t.tasks ==> x in s.tasks || x == Disconnect || x == Shutdown)
  {
    match a
    case Dispatch(succeeds) =>
    case SendSome(accepted) =>
    case _ =>
  }

  /** A disconnect that is not graceless waits for what was written before it: when its turn comes, and nothing has been
      written since, all has been sent. */
  lemma DisconnectSendsFirst(actions: seq<Action>)
    ensures var s := Run(INITIAL, actions);
            s.worker == Popped(Disconnect) && s.state == Running && Alive(s) && !s.early && SendData !in s.tasks ==>
              s.sent == s.written
  {
    RunKeeps(actions);
    var s := Run(INITIAL, actions);
    assert s.sent + "" + "" == s.sent;
  }

  predicate Ended(s: Socket) {
    s.state == Failed && s.worker != Sending && s.worker != Exchanging
  }

  lemma EndedStep(s: Socket, a: Action)
    requires Ended(s)
    ensures Ended(Next(s, a)) && Next(s, a).sent == s.sent
  {
  }

  /** After the end nothing is sent. */
  lemma {:induction false} EndedForever(s: Socket, actions: seq<Action>)
    requires Ended(s)
    ensures Ended(Run(s, actions)) && Run(s, actions).sent == s.sent
  {
    if actions != [] {
      EndedForever(s, actions[..|actions| - 1]);
      EndedStep(Run(s, actions[..|actions| - 1]), actions[|actions| - 1]);
    }
  }

  /** A connection that has failed has ended. */
  lemma FailedIsEnded(actions: seq<Action>)
    ensures var s := Run(INITIAL, actions); s.state == Failed ==> Ended(s)
  {
    RunKeeps(actions);
  }

  // ----- bytes written before the opening is queued -----

  lemma StuckDispatch(s: Socket, succeeds: bool)
    requires Stuck(s) && s.worker.Popped?
    ensures var t := AfterDispatch(s, s.worker.task, succeeds); Stuck(t) && t.sent == s.sent
  {
  }

  lemma StuckWork(s: Socket, a: Action)
    requires Stuck(s)
    requires a.Wait? || a.Pop? || a.Dispatch? || a.Exchange? || a.SendSome? || a.SendFails? || a.ReadFails?
    ensures Stuck(Next(s, a)) && Next(s, a).sent == s.sent
  {
    match a
    case Dispatch(succeeds) => if s.worker.Popped? { StuckDispatch(s, succeeds); }
    case _ =>
  }

  lemma StuckStep(s: Socket, a: Action)
    requires Stuck(s)
    ensures Stuck(Next(s, a)) && Next(s, a).sent == s.sent
  {
    if a.Wait? || a.Pop? || a.Dispatch? || a.Exchange? || a.SendSome? || a.SendFails? || a.ReadFails? {
      StuckWork(s, a);
    }
  }

  /** Once stuck, nothing is sent any more whatever is written. */
  lemma {:induction false} StuckForever(s: Socket, actions: seq<Action>)
    requires Stuck(s)
    ensures Stuck(Run(s, actions)) && Run(s, actions).sent == s.sent
  {
    if actions != [] {
      StuckForever(s, actions[..|actions| - 1]);
      StuckStep(Run(s, actions[..|actions| - 1]), actions[|actions| - 1]);
    }
  }

  lemma RunMore(s: Socket, actions: seq<Action>, a: Action)
    ensures Run(s, actions + [a]) == Next(Run(s, actions), a)
  {
    assert (actions + [a])[..|actions|] == actions;
  }

  /** Such a run: the task to send is taken while the connection is still to be opened, and dropped. */
  lemma EarlyWriteIsStuck(data: string)
    requires data != ""
    ensures var s := Run(INITIAL, [SetSocket] + [Write(data)] + [QueueOpen] + [Wait] + [Pop] + [Dispatch(true)] + [Wait]
                                  + [Pop] + [Dispatch(true)]);
            s.state == Running && !s.disconnecting && Stuck(s) && s.sent == "" && s.written == data
  {
    var a0 := [SetSocket];
    RunMore(INITIAL, [], SetSocket);
    RunMore(INITIAL, a0, Write(data));
    var a1 := a0 + [Write(data)];
    RunMore(INITIAL, a1, QueueOpen);
    var a2 := a1 + [QueueOpen];
    RunMore(INITIAL, a2, Wait);
    var a3 := a2 + [Wait];
    RunMore(INITIAL, a3, Pop);
    var a4 := a3 + [Pop];
    RunMore(INITIAL, a4, Dispatch(true));
    var a5 := a4 + [Dispatch(true)];
    RunMore(INITIAL, a5, Wait);
    var a6 := a5 + [Wait];
    RunMore(INITIAL, a6, Pop);
    RunMore(INITIAL, a6 + [Pop], Dispatch(true));
  }

  // ----- the socket object -----

  class BufferedSocket {
    var tasks: seq<Task>
    var taskSem: nat
    var writeBuf: string
    var sendBuf: string
    /** How much of the send buffer has been sent. */
    var done: nat
    var state: State
    var disconnecting: bool
    var hasSock: bool
    var worker: Worker
    /** connect or accept is called once. */
    var openQueued: bool
    ghost var written: string
    ghost var sent: string
    ghost var early: bool

    ghost function Now(): Socket
      reads this
    {
      Socket(tasks, taskSem, writeBuf, sendBuf, done, state, disconnecting, hasSock, worker, written, sent, openQueued,
          early)
    }

    constructor ()
      ensures Now() == INITIAL
    {
      tasks, taskSem, writeBuf, sendBuf, done := [], 0, "", "", 0;
      state, disconnecting, hasSock, worker := Starting, false, false, Idle;
      written, sent, openQueued, early := "", "", false, false;
    }

    method QueueTask(task: Task)
      modifies this`tasks, this`taskSem
      ensures Now() == AddTask(old(Now()), task)
    {
      tasks := tasks + [task];
      taskSem := taskSem + 1;
    }

    method WriteBytes(data: string)
      modifies this
      ensures Now() == AfterWrite(old(Now()), data)
    {
      if !hasSock {
        return;
      }
      if writeBuf == "" {
        QueueTask(SendData);
      }
      writeBuf := writeBuf + data;
      written := written + data;
      early := early || (!openQueued && data != "");
    }

    method FailNow()
      modifies this`state, this`worker
      ensures Now() == Fail(old(Now()))
    {
      if state == Running || state == Starting {
        state := Failed;
      }
      worker := Idle;
    }

    /** Takes the first task; only called after a signal. */
    method TakeTask()
      requires worker == Signalled && tasks != []
      modifies this`tasks, this`worker
      ensures Now() == Next(old(Now()), Pop)
    {
      worker := Popped(tasks[0]);
      tasks := tasks[1..];
    }

    method DispatchTask(task: Task, succeeds: bool)
      modifies this`state, this`worker
      ensures Now() == AfterDispatch(old(Now()), task, succeeds)
    {
      worker := Idle;
      if task == Shutdown {
        worker := Gone;
        return;
      }
      if task == Updated {
        return;
      }
      if state == Starting {
        match task
        case Open =>
          state := Running;
          if !succeeds {
            FailNow();
          }
        case Disconnect => FailNow();
        case _ =>
        return;
      }
      if state != Running {
        return;
      }
      match task
      case SendData => worker := Exchanging;
      case SendFile =>
        if !succeeds {
          FailNow();
        }
      case Disconnect => FailNow();
      case _ =>
    }

    /** The first half of sending: takes over what has been written. */
    method ExchangeBuffers()
      requires worker == Exchanging
      modifies this`writeBuf, this`sendBuf, this`done, this`worker
      ensures Now() == AfterExchange(old(Now()))
    {
      if writeBuf == "" {
        worker := Idle;
      } else {
        writeBuf, sendBuf := sendBuf, writeBuf;
        done := 0;
        worker := Sending;
      }
    }

    /** One round of the loop that sends, or its end. */
    method SendRound(accepted: nat)
      requires worker == Sending
      modifies this`sendBuf, this`done, this`worker, this`sent
      ensures Now() == AfterSend(old(Now()), accepted)
    {
      if done >= |sendBuf| {
        sendBuf, done, worker := "", 0, Idle;
      } else if disconnecting {
        worker := Idle;
      } else {
        var n := Min(accepted, |sendBuf| - done);
        sent := sent + sendBuf[done..done + n];
        done := done + n;
      }
    }

    method PerformWork(a: Action)
      requires Inv(Now()) && (a.Wait? || a.Pop? || a.Dispatch? || a.Exchange? || a.SendSome? || a.SendFails?
               || a.ReadFails?)
      modifies this
      ensures Now() == Next(old(Now()), a)
    {
      match a
      case Wait =>
        if worker == Idle && taskSem > 0 {
          taskSem := taskSem - 1;
          worker := Signalled;
        }
      case Pop =>
        StepCounts(Now(), a);
        if worker == Signalled {
          TakeTask();
        }
      case Dispatch(succeeds) =>
        if worker.Popped? {
          DispatchTask(worker.task, succeeds);
        }
      case Exchange =>
        if worker == Exchanging {
          ExchangeBuffers();
        }
      case SendSome(accepted) =>
        if worker == Sending {
          SendRound(accepted);
        }
      case SendFails =>
        if worker == Sending {
          FailNow();
        }
      case ReadFails =>
        if worker == Idle && state == Running {
          FailNow();
        }
    }

    /** Any step of any thread. */
    method Perform(a: Action)
      requires Inv(Now())
      modifies this
      ensures Now() == Next(old(Now()), a) && Inv(Now())
    {
      StepKeeps(Now(), a);
      match a
      case SetSocket => hasSock := true;
      case QueueOpen =>
        if hasSock && !openQueued {
          QueueTask(Open);
          openQueued := true;
        }
      case Write(data) => WriteBytes(data);
      case TransmitFile =>
        if hasSock {
          QueueTask(SendFile);
        }
      case QueueUpdated =>
        if hasSock {
          QueueTask(Updated);
        }
      case QueueDisconnect(graceless) =>
        disconnecting := disconnecting || graceless;
        QueueTask(Disconnect);
      case QueueShutdown =>
        disconnecting := true;
        QueueTask(Shutdown);
      case _ => PerformWork(a);
    }
  }

  /** A socket under any interleaving of its threads: what it sent is a prefix of what was written; while it runs it is
      stuck exactly if bytes were written before the opening was queued, and otherwise an idle worker with no task has
      sent everything. */
  method RunThreads(actions: seq<Action>) returns (s: BufferedSocket)
    ensures s.Now() == Run(INITIAL, actions) && Inv(s.Now())
    ensures s.sent <= s.written && s.taskSem <= |s.tasks|
    ensures s.state == Running && !s.disconnecting ==>
              && (s.early <==> Stuck(s.Now()))
              && (!s.early && s.tasks == [] && s.worker == Idle ==> s.sent == s.written)
  {
    s := new BufferedSocket();
    for k := 0 to |actions|
      invariant fresh(s) && Inv(s.Now()) && s.Now() == Run(INITIAL, actions[..k])
    {
      assert actions[..k + 1][..k] == actions[..k];
      s.Perform(actions[k]);
    }
    assert actions[..|actions|] == actions;
    SentIsWritten(actions);
  }
}
