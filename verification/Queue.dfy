/** The job queue: one worker, spawned tasks and client calls over shared state, one atomic step at a time. */
module Queue {
  import opened Wrappers

  type JobId = int
  type ExecId = int

  datatype Message = Run(job: JobId, exec: ExecId) | Cancel(exec: ExecId)

  /** Where the worker loop stands: at the loop top, in the paused select, waiting to receive, with a
      message in hand, or between leaving `queued` and entering `running`. */
  datatype Worker = Top | Parked | Waiting | Holding(message: Message) | Claiming(job: JobId, exec: ExecId)

  /** How far a task is: at work; out of `active`; out of `running`; without its token but, after an
      error, with its cancellation mark still to go; with only its Completed event to send. `ok` tells
      whether it ended without an error. */
  datatype Stage = Working | Leaving(ok: bool) | Unlisted(ok: bool) | Unmarking | Ending

  datatype Task = Task(job: JobId, stage: Stage)

  /** What a Completed event is about: a cancellation taken from the queue, a cancelled run met by
      the worker, or the end of a task. */
  datatype Cause = InQueue | AtClaim | ByTask

  /** The events sent, with the starts of tasks noted among them. */
  datatype Notice = Started(exec: ExecId) | Progress(exec: ExecId) | Completed(exec: ExecId, cause: Cause)

  /** What has happened: the ids given out and their jobs, the tokens tripped, the messages cleared, the notices. */
  datatype Record = Record(issued: map<ExecId, JobId>, tripped: set<ExecId>, dropped: seq<Message>, log: seq<Notice>)

  datatype State = State(
    channel: seq<Message>,
    unsent: map<ExecId, JobId>,
    active: set<ExecId>,
    running: map<JobId, ExecId>,
    queued: map<ExecId, JobId>,
    cancelled: set<ExecId>,
    tokens: set<ExecId>,
    paused: bool,
    pending: seq<Message>,
    worker: Worker,
    tasks: map<ExecId, Task>,
    record: Record)

  const INITIAL := State([], map[], {}, map[], map[], {}, {}, false, [], Top, map[], Record(map[], {}, [], []))

  /** One step of one participant. A step whose participant is not ready changes nothing. */
  datatype Event =
    | EnqueueEntry(job: JobId, exec: ExecId)
    | EnqueueSend(exec: ExecId)
    | ClientCancel(exec: ExecId)
    | Pause
    | Resume
    | ClearPending
    | Look
    | Wake
    | Receive
    | Handle
    | Launch
    | TaskProgress(exec: ExecId)
    | TaskLeave(exec: ExecId, ok: bool)
    | TaskUnlist(exec: ExecId)
    | TaskDetach(exec: ExecId)
    | TaskUnmark(exec: ExecId)
    | TaskReport(exec: ExecId)

  /** Whether `enqueue` turns the job away. */
  predicate AlreadyRunning(s: State, job: JobId) {
    job in s.running || exists e <- s.queued :: s.queued[e] == job
  }

  function Noted(r: Record, n: Notice): Record {
    r.(log := r.log + [n])
  }

  /** The worker's treatment of a cancel message, paused or not. */
  function HandleCancel(s: State, exec: ExecId): State {
    if exec in s.tokens then
      s.(tokens := s.tokens - {exec}, record := s.record.(tripped := s.record.tripped + {exec}))
    else if exec in s.queued then
      s.(queued := s.queued - {exec}, cancelled := s.cancelled + {exec}, record := Noted(s.record, Completed(exec, InQueue)))
    else s
  }

  /** From the claim of a run on: dropped as cancelled, dropped as a second run of its job, or started. */
  function LaunchRun(s: State, job: JobId, exec: ExecId): State {
    if exec in s.cancelled then
      s.(worker := Top, cancelled := s.cancelled - {exec}, record := Noted(s.record, Completed(exec, AtClaim)))
    else if job in s.running then s.(worker := Top)
    else
      s.(worker := Top, running := s.running[job := exec], tokens := s.tokens + {exec},
         tasks := s.tasks[exec := Task(job, Working)], record := Noted(s.record, Started(exec)))
  }

  function ReceiveMessage(s: State): State {
    if s.channel == [] then s
    else
      var message, rest := s.channel[0], s.channel[1..];
      if s.worker.Waiting? then s.(channel := rest, worker := Holding(message))
      else if s.worker.Parked? then
        match message
        case Run(_, _) => s.(channel := rest, worker := Top, pending := s.pending + [message])
        case Cancel(exec) => HandleCancel(s.(channel := rest, worker := Top), exec)
      else s
  }

  function LookAround(s: State): State {
    if s.paused then s.(worker := Parked)
    else if s.pending != [] then
      s.(worker := Holding(s.pending[|s.pending| - 1]), pending := s.pending[..|s.pending| - 1])
    else s.(worker := Waiting)
  }

  predicate AtStage(s: State, exec: ExecId, stage: Stage) {
    exec in s.tasks && s.tasks[exec].stage == stage
  }

  predicate IsLeaving(s: State, exec: ExecId) {
    exec in s.tasks && s.tasks[exec].stage.Leaving?
  }

  predicate IsUnlisted(s: State, exec: ExecId) {
    exec in s.tasks && s.tasks[exec].stage.Unlisted?
  }

  function MovedTo(tasks: map<ExecId, Task>, exec: ExecId, stage: Stage): map<ExecId, Task>
    requires exec in tasks
  {
    tasks[exec := tasks[exec].(stage := stage)]
  }

  predicate OfTask(e: Event) {
    e.TaskProgress? || e.TaskLeave? || e.TaskUnlist? || e.TaskDetach? || e.TaskUnmark? || e.TaskReport?
  }

  /** A step of the task of `exec`, at work or on its way out. */
  function TaskStep(s: State, e: Event): State
    requires OfTask(e)
  {
    var exec := e.exec;
    match e
    case TaskProgress(_) =>
      if AtStage(s, exec, Working) then s.(active := s.active + {exec}, record := Noted(s.record, Progress(exec))) else s
    case TaskLeave(_, ok) =>
      if AtStage(s, exec, Working) then
        s.(active := s.active - {exec}, tasks := MovedTo(s.tasks, exec, Leaving(ok)))
      else s
    case TaskUnlist(_) =>
      if IsLeaving(s, exec) then
        s.(running := s.running - {s.tasks[exec].job}, tasks := MovedTo(s.tasks, exec, Unlisted(s.tasks[exec].stage.ok)))
      else s
    case TaskDetach(_) =>
      if IsUnlisted(s, exec) then
        s.(tokens := s.tokens - {exec}, tasks := MovedTo(s.tasks, exec, if s.tasks[exec].stage.ok then Ending else Unmarking))
      else s
    case TaskUnmark(_) =>
      if AtStage(s, exec, Unmarking) then
        s.(cancelled := s.cancelled - {exec}, tasks := MovedTo(s.tasks, exec, Ending))
      else s
    case TaskReport(_) =>
      if AtStage(s, exec, Ending) then
        s.(tasks := s.tasks - {exec}, record := Noted(s.record, Completed(exec, ByTask)))
      else s
  }

  /** The locked part of `enqueue`. */
  function Enter(s: State, job: JobId, exec: ExecId): State {
    if exec in s.record.issued || AlreadyRunning(s, job) then s
    else
      s.(queued := s.queued[exec := job], unsent := s.unsent[exec := job],
         record := s.record.(issued := s.record.issued[exec := job]))
  }

  function Send(s: State, exec: ExecId): State {
    if exec in s.unsent then s.(unsent := s.unsent - {exec}, channel := s.channel + [Run(s.unsent[exec], exec)]) else s
  }

  function RequestCancel(s: State, exec: ExecId): State {
    if exec in s.active || exec in s.queued then s.(channel := s.channel + [Cancel(exec)]) else s
  }

  function Clear(s: State): State {
    s.(pending := [], record := s.record.(dropped := s.record.dropped + s.pending))
  }

  /** The worker takes up the message in its hand. */
  function HandleMessage(s: State, message: Message): State {
    match message
    case Run(job, exec) => s.(worker := Claiming(job, exec), queued := s.queued - {exec})
    case Cancel(exec) => HandleCancel(s.(worker := Top), exec)
  }

  function Step(s: State, e: Event): State {
    match e
    case EnqueueEntry(job, exec) => Enter(s, job, exec)
    case EnqueueSend(exec) => Send(s, exec)
    case ClientCancel(exec) => RequestCancel(s, exec)
    case Pause => s.(paused := true)
    case Resume => s.(paused := false)
    case ClearPending => Clear(s)
    case Look => if s.worker.Top? then LookAround(s) else s
    case Wake => if s.worker.Parked? then s.(worker := Top) else s
    case Receive => ReceiveMessage(s)
    case Handle => if s.worker.Holding? then HandleMessage(s, s.worker.message) else s
    case Launch => if s.worker.Claiming? then LaunchRun(s, s.worker.job, s.worker.exec) else s
    case _ => TaskStep(s, e)
  }

  function Steps(s: State, es: seq<Event>): State
    decreases |es|
  {
    if es == [] then s else Step(Steps(s, es[..|es| - 1]), es[|es| - 1])
  }

  datatype QueueError = JobAlreadyRunning | ExecutionNotFound

  /** The queue as the program holds it; `unsent`, `worker` and `tasks` say where its participants
      stand. */
  class JobQueue {
    var channel: seq<Message>
    var unsent: map<ExecId, JobId>
    var active: set<ExecId>
    var running: map<JobId, ExecId>
    var queued: map<ExecId, JobId>
    var cancelled: set<ExecId>
    var tokens: set<ExecId>
    var paused: bool
    var pending: seq<Message>
    var worker: Worker
    var tasks: map<ExecId, Task>
    var record: Record

    function View(): State
      reads this
    {
      State(channel, unsent, active, running, queued, cancelled, tokens, paused, pending, worker, tasks, record)
    }

    constructor ()
      ensures View() == INITIAL
    {
      channel, unsent, active, running, queued := [], map[], {}, map[], map[];
      cancelled, tokens, paused, pending, worker := {}, {}, false, [], Top;
      tasks, record := map[], Record(map[], {}, [], []);
    }

    /** The part of `enqueue` under the lock on `queued`; `exec` is the new execution id. */
    method BeginEnqueue(job: JobId, exec: ExecId) returns (r: Result<ExecId, QueueError>)
      requires exec !in record.issued
      modifies this`queued, this`unsent, this`record
      ensures View() == Step(old(View()), EnqueueEntry(job, exec))
      ensures r == if AlreadyRunning(old(View()), job) then Err(JobAlreadyRunning) else Ok(exec)
      ensures r.Err? <==> job in running || exists e <- old(queued) :: old(queued)[e] == job
      ensures r.Ok? ==> queued == old(queued)[exec := job] && unsent == old(unsent)[exec := job]
    {
      if job in running || exists e <- queued :: queued[e] == job {
        return Err(JobAlreadyRunning);
      }
      queued := queued[exec := job];
      unsent := unsent[exec := job];
      record := record.(issued := record.issued[exec := job]);
      return Ok(exec);
    }

    method FinishEnqueue(exec: ExecId)
      requires exec in unsent
      modifies this`channel, this`unsent
      ensures View() == Step(old(View()), EnqueueSend(exec))
      ensures channel == old(channel) + [Run(old(unsent)[exec], exec)] && exec !in unsent
    {
      channel := channel + [Run(unsent[exec], exec)];
      unsent := unsent - {exec};
    }

    method CancelExecution(exec: ExecId) returns (r: Result<(), QueueError>)
      modifies this`channel
      ensures View() == Step(old(View()), ClientCancel(exec))
      ensures r.Ok? <==> exec in old(active) || exec in old(queued)
      ensures channel == if r.Ok? then old(channel) + [Cancel(exec)] else old(channel)
    {
      if exec !in active && exec !in queued {
        return Err(ExecutionNotFound);
      }
      channel := channel + [Cancel(exec)];
      return Ok(());
    }

    method SetPaused(value: bool)
      modifies this`paused
      ensures View() == Step(old(View()), if value then Pause else Resume)
      ensures paused == value
    {
      paused := value;
    }

    method DropPending()
      modifies this`pending, this`record
      ensures View() == Step(old(View()), ClearPending)
      ensures pending == []
    {
      record := record.(dropped := record.dropped + pending);
      pending := [];
    }

    method ApplyCancel(exec: ExecId)
      modifies this`tokens, this`queued, this`cancelled, this`record
      ensures View() == HandleCancel(old(View()), exec)
      ensures exec in old(tokens) ==> exec !in tokens && exec in record.tripped
      ensures exec !in old(tokens) && exec in old(queued) ==>
                exec in cancelled && exec !in queued && record.log == old(record.log) + [Completed(exec, InQueue)]
      ensures exec !in old(tokens) && exec !in old(queued) ==> View() == old(View())
    {
      if exec in tokens {
        tokens := tokens - {exec};
        record := record.(tripped := record.tripped + {exec});
      } else if exec in queued {
        queued := queued - {exec};
        cancelled := cancelled + {exec};
        record := Noted(record, Completed(exec, InQueue));
      }
    }

    method WorkerLook()
      requires worker.Top?
      modifies this`worker, this`pending
      ensures View() == Step(old(View()), Look)
      ensures paused ==> worker == Parked && pending == old(pending)
      ensures !paused ==> if old(pending) == [] then worker == Waiting && pending == []
                          else exists m :: worker == Holding(m) && old(pending) == pending + [m]
    {
      if paused {
        worker := Parked;
        return;
      }
      if pending != [] {
        worker := Holding(pending[|pending| - 1]);
        pending := pending[..|pending| - 1];
      } else {
        worker := Waiting;
      }
    }

    method WorkerReceive()
      requires channel != [] && (worker.Parked? || worker.Waiting?)
      modifies this`channel, this`worker, this`pending, this`tokens, this`queued, this`cancelled, this`record
      ensures View() == Step(old(View()), Receive)
      ensures channel == old(channel)[1..]
      ensures old(worker).Waiting? ==> worker == Holding(old(channel)[0])
      ensures old(worker).Parked? ==> pending == old(pending) + if old(channel)[0].Run? then [old(channel)[0]] else []
    {
      var message := channel[0];
      channel := channel[1..];
      if worker.Waiting? {
        worker := Holding(message);
        return;
      }
      worker := Top;
      match message
      case Run(_, _) => pending := pending + [message];
      case Cancel(exec) => ApplyCancel(exec);
    }

    method WorkerHandle()
      requires worker.Holding?
      modifies this`worker, this`tokens, this`queued, this`cancelled, this`record
      ensures View() == Step(old(View()), Handle)
      ensures var message := old(worker.message);
              message.Run? ==> worker == Claiming(message.job, message.exec) && queued == old(queued) - {message.exec}
    {
      match worker.message
      case Run(job, exec) =>
        worker := Claiming(job, exec);
        queued := queued - {exec};
      case Cancel(exec) =>
        worker := Top;
        ApplyCancel(exec);
    }

    method WorkerLaunch()
      requires worker.Claiming?
      modifies this`worker, this`cancelled, this`running, this`tokens, this`tasks, this`record
      ensures View() == Step(old(View()), Launch)
      ensures var exec, job := old(worker.exec), old(worker.job);
              if exec in old(cancelled) then exec !in cancelled && record.log == old(record.log) + [Completed(exec, AtClaim)]
              else if job in old(running) then running == old(running) && tasks == old(tasks)
              else && running == old(running)[job := exec] && exec in tokens
                   && exec in tasks && tasks[exec] == Task(job, Working)
    {
      var job, exec := worker.job, worker.exec;
      worker := Top;
      if exec in cancelled {
        cancelled := cancelled - {exec};
        record := Noted(record, Completed(exec, AtClaim));
        return;
      }
      if job in running {
        return;
      }
      running := running[job := exec];
      tokens := tokens + {exec};
      tasks := tasks[exec := Task(job, Working)];
      record := Noted(record, Started(exec));
    }

    method ReportProgress(exec: ExecId)
      requires AtStage(View(), exec, Working)
      modifies this`active, this`record
      ensures View() == Step(old(View()), TaskProgress(exec))
    {
      active := active + {exec};
      record := Noted(record, Progress(exec));
    }

    /** A task is over: it is no longer active. */
    method LeaveActive(exec: ExecId, ok: bool)
      requires AtStage(View(), exec, Working)
      modifies this`active, this`tasks
      ensures View() == Step(old(View()), TaskLeave(exec, ok))
    {
      active := active - {exec};
      tasks := MovedTo(tasks, exec, Leaving(ok));
    }

    /** Its job may run again. */
    method LeaveRunning(exec: ExecId)
      requires IsLeaving(View(), exec)
      modifies this`running, this`tasks
      ensures View() == Step(old(View()), TaskUnlist(exec))
    {
      running := running - {tasks[exec].job};
      tasks := MovedTo(tasks, exec, Unlisted(tasks[exec].stage.ok));
    }

    /** Its token goes. */
    method DropToken(exec: ExecId)
      requires IsUnlisted(View(), exec)
      modifies this`tokens, this`tasks
      ensures View() == Step(old(View()), TaskDetach(exec))
    {
      tokens := tokens - {exec};
      tasks := MovedTo(tasks, exec, if tasks[exec].stage.ok then Ending else Unmarking);
    }

    /** After an error its cancellation mark goes, too. */
    method DropMark(exec: ExecId)
      requires AtStage(View(), exec, Unmarking)
      modifies this`cancelled, this`tasks
      ensures View() == Step(old(View()), TaskUnmark(exec))
    {
      cancelled := cancelled - {exec};
      tasks := MovedTo(tasks, exec, Ending);
    }

    /** At last its Completed event is sent. */
    method ReportTask(exec: ExecId)
      requires AtStage(View(), exec, Ending)
      modifies this`tasks, this`record
      ensures View() == Step(old(View()), TaskReport(exec))
    {
      tasks := tasks - {exec};
      record := Noted(record, Completed(exec, ByTask));
    }
  }
}
