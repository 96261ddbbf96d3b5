/** The task queue kept in the file system (src/flickypedia/fs_queue.py;
 *  src/flickypedia/uploadr/fs_queue.py is the same queue with another
 *  JSON codec and local-time clock, and is modelled by the same class).
 *
 *  A task is a file named after its id in the folder of its state:
 *  waiting, then in progress, then completed or failed. The folders are
 *  maps from file name to the file's contents and modification time. The
 *  clock is a parameter of the methods that record events; a file's
 *  modification time is the number of writes made before it. */
module FsQueue {
  import opened Wrappers
  import opened Dates

  datatype State = Waiting | InProgress | Failed | Completed

  datatype TaskEvent = TaskEvent(time: Timestamp, description: string)

  datatype Task<In, Out> = Task(id: string, events: seq<TaskEvent>, state: State, taskInput: In, taskOutput: Out)

  /** A task file: its contents and its modification time. */
  datatype Stored<In, Out> = Stored(task: Task<In, Out>, mtime: nat)

  type Folder<In, Out> = map<string, Stored<In, Out>>

  /** The four state folders. */
  datatype Folders<In, Out> = Folders(
    waiting: Folder<In, Out>,
    inProgress: Folder<In, Out>,
    failed: Folder<In, Out>,
    completed: Folder<In, Out>)
  {
    /** The folder of a state: `self.base_dir / state`. */
    function Get(s: State): Folder<In, Out> {
      match s
      case Waiting => waiting
      case InProgress => inProgress
      case Failed => failed
      case Completed => completed
    }

    function Set(s: State, f: Folder<In, Out>): (r: Folders<In, Out>)
      ensures r.Get(s) == f && forall s' :: s' != s ==> r.Get(s') == Get(s')
    {
      match s
      case Waiting => this.(waiting := f)
      case InProgress => this.(inProgress := f)
      case Failed => this.(failed := f)
      case Completed => this.(completed := f)
    }
  }

  /** The folders in the order `read_task` searches them. */
  const SearchOrder: seq<State> := [Waiting, InProgress, Failed, Completed]

  /** Setting a folder twice keeps the second. */
  lemma SetTwice<In, Out>(d: Folders<In, Out>, s: State, f: Folder<In, Out>, g: Folder<In, Out>)
    ensures d.Set(s, f).Set(s, g) == d.Set(s, g)
  {
    match s
    case Waiting =>
    case InProgress =>
    case Failed =>
    case Completed =>
  }

  /** What `read_task` finds: the file in the first folder, in search
   *  order, that has one with this name. */
  function Find<In, Out>(d: Folders<In, Out>, id: string): Option<Task<In, Out>> {
    if id in d.waiting then Some(d.waiting[id].task)
    else if id in d.inProgress then Some(d.inProgress[id].task)
    else if id in d.failed then Some(d.failed[id].task)
    else if id in d.completed then Some(d.completed[id].task)
    else None
  }

  /** `write_task` at modification time `mtime`: if the task was found in
   *  another state, the file of that state goes; the file of the task's
   *  state holds the task. */
  function Write<In, Out>(d: Folders<In, Out>, task: Task<In, Out>, mtime: nat): Folders<In, Out> {
    var prior := Find(d, task.id);
    var d1 := if prior.Some? && prior.value.state != task.state
              then d.Set(prior.value.state, d.Get(prior.value.state) - {task.id})
              else d;
    d1.Set(task.state, d1.Get(task.state)[task.id := Stored(task, mtime)])
  }

  /** The task after `record_task_event`. */
  function Recorded<In, Out>(task: Task<In, Out>, state: Option<State>, event: string, now: Timestamp): Task<In, Out> {
    task.(state := if state.Some? then state.value else task.state,
          events := task.events + [TaskEvent(now, event)])
  }

  /** The rename of a claimed task from waiting to in progress. */
  function Claim<In, Out>(d: Folders<In, Out>, id: string): Folders<In, Out>
    requires id in d.waiting
  {
    d.(waiting := d.waiting - {id}, inProgress := d.inProgress[id := d.waiting[id]])
  }

  /** What `process_individual_task` did: the task as it left it, and the
   *  text of the exception it raised, if it raised one. */
  datatype Processed<In, Out> = Processed(task: Task<In, Out>, raised: Option<string>)

  /** The event and state that close the processing of a task. */
  function Finished<In, Out>(p: Processed<In, Out>, now: Timestamp): Task<In, Out> {
    match p.raised
    case Some(exc) => Recorded(p.task, Some(Failed), "Task failed with an exception: " + exc, now)
    case None => Recorded(p.task, Some(Completed), "Task completed without exception", now)
  }

  /** Every file is in the folder of its state, under its id, and no id
   *  is in two folders. */
  predicate Consistent<In, Out>(d: Folders<In, Out>) {
    && Holds(d.waiting, Waiting) && Holds(d.inProgress, InProgress)
    && Holds(d.failed, Failed) && Holds(d.completed, Completed)
    && d.waiting.Keys !! d.inProgress.Keys && d.waiting.Keys !! d.failed.Keys
    && d.waiting.Keys !! d.completed.Keys && d.inProgress.Keys !! d.failed.Keys
    && d.inProgress.Keys !! d.completed.Keys && d.failed.Keys !! d.completed.Keys
  }

  /** Every file of the folder is a task of state `s` named after its id. */
  predicate Holds<In, Out>(f: Folder<In, Out>, s: State) {
    forall id :: id in f ==> f[id].task.state == s && f[id].task.id == id
  }

  /** The id `start_task` gives a task: `task_id or str(uuid.uuid4())`, so
   *  an empty id is replaced too. */
  function NewTaskId(taskId: Option<string>, freshId: string): string {
    if taskId.None? || taskId.value == "" then freshId else taskId.value
  }

  class FilesystemTaskQueue<In, Out> {
    var dirs: Folders<In, Out>
    /** The number of task files written so far. */
    var writes: nat

    constructor()
      ensures dirs == Folders(map[], map[], map[], map[]) && writes == 0
    {
      dirs := Folders(map[], map[], map[], map[]);
      writes := 0;
    }

    /** `read_task`: a ValueError when no folder has the task. */
    method ReadTask(taskId: string) returns (r: Result<Task<In, Out>>)
      ensures Find(dirs, taskId).None? ==> r == Err(ValueError)
      ensures Find(dirs, taskId).Some? ==> r == Ok(Find(dirs, taskId).value)
    {
      for i := 0 to |SearchOrder|
        invariant forall k :: 0 <= k < i ==> taskId !in dirs.Get(SearchOrder[k])
      {
        var folder := dirs.Get(SearchOrder[i]);
        if taskId in folder {
          FindMeaning(dirs, taskId);
          return Ok(folder[taskId].task);
        }
      }
      assert taskId !in dirs.Get(SearchOrder[0]) && taskId !in dirs.Get(SearchOrder[1]);
      assert taskId !in dirs.Get(SearchOrder[2]) && taskId !in dirs.Get(SearchOrder[3]);
      return Err(ValueError);
    }

    /** `write_task`: the temporary file is renamed into the folder of the
     *  prior state and from there into the folder of the new state, or
     *  straight into the folder of the state when that does not change. */
    method WriteTask(task: Task<In, Out>)
      modifies this
      ensures dirs == Write(old(dirs), task, old(writes)) && writes == old(writes) + 1
    {
      var stored := Stored(task, writes);
      var prior := ReadTask(task.id);
      if prior.Ok? && prior.value.state != task.state {
        var priorState := prior.value.state;
        dirs := dirs.Set(priorState, dirs.Get(priorState)[task.id := stored]);
        dirs := dirs.Set(priorState, dirs.Get(priorState) - {task.id});
        assert dirs.Get(priorState) == old(dirs).Get(priorState) - {task.id};
        dirs := dirs.Set(task.state, dirs.Get(task.state)[task.id := stored]);
      } else {
        dirs := dirs.Set(task.state, dirs.Get(task.state)[task.id := stored]);
      }
      writes := writes + 1;
    }

    /** `start_task`: a waiting task with the one event "Task created". */
    method StartTask(taskInput: In, taskOutput: Out, taskId: Option<string>, freshId: string, now: Timestamp)
      returns (id: string)
      modifies this
      ensures id == NewTaskId(taskId, freshId)
      ensures dirs == Write(old(dirs), Task(id, [TaskEvent(now, "Task created")], Waiting, taskInput, taskOutput), old(writes))
      ensures writes == old(writes) + 1
    {
      id := if taskId.None? || taskId.value == "" then freshId else taskId.value;
      WriteTask(Task(id, [TaskEvent(now, "Task created")], Waiting, taskInput, taskOutput));
    }

    /** `record_task_event`; the task, which the caller's dict holds, is
     *  returned as changed. */
    method RecordTaskEvent(task: Task<In, Out>, state: Option<State>, event: string, now: Timestamp)
      returns (updated: Task<In, Out>)
      modifies this
      ensures updated == Recorded(task, state, event, now)
      ensures dirs == Write(old(dirs), updated, old(writes)) && writes == old(writes) + 1
    {
      updated := task;
      if state.Some? {
        updated := updated.(state := state.value);
      }
      updated := updated.(events := updated.events + [TaskEvent(now, event)]);
      WriteTask(updated);
    }

    /** `_next_available_task`: a waiting task modified least recently (the
     *  first such in the directory listing, whose order is not fixed). */
    method NextAvailableTask() returns (r: Option<string>)
      ensures r.None? <==> dirs.waiting == map[]
      ensures r.Some? ==> r.value in dirs.waiting
      ensures r.Some? ==> forall id :: id in dirs.waiting ==> dirs.waiting[r.value].mtime <= dirs.waiting[id].mtime
    {
      var remaining := dirs.waiting.Keys;
      r := None;
      while remaining != {}
        invariant remaining <= dirs.waiting.Keys
        invariant r.None? ==> remaining == dirs.waiting.Keys
        invariant r.Some? ==> r.value in dirs.waiting
        invariant r.Some? ==> forall id :: id in dirs.waiting && id !in remaining ==>
                                dirs.waiting[r.value].mtime <= dirs.waiting[id].mtime
        decreases |remaining|
      {
        var id :| id in remaining;
        if r.None? || dirs.waiting[id].mtime < dirs.waiting[r.value].mtime {
          r := Some(id);
        }
        remaining := remaining - {id};
      }
    }

    /** `process_single_task`, with `process_individual_task` as the
     *  function `process`; `claimed` is the task taken from the waiting
     *  folder, and the result is the id of the task as processing left
     *  it. */
    method ProcessSingleTask(process: Task<In, Out> -> Processed<In, Out>, startedAt: Timestamp, finishedAt: Timestamp)
      returns (r: Option<string>, ghost claimed: Option<string>)
      modifies this
      ensures old(dirs).waiting == map[] <==> r.None?
      ensures r.None? ==> claimed.None? && dirs == old(dirs) && writes == old(writes)
      ensures r.Some? ==> claimed.Some? && claimed.value in old(dirs).waiting
      ensures r.Some? ==> forall id :: id in old(dirs).waiting ==>
        old(dirs).waiting[claimed.value].mtime <= old(dirs).waiting[id].mtime
      ensures r.Some? ==>
        var started := Recorded(old(dirs).waiting[claimed.value].task, Some(InProgress), "Task started", startedAt);
        var p := process(started);
        && r == Some(p.task.id)
        && dirs == Write(Write(Claim(old(dirs), claimed.value), started, old(writes)), Finished(p, finishedAt), old(writes) + 1)
        && writes == old(writes) + 2
    {
      claimed := None;
      var thisTaskId := NextAvailableTask();
      if thisTaskId.None? {
        return None, None;
      }
      var id := thisTaskId.value;
      claimed := Some(id);
      dirs := dirs.(waiting := dirs.waiting - {id}, inProgress := dirs.inProgress[id := dirs.waiting[id]]);
      var task := ReadTask(id);
      var started := RecordTaskEvent(task.value, Some(InProgress), "Task started", startedAt);
      var p := process(started);
      var finished;
      if p.raised.Some? {
        finished := RecordTaskEvent(p.task, Some(Failed), "Task failed with an exception: " + p.raised.value, finishedAt);
      } else {
        finished := RecordTaskEvent(p.task, Some(Completed), "Task completed without exception", finishedAt);
      }
      return Some(finished.id), claimed;
    }
  }

  // ---------------------------------------------------------------------
  // What the queue promises
  // ---------------------------------------------------------------------

  /** `read_task` finds a task iff some folder has it, and then it is the
   *  one in the first such folder in search order. */
  lemma FindMeaning<In, Out>(d: Folders<In, Out>, id: string)
    ensures Find(d, id).None? <==> forall s :: id !in d.Get(s)
    ensures Find(d, id).Some? ==>
      exists k :: (&& 0 <= k < |SearchOrder| && id in d.Get(SearchOrder[k])
                   && Find(d, id).value == d.Get(SearchOrder[k])[id].task
                   && forall j :: 0 <= j < k ==> id !in d.Get(SearchOrder[j]))
  {
    if Find(d, id).None? {
      forall s ensures id !in d.Get(s) {
        match s
        case Waiting =>
        case InProgress =>
        case Failed =>
        case Completed =>
      }
    } else if id in d.waiting {
      assert SearchOrder[0] == Waiting && id in d.Get(Waiting);
    } else if id in d.inProgress {
      assert SearchOrder[1] == InProgress && id !in d.Get(SearchOrder[0]) && id in d.Get(InProgress);
    } else if id in d.failed {
      assert SearchOrder[2] == Failed && id in d.Get(Failed);
      assert id !in d.Get(SearchOrder[0]) && id !in d.Get(SearchOrder[1]);
    } else {
      assert SearchOrder[3] == Completed && id in d.Get(Completed);
      assert id !in d.Get(SearchOrder[0]) && id !in d.Get(SearchOrder[1]) && id !in d.Get(SearchOrder[2]);
    }
  }

  /** In consistent folders a file is in the folder of its task's state
   *  and in no other, and `read_task` finds it there. */
  lemma FindConsistent<In, Out>(d: Folders<In, Out>, s: State, id: string)
    requires Consistent(d) && id in d.Get(s)
    ensures Find(d, id) == Some(d.Get(s)[id].task) && d.Get(s)[id].task.state == s
    ensures forall s' :: s' != s ==> id !in d.Get(s')
  {
    match s
    case Waiting =>
    case InProgress => assert id !in d.waiting;
    case Failed => assert id !in d.waiting && id !in d.inProgress;
    case Completed => assert id !in d.waiting && id !in d.inProgress && id !in d.failed;
  }

  /** Removing a file keeps the folders consistent. */
  lemma RemoveKeepsConsistent<In, Out>(d: Folders<In, Out>, s: State, id: string)
    requires Consistent(d)
    ensures Consistent(d.Set(s, d.Get(s) - {id}))
  {
    match s
    case Waiting =>
    case InProgress =>
    case Failed =>
    case Completed =>
  }

  /** Storing a task in the folder of its state keeps the folders
   *  consistent when no other folder has its id. */
  lemma InsertKeepsConsistent<In, Out>(d: Folders<In, Out>, task: Task<In, Out>, mtime: nat)
    requires Consistent(d) && forall s :: s != task.state ==> task.id !in d.Get(s)
    ensures Consistent(d.Set(task.state, d.Get(task.state)[task.id := Stored(task, mtime)]))
  {
    assert forall s :: s != task.state ==> task.id !in d.Get(s);
    match task.state
    case Waiting =>
      assert task.id !in d.Get(InProgress) && task.id !in d.Get(Failed) && task.id !in d.Get(Completed);
    case InProgress =>
      assert task.id !in d.Get(Waiting) && task.id !in d.Get(Failed) && task.id !in d.Get(Completed);
    case Failed =>
      assert task.id !in d.Get(Waiting) && task.id !in d.Get(InProgress) && task.id !in d.Get(Completed);
    case Completed =>
      assert task.id !in d.Get(Waiting) && task.id !in d.Get(InProgress) && task.id !in d.Get(Failed);
  }

  /** A write changes no file of another task. */
  lemma WriteKeepsOthers<In, Out>(d: Folders<In, Out>, task: Task<In, Out>, mtime: nat, s: State)
    ensures Write(d, task, mtime).Get(s) - {task.id} == d.Get(s) - {task.id}
  {
  }

  /** After a write the task is in the folder of its state and in no
   *  other, and the folders stay consistent. */
  lemma {:induction false} WritePlacesTask<In, Out>(d: Folders<In, Out>, task: Task<In, Out>, mtime: nat)
    requires Consistent(d)
    ensures var d' := Write(d, task, mtime);
      && task.id in d'.Get(task.state) && d'.Get(task.state)[task.id] == Stored(task, mtime)
      && (forall s :: s != task.state ==> task.id !in d'.Get(s))
      && Consistent(d')
  {
    var prior := Find(d, task.id);
    var d1 := if prior.Some? && prior.value.state != task.state
              then d.Set(prior.value.state, d.Get(prior.value.state) - {task.id})
              else d;
    assert Consistent(d1) by {
      if prior.Some? && prior.value.state != task.state {
        RemoveKeepsConsistent(d, prior.value.state, task.id);
      }
    }
    assert forall s :: s != task.state ==> task.id !in d1.Get(s) by {
      if prior.None? {
        FindMeaning(d, task.id);
      } else {
        var k :| 0 <= k < |SearchOrder| && task.id in d.Get(SearchOrder[k]) by { FindMeaning(d, task.id); }
        FindConsistent(d, SearchOrder[k], task.id);
      }
    }
    InsertKeepsConsistent(d1, task, mtime);
  }

  /** The folders `d'` are consistent and hold `task` in the folder of its
   *  state and in no other; every other file is as in `d`. */
  ghost predicate HoldsTask<In, Out>(d': Folders<In, Out>, d: Folders<In, Out>, task: Task<In, Out>) {
    && Consistent(d')
    && task.id in d'.Get(task.state) && d'.Get(task.state)[task.id].task == task
    && (forall s :: s != task.state ==> task.id !in d'.Get(s))
    && (forall s :: d'.Get(s) - {task.id} == d.Get(s) - {task.id})
  }

  /** A write over consistent folders holds the task written. */
  lemma WriteHoldsTask<In, Out>(d: Folders<In, Out>, task: Task<In, Out>, mtime: nat)
    requires Consistent(d)
    ensures HoldsTask(Write(d, task, mtime), d, task)
  {
    WritePlacesTask(d, task, mtime);
    forall s ensures Write(d, task, mtime).Get(s) - {task.id} == d.Get(s) - {task.id} {
      WriteKeepsOthers(d, task, mtime, s);
    }
  }

  /** Writing a task again, in the same state, keeps the folders holding
   *  it, now as written. */
  lemma RewriteHoldsTask<In, Out>(d': Folders<In, Out>, d: Folders<In, Out>, task: Task<In, Out>,
                                  task': Task<In, Out>, mtime: nat)
    requires HoldsTask(d', d, task) && task'.id == task.id && task'.state == task.state
    ensures HoldsTask(Write(d', task', mtime), d, task')
  {
    WriteHoldsTask(d', task', mtime);
    forall s ensures Write(d', task', mtime).Get(s) - {task.id} == d.Get(s) - {task.id} {
      assert d'.Get(s) - {task.id} == d.Get(s) - {task.id};
    }
  }

  /** A claimed task, once "Task started" is recorded, is in progress only:
   *  the rename and the write together keep the folders consistent. */
  lemma StartKeepsConsistent<In, Out>(d: Folders<In, Out>, id: string, now: Timestamp, mtime: nat)
    requires Consistent(d) && id in d.waiting
    ensures var started := Recorded(d.waiting[id].task, Some(InProgress), "Task started", now);
      var d' := Write(Claim(d, id), started, mtime);
      && Consistent(d')
      && id in d'.inProgress && d'.inProgress[id].task == started
      && id !in d'.waiting && id !in d'.failed && id !in d'.completed
  {
    var started := Recorded(d.waiting[id].task, Some(InProgress), "Task started", now);
    FindConsistent(d, Waiting, id);
    var d1 := d.Set(Waiting, d.waiting - {id});
    RemoveKeepsConsistent(d, Waiting, id);
    assert Find(Claim(d, id), id) == Some(d.waiting[id].task);
    assert Write(Claim(d, id), started, mtime) == d1.Set(InProgress, d1.inProgress[id := Stored(started, mtime)]);
    InsertKeepsConsistent(d1, started, mtime);
  }

  /** A processed task that keeps its id ends in completed when processing
   *  did not raise and in failed when it did, and nowhere else; its
   *  events are those processing left, then the closing event, and its
   *  output is what processing left. */
  lemma ProcessedTaskEnds<In, Out>(d: Folders<In, Out>, id: string, p: Processed<In, Out>, now: Timestamp, mtime: nat)
    requires Consistent(d) && id in d.inProgress && p.task.id == id
    ensures var d' := Write(d, Finished(p, now), mtime);
      var final := if p.raised.None? then Completed else Failed;
      var closing := if p.raised.None? then "Task completed without exception"
                     else "Task failed with an exception: " + p.raised.value;
      && Consistent(d')
      && id in d'.Get(final)
      && d'.Get(final)[id].task.events == p.task.events + [TaskEvent(now, closing)]
      && d'.Get(final)[id].task.taskOutput == p.task.taskOutput
      && (forall s :: s != final ==> id !in d'.Get(s))
  {
    WritePlacesTask(d, Finished(p, now), mtime);
  }
  /** One round of `process_single_task` on consistent folders, with a
   *  processor that keeps the task's id, leaves them consistent with the
   *  claimed task in completed or failed only. */
  lemma ProcessKeepsConsistent<In, Out>(d: Folders<In, Out>, id: string, p: Processed<In, Out>,
                                        startedAt: Timestamp, finishedAt: Timestamp, mtime: nat)
    requires Consistent(d) && id in d.waiting && p.task.id == id
    ensures var started := Recorded(d.waiting[id].task, Some(InProgress), "Task started", startedAt);
      var d' := Write(Write(Claim(d, id), started, mtime), Finished(p, finishedAt), mtime + 1);
      var final := if p.raised.None? then Completed else Failed;
      && Consistent(d') && id in d'.Get(final)
      && forall s :: s != final ==> id !in d'.Get(s)
  {
    StartKeepsConsistent(d, id, startedAt, mtime);
    var started := Recorded(d.waiting[id].task, Some(InProgress), "Task started", startedAt);
    ProcessedTaskEnds(Write(Claim(d, id), started, mtime), id, p, finishedAt, mtime + 1);
  }

  /** The events of a task created, started and processed successfully by
   *  a processor that leaves the events alone. */
  lemma SuccessfulEvents<In, Out>(created: Task<In, Out>, startedAt: Timestamp, finishedAt: Timestamp, p: Processed<In, Out>)
    requires |created.events| == 1 && created.events[0].description == "Task created"
    requires p.task.events == Recorded(created, Some(InProgress), "Task started", startedAt).events
    requires p.raised.None?
    ensures var events := Finished(p, finishedAt).events;
      |events| == 3 && events[0].description == "Task created" && events[1].description == "Task started"
      && events[2].description == "Task completed without exception"
  {
  }

  /** The events of a task whose processing raised `exc`; the output is
   *  what processing left. */
  lemma FailedEvents<In, Out>(created: Task<In, Out>, startedAt: Timestamp, finishedAt: Timestamp, p: Processed<In, Out>, exc: string)
    requires |created.events| == 1 && created.events[0].description == "Task created"
    requires p.task.events == Recorded(created, Some(InProgress), "Task started", startedAt).events
    requires p.raised == Some(exc)
    ensures var t := Finished(p, finishedAt);
      |t.events| == 3 && t.events[0].description == "Task created" && t.events[1].description == "Task started"
      && t.events[2].description == "Task failed with an exception: " + exc
      && t.state == Failed && t.taskOutput == p.task.taskOutput
  {
  }
}
