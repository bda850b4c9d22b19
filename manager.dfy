/** The session: what each line does to the task list and what it reports,
    the list object whose methods update it in place, and the read loop. */
module Manager {
  import opened Tasks
  import opened Commands

  /** What one line reports, in place of the console message. */
  datatype Outcome =
    | Added
    | NoTasks
    | Listing(lines: seq<Line>)
    | MarkedComplete
    | Deleted
    | InvalidTaskNumber
    | Rejected(reason: Rejection)
    | Goodbye

  /** The list after one line, and what that line reported. */
  datatype Effect = Effect(tasks: seq<Task>, outcome: Outcome)

  /** A session over a finite input: the final list, one outcome per line read,
      and whether it ended by `exit`. */
  datatype Transcript = Transcript(tasks: seq<Task>, outcomes: seq<Outcome>, exited: bool)

  /** What listing reports: the empty-list notice for no tasks, otherwise one
      line per task, line k showing position k + 1, the k-th task's marker and name. */
  function ListOutcome(s: seq<Task>): (o: Outcome)
    ensures o == NoTasks <==> |s| == 0
    ensures o.Listing? <==> |s| > 0
    ensures o.Listing? ==>
              |o.lines| == |s| && forall k :: 0 <= k < |s| ==> o.lines[k] == Line(k + 1, s[k].completed, s[k].name)
  {
    if |s| == 0 then NoTasks else Listing(Render(s))
  }

  /** Carrying out a well-formed request. */
  function Apply(s: seq<Task>, req: Request): Effect
  {
    match req
    case Add(name) => Effect(s + [Task(name, false)], Added)
    case List => Effect(s, ListOutcome(s))
    case Complete(i) =>
      if IsIndex(s, i) then Effect(MarkedDone(s, i), MarkedComplete) else Effect(s, InvalidTaskNumber)
    case Delete(i) =>
      if IsIndex(s, i) then Effect(Removed(s, i), Deleted) else Effect(s, InvalidTaskNumber)
    case Quit => Effect(s, Goodbye)
  }

  /** Out-of-range indices change nothing and report it; `list` and `exit`
      change nothing; only adding lengthens the list, by the new incomplete
      task at the end, and only a successful delete shortens it. */
  lemma ApplyMeaning(s: seq<Task>, req: Request)
    ensures Apply(s, req).outcome == InvalidTaskNumber <==> (req.Complete? || req.Delete?) && !IsIndex(s, req.index)
    ensures Apply(s, req).outcome == Deleted <==> req.Delete? && IsIndex(s, req.index)
    ensures req.List? || req.Quit? || Apply(s, req).outcome == InvalidTaskNumber ==> Apply(s, req).tasks == s
    ensures |Apply(s, req).tasks| == if req.Add? then |s| + 1 else if Apply(s, req).outcome == Deleted then |s| - 1 else |s|
    ensures req.Add? ==> Apply(s, req).tasks[..|s|] == s && Apply(s, req).tasks[|s|] == Task(req.name, false)
  {
  }

  /** One pass of the read loop on one line. */
  function Interpret(s: seq<Task>, line: string): (e: Effect)
    ensures e.outcome == Goodbye <==> CommandWord(line) == "exit"
    ensures Parse(line).Err? ==> e == Effect(s, Rejected(Parse(line).error))
  {
    match Parse(line)
    case Err(why) => Effect(s, Rejected(why))
    case Ok(req) => Apply(s, req)
  }

  lemma InterpretRequest(s: seq<Task>, line: string, req: Request)
    requires Parse(line) == Ok(req)
    ensures Interpret(s, line) == Apply(s, req)
  {
  }

  function Prepend(os: seq<Outcome>, t: Transcript): Transcript
  {
    Transcript(t.tasks, os + t.outcomes, t.exited)
  }

  /** The read loop over the given lines: it stops after `exit`, or when the
      lines run out. */
  function Replay(s: seq<Task>, lines: seq<string>): (r: Transcript)
    ensures |r.outcomes| <= |lines|
    ensures !r.exited ==> |r.outcomes| == |lines|
    ensures r.exited ==> |r.outcomes| > 0 && r.outcomes[|r.outcomes| - 1] == Goodbye
    decreases |lines|
  {
    if |lines| == 0 then Transcript(s, [], false)
    else
      var e := Interpret(s, lines[0]);
      if e.outcome == Goodbye then Transcript(e.tasks, [Goodbye], true)
      else Prepend([e.outcome], Replay(e.tasks, lines[1..]))
  }

  lemma PrependTwice(a: seq<Outcome>, b: seq<Outcome>, t: Transcript)
    ensures Prepend(a, Prepend(b, t)) == Prepend(a + b, t)
  {
    assert a + (b + t.outcomes) == (a + b) + t.outcomes;
  }

  /** The read loop from line i on: line i is read, then the loop stops or goes on. */
  lemma ReplayFrom(s: seq<Task>, lines: seq<string>, i: int)
    requires 0 <= i < |lines|
    ensures Interpret(s, lines[i]).outcome == Goodbye ==>
              Replay(s, lines[i..]) == Transcript(Interpret(s, lines[i]).tasks, [Goodbye], true)
    ensures Interpret(s, lines[i]).outcome != Goodbye ==>
              Replay(s, lines[i..])
              == Prepend([Interpret(s, lines[i]).outcome], Replay(Interpret(s, lines[i]).tasks, lines[i + 1..]))
  {
    assert lines[i..][0] == lines[i] && lines[i..][1..] == lines[i + 1..];
  }

  /** The task list of one session, updated in place by the four operations. */
  class TaskList {
    var tasks: seq<Task>

    /** A session starts with no tasks. */
    constructor ()
      ensures tasks == []
    {
      tasks := [];
    }

    /** Appends a new, not yet completed task. */
    method AddTask(name: string) returns (o: Outcome)
      modifies this
      ensures tasks == old(tasks) + [Task(name, false)]
      ensures o == Added
    {
      tasks := tasks + [Task(name, false)];
      o := Added;
    }

    /** Marks the task at a 0-based index complete; an index outside the list
        changes nothing. */
    method CompleteTask(index: int) returns (o: Outcome)
      modifies this
      ensures IsIndex(old(tasks), index) ==> tasks == MarkedDone(old(tasks), index) && o == MarkedComplete
      ensures !IsIndex(old(tasks), index) ==> tasks == old(tasks) && o == InvalidTaskNumber
    {
      if index < 0 || index >= |tasks| {
        return InvalidTaskNumber;
      }
      tasks := tasks[index := tasks[index].(completed := true)];
      o := MarkedComplete;
    }

    /** Removes the task at a 0-based index, moving the later ones down; an
        index outside the list changes nothing. */
    method DeleteTask(index: int) returns (o: Outcome)
      modifies this
      ensures IsIndex(old(tasks), index) ==> tasks == Removed(old(tasks), index) && o == Deleted
      ensures !IsIndex(old(tasks), index) ==> tasks == old(tasks) && o == InvalidTaskNumber
    {
      if index < 0 || index >= |tasks| {
        return InvalidTaskNumber;
      }
      tasks := tasks[..index] + tasks[index + 1..];
      o := Deleted;
    }

    /** Lists the tasks: the empty-list notice, or line k showing position
        k + 1, the k-th task's marker and its name. */
    method ListTasks() returns (o: Outcome)
      ensures o == ListOutcome(tasks)
    {
      if |tasks| == 0 {
        return NoTasks;
      }
      var lines: seq<Line> := [];
      for i := 0 to |tasks|
        invariant |lines| == i
        invariant forall k :: 0 <= k < i ==> lines[k] == Line(k + 1, tasks[k].completed, tasks[k].name)
      {
        var task := tasks[i];
        lines := lines + [Line(i + 1, task.completed, task.name)];
      }
      o := Listing(lines);
    }

    /** One pass of the read loop: split the line at its first space, lower-case
        the command word, and dispatch. */
    method Step(line: string) returns (o: Outcome)
      modifies this
      ensures Effect(tasks, o) == Interpret(old(tasks), line)
    {
      var (word, rest) := SplitFirstSpace(line);
      var command := Lower(word);
      if command == "add" {
        if rest.None? {
          return Rejected(MissingName);
        }
        o := AddTask(rest.value);
      } else if command == "list" {
        o := ListTasks();
      } else if command == "complete" {
        if rest.None? {
          return Rejected(MissingNumber);
        }
        var num := ParseDecimal(rest.value);
        if num.None? {
          return Rejected(InvalidNumber);
        }
        o := CompleteTask(num.value - 1);
      } else if command == "delete" {
        if rest.None? {
          return Rejected(MissingNumber);
        }
        var num := ParseDecimal(rest.value);
        if num.None? {
          return Rejected(InvalidNumber);
        }
        o := DeleteTask(num.value - 1);
      } else if command == "exit" {
        o := Goodbye;
      } else {
        o := Rejected(UnknownCommand);
      }
    }

    /** The read loop over the given lines, until `exit` or until the lines run out. */
    method Run(lines: seq<string>) returns (outcomes: seq<Outcome>, exited: bool)
      modifies this
      ensures Transcript(tasks, outcomes, exited) == Replay(old(tasks), lines)
    {
      outcomes, exited := [], false;
      var i := 0;
      while i < |lines| && !exited
        invariant 0 <= i <= |lines|
        invariant exited ==> Replay(old(tasks), lines) == Transcript(tasks, outcomes, true)
        invariant !exited ==> Replay(old(tasks), lines) == Prepend(outcomes, Replay(tasks, lines[i..]))
        decreases |lines| - i
      {
        ReplayFrom(tasks, lines, i);
        var o := Step(lines[i]);
        PrependTwice(outcomes, [o], Replay(tasks, lines[i + 1..]));
        outcomes := outcomes + [o];
        exited := o == Goodbye;
        i := i + 1;
      }
    }
  }
}
