/** What a session guarantees over whole input lines and sequences of lines. */
module SessionProperties {
  import opened Tasks
  import opened Commands
  import opened Manager

  /** `list`, `exit`, an unknown command and every rejected line leave the list as it was. */
  lemma ReadOnlyLinesChangeNothing(s: seq<Task>, line: string)
    requires Parse(line).Err? || Parse(line) == Ok(List) || Parse(line) == Ok(Quit)
    ensures Interpret(s, line).tasks == s
    ensures Parse(line).Err? ==> Interpret(s, line).outcome == Rejected(Parse(line).error)
    ensures Parse(line) == Ok(List) ==> Interpret(s, line).outcome == ListOutcome(s)
    ensures Parse(line) == Ok(Quit) ==> Interpret(s, line).outcome == Goodbye
  {
  }

  /** An empty line is an unknown command and changes nothing. This is also
      what every further read yields once the input has ended. */
  lemma EmptyLineIsUnknown(s: seq<Task>)
    ensures Interpret(s, "") == Effect(s, Rejected(UnknownCommand))
  {
  }

  /** `add` with a name appends exactly one incomplete task with that name. */
  lemma AddLineAppends(s: seq<Task>, word: string, name: string)
    requires ' ' !in word && Lower(word) == "add"
    ensures Interpret(s, word + " " + name) == Effect(s + [Task(name, false)], Added)
  {
    ParseAddTakesRemainder(word, name);
    InterpretRequest(s, word + " " + name, Add(name));
  }

  /** The line `add ` (a single space after the word) adds a task with an empty name. */
  lemma AddWithEmptyName(s: seq<Task>)
    ensures Interpret(s, "add ") == Effect(s + [Task("", false)], Added)
  {
    assert "add " == "add" + " " + "";
    AddLineAppends(s, "add", "");
  }

  /** `complete n` or `delete n` with n outside 1..|s| reports an invalid task
      number and leaves the list as it was. */
  lemma OutOfRangePositionChangesNothing(s: seq<Task>, word: string, rest: string, n: int)
    requires ' ' !in word && (Lower(word) == "complete" || Lower(word) == "delete")
    requires ParseDecimal(rest) == Some(n)
    requires n <= 0 || n > |s|
    ensures Interpret(s, word + " " + rest) == Effect(s, InvalidTaskNumber)
  {
    ParsePositionIsOneBased(word, rest, n);
    if Lower(word) == "complete" {
      InterpretRequest(s, word + " " + rest, Complete(n - 1));
    } else {
      InterpretRequest(s, word + " " + rest, Delete(n - 1));
    }
  }

  /** `complete n` with n in 1..|s| marks the n-th task as shown by the listing. */
  lemma CompletePositionMarks(s: seq<Task>, word: string, rest: string, n: int)
    requires ' ' !in word && Lower(word) == "complete"
    requires ParseDecimal(rest) == Some(n)
    requires 1 <= n <= |s|
    ensures Interpret(s, word + " " + rest) == Effect(MarkedDone(s, n - 1), MarkedComplete)
    ensures Render(MarkedDone(s, n - 1))[n - 1] == Line(n, true, s[n - 1].name)
  {
    ParsePositionIsOneBased(word, rest, n);
    InterpretRequest(s, word + " " + rest, Complete(n - 1));
  }

  /** `delete n` with n in 1..|s| removes the n-th task as shown by the listing;
      the list is one shorter. */
  lemma DeletePositionRemoves(s: seq<Task>, word: string, rest: string, n: int)
    requires ' ' !in word && Lower(word) == "delete"
    requires ParseDecimal(rest) == Some(n)
    requires 1 <= n <= |s|
    ensures Interpret(s, word + " " + rest) == Effect(Removed(s, n - 1), Deleted)
    ensures |Interpret(s, word + " " + rest).tasks| == |s| - 1
  {
    ParsePositionIsOneBased(word, rest, n);
    InterpretRequest(s, word + " " + rest, Delete(n - 1));
  }

  /** Repeating a `complete` line gives the same list and the same report as
      running it once. */
  lemma CompleteIsIdempotent(s: seq<Task>, line: string)
    requires Parse(line).Ok? && Parse(line).value.Complete?
    ensures Interpret(Interpret(s, line).tasks, line) == Interpret(s, line)
  {
    var i := Parse(line).value.index;
    if IsIndex(s, i) {
      MarkedDoneIdempotent(s, i);
    }
  }

  // ---------------------------------------------------------------------------
  // Sessions of several lines
  // ---------------------------------------------------------------------------

  /** A line that asks to end the session. */
  predicate IsExit(line: string)
  {
    CommandWord(line) == "exit"
  }

  /** An exit line exists in a list whose first line is not one exactly when
      it exists among the later lines. */
  lemma ExitInTail(lines: seq<string>)
    requires |lines| > 0 && !IsExit(lines[0])
    ensures (exists k :: 0 <= k < |lines| && IsExit(lines[k]))
        <==> (exists k :: 0 <= k < |lines| - 1 && IsExit(lines[1..][k]))
  {
    if exists k :: 0 <= k < |lines| && IsExit(lines[k]) {
      var j :| 0 <= j < |lines| && IsExit(lines[j]);
      assert lines[1..][j - 1] == lines[j];
    }
    if exists k :: 0 <= k < |lines| - 1 && IsExit(lines[1..][k]) {
      var j :| 0 <= j < |lines| - 1 && IsExit(lines[1..][j]);
      assert lines[1..][j] == lines[j + 1];
    }
  }

  /** No exit among the first m later lines and none first: none among the first m + 1. */
  lemma NoExitBefore(lines: seq<string>, m: int)
    requires 0 <= m < |lines| && !IsExit(lines[0])
    requires forall k :: 0 <= k < m ==> !IsExit(lines[1..][k])
    ensures forall k :: 0 <= k < m + 1 ==> !IsExit(lines[k])
  {
    forall k | 1 <= k < m + 1 ensures !IsExit(lines[k]) {
      assert lines[1..][k - 1] == lines[k];
    }
  }

  /** The session ends by `exit` exactly when some line asks to exit, and then
      it stops right after the first such line: every earlier line is read and
      none of them is an exit. */
  lemma {:induction false} OnlyExitEndsSession(s: seq<Task>, lines: seq<string>)
    ensures Replay(s, lines).exited <==> exists k :: 0 <= k < |lines| && IsExit(lines[k])
    ensures Replay(s, lines).exited ==> IsExit(lines[|Replay(s, lines).outcomes| - 1])
    ensures forall k :: 0 <= k < |Replay(s, lines).outcomes| - 1 ==> !IsExit(lines[k])
    decreases |lines|
  {
    if |lines| > 0 {
      var e := Interpret(s, lines[0]);
      if e.outcome != Goodbye {
        var r := Replay(e.tasks, lines[1..]);
        OnlyExitEndsSession(e.tasks, lines[1..]);
        assert Replay(s, lines) == Prepend([e.outcome], r);
        ExitInTail(lines);
        NoExitBefore(lines, if |r.outcomes| > 0 then |r.outcomes| - 1 else 0);
        if r.exited {
          assert lines[1..][|r.outcomes| - 1] == lines[|r.outcomes|];
        }
      } else {
        assert IsExit(lines[0]);
      }
    }
  }

  /** The lines `add n` for each name, in order. */
  function AddLines(names: seq<string>): (r: seq<string>)
    ensures |r| == |names|
    decreases |names|
  {
    if |names| == 0 then [] else ["add " + names[0]] + AddLines(names[1..])
  }

  /** The tasks those lines create, in order. */
  function FreshTasks(names: seq<string>): (r: seq<Task>)
    ensures |r| == |names|
    decreases |names|
  {
    if |names| == 0 then [] else [Task(names[0], false)] + FreshTasks(names[1..])
  }

  lemma {:induction false} FreshTaskAt(names: seq<string>, k: int)
    requires 0 <= k < |names|
    ensures FreshTasks(names)[k] == Task(names[k], false)
    decreases k
  {
    if k > 0 {
      FreshTaskAt(names[1..], k - 1);
    }
  }

  function Repeat(o: Outcome, n: nat): (r: seq<Outcome>)
    ensures |r| == n
    decreases n
  {
    if n == 0 then [] else [o] + Repeat(o, n - 1)
  }

  /** Reading one line that does not end the session, then the rest. */
  lemma ReplayStep(s: seq<Task>, line: string, rest: seq<string>)
    requires Interpret(s, line).outcome != Goodbye
    ensures Replay(s, [line] + rest)
         == Prepend([Interpret(s, line).outcome], Replay(Interpret(s, line).tasks, rest))
  {
    var lines := [line] + rest;
    assert lines[0] == line && lines[1..] == rest;
  }

  /** Reading one `add` line, then the rest. */
  lemma AddLineStep(s: seq<Task>, name: string, rest: seq<string>)
    ensures Replay(s, ["add " + name] + rest) == Prepend([Added], Replay(s + [Task(name, false)], rest))
  {
    assert "add " + name == "add" + " " + name;
    AddLineAppends(s, "add", name);
    ReplayStep(s, "add " + name, rest);
  }

  lemma AddLinesFirst(names: seq<string>, rest: seq<string>)
    requires |names| > 0
    ensures AddLines(names) + rest == ["add " + names[0]] + (AddLines(names[1..]) + rest)
  {
  }

  lemma AppendAssociates(a: seq<Task>, b: seq<Task>, c: seq<Task>)
    ensures a + (b + c) == (a + b) + c
  {
  }

  lemma FreshTasksFirst(s: seq<Task>, names: seq<string>)
    requires |names| > 0
    ensures s + FreshTasks(names) == (s + [Task(names[0], false)]) + FreshTasks(names[1..])
  {
    assert FreshTasks(names) == [Task(names[0], false)] + FreshTasks(names[1..]);
    AppendAssociates(s, [Task(names[0], false)], FreshTasks(names[1..]));
  }

  /** A run of `add` lines reports Added once per line and appends the tasks
      in the order they were given, after which the session goes on as usual. */
  lemma {:induction false} ReplayAdds(s: seq<Task>, names: seq<string>, rest: seq<string>)
    ensures Replay(s, AddLines(names) + rest)
         == Prepend(Repeat(Added, |names|), Replay(s + FreshTasks(names), rest))
    decreases |names|
  {
    if |names| == 0 {
      assert AddLines(names) + rest == rest;
      assert s + FreshTasks(names) == s;
      assert [] + Replay(s, rest).outcomes == Replay(s, rest).outcomes;
    } else {
      var t := s + [Task(names[0], false)];
      var later := AddLines(names[1..]) + rest;
      var done := Replay(s + FreshTasks(names), rest);
      AddLinesFirst(names, rest);
      FreshTasksFirst(s, names);
      AddLineStep(s, names[0], later);
      ReplayAdds(t, names[1..], rest);
      PrependTwice([Added], Repeat(Added, |names| - 1), done);
    }
  }

  lemma ReplayAddsFromEmpty(names: seq<string>, rest: seq<string>)
    ensures Replay([], AddLines(names) + rest)
         == Prepend(Repeat(Added, |names|), Replay(FreshTasks(names), rest))
  {
    ReplayAdds([], names, rest);
    assert [] + FreshTasks(names) == FreshTasks(names);
  }

  /** Reading a `list` line as the last line. */
  lemma ListLineLast(s: seq<Task>)
    ensures Replay(s, ["list"]) == Transcript(s, [ListOutcome(s)], false)
  {
    assert Parse("list") == Ok(List);
    ReplayStep(s, "list", []);
  }

  /** Starting from an empty list, adding names and then listing reports one
      Added per name, then a listing that shows the k-th name at position k + 1
      with the "not done" marker. */
  lemma ListShowsAddsInOrder(names: seq<string>, k: int)
    requires 0 <= k < |names|
    ensures Replay([], AddLines(names) + ["list"]).outcomes
         == Repeat(Added, |names|) + [Listing(Render(FreshTasks(names)))]
    ensures Render(FreshTasks(names))[k] == Line(k + 1, false, names[k])
  {
    ReplayAddsFromEmpty(names, ["list"]);
    ListLineLast(FreshTasks(names));
    FreshTaskAt(names, k);
  }

  /** Any line whose command word is `list` ("list", "LIST", "list all")
      reports the listing and changes nothing. */
  lemma ListLine(s: seq<Task>, line: string)
    requires CommandWord(line) == "list"
    ensures Interpret(s, line) == Effect(s, ListOutcome(s))
  {
  }

  lemma KeywordIsLower(kw: string)
    requires IsKeyword(kw)
    ensures Lower(kw) == kw
  {
    LowerMatchesKeyword(kw, kw);
  }

  lemma PositionOne()
    ensures ParseDecimal("1") == Some(1)
  {
    assert IsDigit("1"[0]);
  }

  lemma AddBuyMilkParses()
    ensures Parse("add" + " " + "Buy milk") == Ok(Add("Buy milk"))
  {
    KeywordIsLower("add");
    ParseAddTakesRemainder("add", "Buy milk");
  }

  lemma AddBuyMilkLiteral()
    ensures Parse("add Buy milk") == Ok(Add("Buy milk"))
  {
    AddBuyMilkParses();
    assert "add Buy milk" == "add" + " " + "Buy milk";
  }

  lemma AddBuyMilkLine()
    ensures Interpret([], "add Buy milk") == Effect([Task("Buy milk", false)], Added)
  {
    AddBuyMilkLiteral();
    InterpretRequest([], "add Buy milk", Add("Buy milk"));
  }

  lemma ListWord()
    ensures CommandWord("list") == "list"
  {
    KeywordIsLower("list");
    assert SplitFirstSpace("list").0 == "list";
  }

  lemma ListOneLine(t: Task)
    ensures Interpret([t], "list") == Effect([t], Listing([Line(1, t.completed, t.name)]))
  {
    ListWord();
    ListLine([t], "list");
  }

  lemma PositionOneParses(word: string)
    requires word == "complete" || word == "delete"
    ensures word == "complete" ==> Parse(word + " " + "1") == Ok(Complete(0))
    ensures word == "delete" ==> Parse(word + " " + "1") == Ok(Delete(0))
  {
    KeywordIsLower(word);
    PositionOne();
    ParsePositionIsOneBased(word, "1", 1);
  }

  lemma CompleteOneParses()
    ensures Parse("complete 1") == Ok(Complete(0))
  {
    PositionOneParses("complete");
    assert "complete 1" == "complete" + " " + "1";
  }

  lemma DeleteOneParses()
    ensures Parse("delete 1") == Ok(Delete(0))
  {
    PositionOneParses("delete");
    assert "delete 1" == "delete" + " " + "1";
  }

  lemma CompleteFirstOfOne(t: Task, line: string)
    requires Parse(line) == Ok(Complete(0))
    ensures Interpret([t], line) == Effect([t.(completed := true)], MarkedComplete)
  {
    InterpretRequest([t], line, Complete(0));
    assert MarkedDone([t], 0) == [t.(completed := true)];
  }

  lemma DeleteFirstOfTwo(t: Task, u: Task, line: string)
    requires Parse(line) == Ok(Delete(0))
    ensures Interpret([t, u], line) == Effect([u], Deleted)
  {
    InterpretRequest([t, u], line, Delete(0));
    assert Removed([t, u], 0) == [u];
  }

  lemma CompleteOneLine(t: Task)
    ensures Interpret([t], "complete 1") == Effect([t.(completed := true)], MarkedComplete)
  {
    CompleteOneParses();
    CompleteFirstOfOne(t, "complete 1");
  }

  lemma DeleteOneLine(t: Task, u: Task)
    ensures Interpret([t, u], "delete 1") == Effect([u], Deleted)
  {
    DeleteOneParses();
    DeleteFirstOfTwo(t, u, "delete 1");
  }

  /** The lines "add Buy milk", "list", "complete 1", "list": the task is listed
      first with the "not done" marker, then with the "done" marker. */
  lemma BuyMilkSession()
    ensures Interpret([], "add Buy milk") == Effect([Task("Buy milk", false)], Added)
    ensures Interpret([Task("Buy milk", false)], "list")
         == Effect([Task("Buy milk", false)], Listing([Line(1, false, "Buy milk")]))
    ensures Interpret([Task("Buy milk", false)], "complete 1") == Effect([Task("Buy milk", true)], MarkedComplete)
    ensures Interpret([Task("Buy milk", true)], "list")
         == Effect([Task("Buy milk", true)], Listing([Line(1, true, "Buy milk")]))
  {
    AddBuyMilkLine();
    ListOneLine(Task("Buy milk", false));
    CompleteOneLine(Task("Buy milk", false));
    ListOneLine(Task("Buy milk", true));
  }

  /** After "add A" and "add B", the line "delete 1" removes A, and "list" shows
      B alone at position 1. */
  lemma DeleteShiftsSession()
    ensures Interpret([Task("A", false), Task("B", false)], "delete 1") == Effect([Task("B", false)], Deleted)
    ensures Interpret([Task("B", false)], "list") == Effect([Task("B", false)], Listing([Line(1, false, "B")]))
  {
    DeleteOneLine(Task("A", false), Task("B", false));
    ListOneLine(Task("B", false));
  }


  lemma CompleteAbcParses()
    ensures Parse("complete" + " " + "abc") == Err(InvalidNumber)
  {
    KeywordIsLower("complete");
    assert !IsDecimal("abc") by { assert !IsDigit("abc"[0]); }
    ParsePositionNotNumber("complete", "abc");
  }

  /** `complete abc` is rejected as an invalid number. */
  lemma CompleteWithWordRejected()
    ensures Parse("complete abc") == Err(InvalidNumber)
  {
    CompleteAbcParses();
    assert "complete abc" == "complete" + " " + "abc";
  }

  /** `foo` is rejected as an unknown command. */
  lemma UnknownWordRejected()
    ensures Parse("foo") == Err(UnknownCommand)
  {
    assert Lower("foo") == "foo";
  }
}
