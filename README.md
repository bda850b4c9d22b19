# GO-todolist in Dafny

This is a model of a small interactive to-do list manager written in Go (`main.go`). The program keeps one list of tasks in memory. Each task has a name and a completion flag. The program reads commands one line at a time:

- `add <name>` appends a task.
- `list` shows the tasks numbered from 1, each with a done or not-done marker.
- `complete <n>` marks task n as done.
- `delete <n>` removes task n, and the later tasks move down one place.
- `exit` ends the session.

Any other command word is answered with an unknown-command notice. The command word is matched in either case. A line is split at its first single space: `add` takes everything after that space as the name, spaces included. A position n typed by the user addresses index n - 1. A position that is missing, is not a number, or lies outside the list changes nothing.

The model has four modules:

- `Tasks` (`tasks.dfy`) holds the task records. It gives the value-level meaning of marking, removing and listing: `MarkedDone`, `Removed`, `Render`.
- `Commands` (`commands.dfy`) reads one input line. It splits at the first space (`SplitFirstSpace`), lower-cases the command word (`Lower`) and parses a decimal position (`ParseDecimal`). `Parse` then turns the line into a `Request`, or into the `Rejection` that explains why it was turned away.
- `Manager` (`manager.dfy`) holds the session.
  - The class `TaskList` keeps the task list as a field that its methods `AddTask`, `CompleteTask`, `DeleteTask` and `ListTasks` update in place. Its method `Step` is one pass of the read loop, and `Run` is the loop itself.
  - Each method is proved against a function. `Interpret` describes one line, and `Replay` describes a whole input.
  - The console messages are replaced by an `Outcome` value that names the message printed.
- `SessionProperties` (`properties.dfy`) states what a session promises, in terms of `Interpret` and `Replay`. These are the properties of whole command lines, and of sequences of lines, together with a few worked sessions.

## Model

| member | source | states |
|---|---|---|
| Tasks.MarkedDone | main.go:39-46 | marking index i keeps the length and every name; task i becomes completed; every other task is unchanged |
| Tasks.Removed | main.go:48-55 | removing index i shortens the list by one; tasks before i stay; later tasks move down one place; the multiset of tasks loses exactly the removed one |
| Tasks.MarkedDoneIdempotent | main.go:44 | marking the same task twice gives the same list as marking it once |
| Tasks.Render | main.go:23-30 | the listing has one line per task, and line k shows position k + 1, the k-th task's marker and its name |
| Tasks.RenderAfterRemoval | main.go:53 | after a removal at i, listing lines before i are unchanged and every later line is the old next line renumbered one down |
| Tasks.RenderAfterMarking | main.go:44 | after marking i, only line i of the listing changes, and it now shows the done marker |
| Commands.SplitFirstSpace | main.go:67 | without a space the line is one part; otherwise the first part has no space and the line is first part + " " + remainder |
| Commands.SplitAtSpace | main.go:67 | a space-free word, a space and any remainder split back into exactly that word and that remainder |
| Commands.Lower | main.go:68 | lower-casing keeps the length and lower-cases each character |
| Commands.LowerMatchesKeyword | main.go:68-70 | the lower-cased word equals a keyword exactly when each of its characters is that keyword letter, its ASCII capital, or the one other character that lower-cases to it (U+0130 for `i`, U+212A for `k`) |
| Commands.CommandWordMeaning | main.go:67-68 | the command word is the line's first space-free stretch, lower-cased, followed by a space unless it ends the line |
| Commands.ParseDecimal | main.go:86 | a number is produced exactly for an optional sign followed by one or more digits |
| Commands.NatDigitsRoundTrip | main.go:86 | the digits of a natural number read back as that number |
| Commands.DecimalRoundTrip | main.go:86 | parsing the decimal writing of any integer gives that integer back |
| Commands.LeadingZeros | main.go:86 | leading zeros do not change the value of a digit string |
| Commands.ParseDecimalPadded | main.go:86 | every accepted writing of n (leading zeros, an optional `+`) reads as n, and with `-` in front as -n, `-0` included |
| Commands.ParseMeaning | main.go:67-110 | a line parses to `list` or `exit` exactly for those command words; an added name is all text after the first space; `complete` and `delete` requests come only from those command words and carry one less than the number after the first space; only the five keywords give a request |
| Commands.ParseAddTakesRemainder | main.go:71-76 | `add` and a space request adding the whole remainder as the name, spaces and the empty name included |
| Commands.ParseAddWithoutName | main.go:72-75 | `add` with no space in the line is rejected for want of a name |
| Commands.ParsePositionMissing | main.go:82-85 | `complete` or `delete` with no space in the line is rejected for want of a number |
| Commands.ParsePositionNotNumber | main.go:86-90 | `complete` or `delete` with a remainder that is not a decimal integer is rejected as an invalid number |
| Commands.ParsePositionIsOneBased | main.go:86-91 | `complete` or `delete` followed by any remainder that reads as n (`1`, `+1`, `01`) addresses index n - 1 |
| Commands.ParseUnknownWord | main.go:109-110 | a command word that is none of the five keywords is an unknown command |
| Manager.ListOutcome | main.go:18-32 | the listing is the empty-list notice exactly when there are no tasks; otherwise it is a listing with one line per task, line k showing position k + 1, the k-th task's marker and its name |
| Manager.ApplyMeaning | main.go:34-55 | an out-of-range index for complete or delete changes nothing and reports an invalid task number; list and exit change nothing; only add lengthens the list, by the new incomplete task at its end; only a successful delete shortens it |
| Manager.Interpret | main.go:67-111 | a line reports goodbye exactly when its command word is `exit`; a rejected line leaves the list unchanged |
| Manager.Replay | main.go:63-112 | the loop reports one outcome per line read; without exit it reads every line; when it ends by exit, the last outcome is goodbye |
| Manager.TaskList.constructor | main.go:16 | a session starts with no tasks |
| Manager.TaskList.AddTask | main.go:34-37 | the new task, not completed, is appended after the old list |
| Manager.TaskList.CompleteTask | main.go:39-46 | a valid index marks that task (MarkedDone); an invalid index leaves the list unchanged and reports an invalid task number |
| Manager.TaskList.DeleteTask | main.go:48-55 | a valid index removes that task (Removed); an invalid index leaves the list unchanged and reports an invalid task number |
| Manager.TaskList.ListTasks | main.go:18-32 | the loop's lines are exactly the listing of the tasks, or the empty-list notice |
| Manager.TaskList.Step | main.go:66-111 | one pass of the loop updates the list and reports exactly as Interpret describes |
| Manager.TaskList.Run | main.go:63-112 | the loop leaves the list, outcomes and exit flag exactly as Replay describes |
| SessionProperties.ReadOnlyLinesChangeNothing | main.go:70-110 | rejected lines, `list` and `exit` leave the list unchanged, and report the rejection, the listing and goodbye respectively |
| SessionProperties.ListLine | main.go:78-79 | every line whose command word is `list` (any case, any remainder) reports the listing and changes nothing |
| SessionProperties.EmptyLineIsUnknown | main.go:109-110 | an empty line is an unknown command and changes nothing |
| SessionProperties.AddLineAppends | main.go:71-76 | `add <name>` appends the task (name, not completed) and reports success |
| SessionProperties.AddWithEmptyName | main.go:71-76 | the line `add ` adds a task with an empty name |
| SessionProperties.OutOfRangePositionChangesNothing | main.go:40-43 | `complete` or `delete` with any writing of a number n outside 1..length changes nothing and reports an invalid task number |
| SessionProperties.CompletePositionMarks | main.go:81-91 | `complete` with any writing of a listed n marks task n - 1 complete, and its listing line then shows position n, the done marker and its name |
| SessionProperties.DeletePositionRemoves | main.go:93-103 | `delete` with any writing of a listed n removes task n - 1 and shortens the list by one |
| SessionProperties.CompleteIsIdempotent | main.go:44 | repeating a `complete` line a second time changes nothing more |
| SessionProperties.OnlyExitEndsSession | main.go:105-107 | the session ends by exit exactly when some line is `exit`; it ends at the first such line, and no earlier line is `exit` |
| SessionProperties.ReplayAdds | main.go:34-37 | a run of `add` lines appends the tasks in order, each one not completed |
| SessionProperties.ListShowsAddsInOrder | main.go:24-30 | after adding names in order from an empty list, `list` shows line k with position k + 1, the not-done marker and the k-th name |
| SessionProperties.BuyMilkSession | main.go:34-46 | worked example over the lines `add Buy milk`, `list`, `complete 1`, `list` |
| SessionProperties.DeleteShiftsSession | main.go:48-55 | worked example: on two tasks the line `delete 1` removes the first, and `list` then shows the second at position 1 |
| SessionProperties.CompleteWithWordRejected | main.go:86-90 | `complete abc` is rejected as an invalid number |
| SessionProperties.UnknownWordRejected | main.go:109-110 | `foo` is an unknown command |

## Left out

- Console input and output are not modelled. Each printed message is an `Outcome` constructor, the emoji text is not reproduced, and the listing is a sequence of `Line` values (position, marker flag, name) rather than formatted text.
- The welcome banner and the `> ` prompt are left out; they print text only and change nothing.
- End of input is not modelled. The program does not look at whether reading a line succeeded. After input ends it goes on reading empty lines, and the model proves each of those is an unknown command that changes nothing (`EmptyLineIsUnknown`). `Run` and `Replay` take a finite sequence of lines and stop when it runs out. The code has no path that ends the loop at end of input, so none is modelled.
- Commands.Lower: lower-cases the ASCII capitals and the only two other characters whose Unicode lower case is an ASCII letter (U+0130 to `i`, the Kelvin sign U+212A to `k`), so `LİST` and `EXİT` select `list` and `exit` as they do in Go. Every other non-ASCII capital is kept as it is, where Go would lower-case it. Every keyword is ASCII, so this does not change which command a word selects, but the model's `Lower` is not Go's lower-casing of such letters.
- Input lines are sequences of Unicode characters; the handling of bytes that are not valid UTF-8 is not modelled.
- Commands.ParseDecimal: reads digits into an unbounded integer. Go's rejection of values outside the 64-bit range is not modelled, so such a value is reported as an invalid task number rather than an invalid number. The model also does not wrap `num - 1` at the lower end of the 64-bit range; with unbounded integers that index is still outside the list, so the outcome is the same.
- The task list is a package-level variable in the source. Here it is a field of a `TaskList` object, which is the only state the methods touch.
- The code splits at the first single space, not at a run of whitespace, and accepts `add ` with an empty name; the model follows it (`SplitAtSpace`, `AddWithEmptyName`).
