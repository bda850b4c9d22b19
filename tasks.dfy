/** The task records of the list manager, and the value-level meaning of the
    three in-place updates (append, mark complete, remove) and of the listing. */
module Tasks {

  /** One entry of the list: a free-form name and a completion flag. */
  datatype Task = Task(name: string, completed: bool)

  /** One line of the listing: the 1-based position, the status marker
      (true for the "done" glyph, false for the "not done" glyph) and the name. */
  datatype Line = Line(position: int, completed: bool, name: string)

  /** An index addresses a task when it lies inside the list. */
  predicate IsIndex(s: seq<Task>, i: int)
  {
    0 <= i < |s|
  }

  /** The list after the task at index i is marked complete. */
  function MarkedDone(s: seq<Task>, i: int): (r: seq<Task>)
    requires IsIndex(s, i)
    ensures |r| == |s|
    ensures r[i].completed
    ensures forall j :: 0 <= j < |r| ==> r[j].name == s[j].name
    ensures forall j :: 0 <= j < |r| && j != i ==> r[j] == s[j]
  {
    s[i := s[i].(completed := true)]
  }

  /** The list after the task at index i is removed and the later ones move down. */
  function Removed(s: seq<Task>, i: int): (r: seq<Task>)
    requires IsIndex(s, i)
    ensures |r| == |s| - 1
    ensures forall j :: 0 <= j < i ==> r[j] == s[j]
    ensures forall j :: i <= j < |r| ==> r[j] == s[j + 1]
    ensures multiset(r) + multiset{s[i]} == multiset(s)
  {
    assert s == s[..i] + [s[i]] + s[i + 1..];
    s[..i] + s[i + 1..]
  }

  /** Marking the same task twice leaves the list as marking it once. */
  lemma MarkedDoneIdempotent(s: seq<Task>, i: int)
    requires IsIndex(s, i)
    ensures MarkedDone(MarkedDone(s, i), i) == MarkedDone(s, i)
  {
  }

  /** The listing of s when its first entry is shown at position `first`. */
  function RenderFrom(s: seq<Task>, first: int): (r: seq<Line>)
    ensures |r| == |s|
    decreases |s|
  {
    if |s| == 0 then []
    else [Line(first, s[0].completed, s[0].name)] + RenderFrom(s[1..], first + 1)
  }

  lemma {:induction false} RenderFromAt(s: seq<Task>, first: int, k: int)
    requires 0 <= k < |s|
    ensures RenderFrom(s, first)[k] == Line(first + k, s[k].completed, s[k].name)
    decreases k
  {
    if k > 0 {
      RenderFromAt(s[1..], first + 1, k - 1);
    }
  }

  /** The listing of s, numbered from 1: one line per task, and line k shows
      position k + 1, the k-th task's flag and its name. */
  function Render(s: seq<Task>): (r: seq<Line>)
    ensures |r| == |s|
    ensures forall k :: 0 <= k < |s| ==> r[k] == Line(k + 1, s[k].completed, s[k].name)
  {
    assert forall k :: 0 <= k < |s| ==> RenderFrom(s, 1)[k] == Line(1 + k, s[k].completed, s[k].name) by {
      forall k | 0 <= k < |s| {
        RenderFromAt(s, 1, k);
      }
    }
    RenderFrom(s, 1)
  }

  /** After removing index i, the lines before i are as before and every later
      line is the next line of the old listing, renumbered one position down. */
  lemma RenderAfterRemoval(s: seq<Task>, i: int, j: int)
    requires IsIndex(s, i)
    requires 0 <= j < |s| - 1
    ensures j < i ==> Render(Removed(s, i))[j] == Render(s)[j]
    ensures i <= j ==> Render(Removed(s, i))[j] == Render(s)[j + 1].(position := Render(s)[j + 1].position - 1)
  {
  }

  /** After marking index i, only line i changes, and it shows the "done" marker. */
  lemma RenderAfterMarking(s: seq<Task>, i: int, j: int)
    requires IsIndex(s, i)
    requires 0 <= j < |s|
    ensures j != i ==> Render(MarkedDone(s, i))[j] == Render(s)[j]
    ensures j == i ==> Render(MarkedDone(s, i))[j] == Render(s)[j].(completed := true)
  {
  }
}
