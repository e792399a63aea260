/** The sprint board (src/components/jira-board.tsx): the shared sprint and
    issue state set by the board's effects and the sprint selector, and the
    figures and columns computed from them. */
module JiraBoard {
  import opened Wrappers
  import opened Types

  // ---------------------------------------------------------------------------
  // Choosing a sprint

  /** The first index of `sprints` whose sprint satisfies `p`. */
  function FindIndex(sprints: seq<BoardSprint>, p: BoardSprint -> bool): (r: Option<nat>)
    ensures r.Some? ==> r.value < |sprints| && p(sprints[r.value])
    ensures r.Some? ==> forall j :: 0 <= j < r.value ==> !p(sprints[j])
    ensures r.None? ==> forall j :: 0 <= j < |sprints| ==> !p(sprints[j])
  {
    if sprints == [] then None
    else if p(sprints[0]) then Some(0)
    else match FindIndex(sprints[1..], p)
      case None => None
      case Some(k) => Some(k + 1)
  }

  /** `sprints.find(p)`: the first sprint satisfying `p`, if any. */
  function Find(sprints: seq<BoardSprint>, p: BoardSprint -> bool): (r: Option<BoardSprint>)
    ensures r.None? <==> forall j :: 0 <= j < |sprints| ==> !p(sprints[j])
    ensures r.Some? ==>
              exists i :: 0 <= i < |sprints| && sprints[i] == r.value && p(r.value)
                          && forall j :: 0 <= j < i ==> !p(sprints[j])
  {
    match FindIndex(sprints, p)
    case None => None
    case Some(i) => Some(sprints[i])
  }

  predicate IsActive(s: BoardSprint) {
    s.state == "active"
  }

  /** The sprint the board opens on: the first one whose state is 'active'. */
  function ActiveSprint(sprints: seq<BoardSprint>): (r: Option<BoardSprint>)
    ensures r.None? <==> forall j :: 0 <= j < |sprints| ==> sprints[j].state != "active"
    ensures r.Some? ==>
              exists i :: 0 <= i < |sprints| && sprints[i] == r.value && r.value.state == "active"
                          && forall j :: 0 <= j < i ==> sprints[j].state != "active"
  {
    Find(sprints, IsActive)
  }

  /** The sprint picked in the selector: the first one with the chosen name. */
  function SprintNamed(sprints: seq<BoardSprint>, name: string): (r: Option<BoardSprint>)
    ensures r.None? <==> forall j :: 0 <= j < |sprints| ==> sprints[j].name != name
    ensures r.Some? ==>
              exists i :: 0 <= i < |sprints| && sprints[i] == r.value && r.value.name == name
                          && forall j :: 0 <= j < i ==> sprints[j].name != name
  {
    Find(sprints, (s: BoardSprint) => s.name == name)
  }

  // ---------------------------------------------------------------------------
  // The board's shared state

  /** The sprint and the sprint's issues shared between the board, its
      figures and its selector. */
  class BoardState {
    var sprint: Option<BoardSprint>
    var issues: Option<seq<BoardSprintIssue>>

    constructor ()
      ensures sprint == None && issues == None
    {
      sprint := None;
      issues := None;
    }

    /** The effect run when the board details arrive: the first active sprint
        becomes the current one; with no details, or no active sprint, the
        current sprint stays as it was. */
    method OnBoardDetails(data: Option<BoardDetails>)
      modifies this
      ensures data.Some? && ActiveSprint(data.value.sprints).Some? ==>
                sprint == ActiveSprint(data.value.sprints)
      ensures data.None? || ActiveSprint(data.value.sprints).None? ==> sprint == old(sprint)
      ensures issues == old(issues)
    {
      if data.None? {
        return;
      }
      var activeSprint := ActiveSprint(data.value.sprints);
      if activeSprint.None? {
        return;
      }
      sprint := activeSprint;
    }

    /** `handleOnValueChange`: the sprint chosen by name becomes the current
        one, or none when no sprint has that name. */
    method HandleOnValueChange(sprints: seq<BoardSprint>, value: string)
      modifies this
      ensures sprint == SprintNamed(sprints, value)
      ensures issues == old(issues)
    {
      sprint := SprintNamed(sprints, value);
    }

    /** The effect run when the current sprint's issues arrive. */
    method OnSprintIssues(data: Option<BoardSprintIssues>)
      modifies this
      ensures issues == if data.Some? then Some(data.value.issues) else old(issues)
      ensures sprint == old(sprint)
    {
      if data.None? {
        return;
      }
      issues := Some(data.value.issues);
    }
  }

  // ---------------------------------------------------------------------------
  // Filtering issues by status

  /** `issues.filter((issue) => issue.status === status)`. */
  function WithStatus(issues: seq<BoardSprintIssue>, status: string): (r: seq<BoardSprintIssue>)
    ensures |r| <= |issues|
    ensures forall x :: x in r <==> x in issues && x.status == status
  {
    if issues == [] then []
    else (if issues[0].status == status then [issues[0]] else []) + WithStatus(issues[1..], status)
  }

  /** The filter keeps the original order: filtering a concatenation is the
      concatenation of the filtered parts. */
  lemma {:induction false} WithStatusAppend(a: seq<BoardSprintIssue>, b: seq<BoardSprintIssue>, status: string)
    ensures WithStatus(a + b, status) == WithStatus(a, status) + WithStatus(b, status)
  {
    if a == [] {
      assert a + b == b;
    } else {
      assert (a + b)[0] == a[0];
      assert (a + b)[1..] == a[1..] + b;
      WithStatusAppend(a[1..], b, status);
    }
  }

  /** The filter keeps every copy of a matching issue and no copy of any other. */
  lemma {:induction false} WithStatusCount(issues: seq<BoardSprintIssue>, status: string, x: BoardSprintIssue)
    ensures multiset(WithStatus(issues, status))[x] == if x.status == status then multiset(issues)[x] else 0
  {
    if issues != [] {
      WithStatusCount(issues[1..], status, x);
      assert issues == [issues[0]] + issues[1..];
    }
  }

  const Done := "Done"

  /** `completedTasks`: the issues in status 'Done'; no issues yet reads as none. */
  function CompletedTasks(issues: Option<seq<BoardSprintIssue>>): (r: seq<BoardSprintIssue>)
    ensures issues.None? ==> r == []
    ensures |r| <= |issues.GetOr([])|
    ensures forall x :: x in r <==> x in issues.GetOr([]) && x.status == "Done"
  {
    WithStatus(issues.GetOr([]), Done)
  }

  // ---------------------------------------------------------------------------
  // Figures

  /** `issue.timeSpent || 0` */
  function TimeSpent(issue: BoardSprintIssue): nat {
    issue.timeSpent.GetOr(0)
  }

  /** `issue.storyPointEstimate || 0` */
  function Points(issue: BoardSprintIssue): nat {
    issue.storyPointEstimate.GetOr(0)
  }

  /** The `reduce` of `TimeSpent` over the issues: their total, 0 for none. */
  function SumTimeSpent(issues: seq<BoardSprintIssue>): (r: nat)
    ensures |issues| == 1 ==> r == TimeSpent(issues[0])
    ensures forall i :: 0 <= i < |issues| ==> TimeSpent(issues[i]) <= r
    ensures r == 0 <==> forall i :: 0 <= i < |issues| ==> TimeSpent(issues[i]) == 0
  {
    if issues == [] then 0 else TimeSpent(issues[0]) + SumTimeSpent(issues[1..])
  }

  /** The total of a concatenation is the sum of the totals. */
  lemma {:induction false} SumTimeSpentAppend(a: seq<BoardSprintIssue>, b: seq<BoardSprintIssue>)
    ensures SumTimeSpent(a + b) == SumTimeSpent(a) + SumTimeSpent(b)
  {
    if a == [] {
      assert a + b == b;
    } else {
      assert (a + b)[0] == a[0];
      assert (a + b)[1..] == a[1..] + b;
      SumTimeSpentAppend(a[1..], b);
    }
  }

  /** `reduce((acc, issue) => acc + (issue.timeSpent || 0), 0)` adds the
      issues from left to right: the total is the total of all but the last
      issue, plus the last issue's time. */
  lemma SumTimeSpentReduce(issues: seq<BoardSprintIssue>)
    requires issues != []
    ensures SumTimeSpent(issues) == SumTimeSpent(issues[..|issues| - 1]) + TimeSpent(issues[|issues| - 1])
  {
    var n := |issues| - 1;
    assert issues == issues[..n] + [issues[n]];
    SumTimeSpentAppend(issues[..n], [issues[n]]);
  }

  /** The `reduce` of `Points` over the issues: their total, 0 for none. */
  function SumPoints(issues: seq<BoardSprintIssue>): (r: nat)
    ensures |issues| == 1 ==> r == Points(issues[0])
    ensures forall i :: 0 <= i < |issues| ==> Points(issues[i]) <= r
    ensures r == 0 <==> forall i :: 0 <= i < |issues| ==> Points(issues[i]) == 0
  {
    if issues == [] then 0 else Points(issues[0]) + SumPoints(issues[1..])
  }

  /** The points of a concatenation are the sum of the points of its parts. */
  lemma {:induction false} SumPointsAppend(a: seq<BoardSprintIssue>, b: seq<BoardSprintIssue>)
    ensures SumPoints(a + b) == SumPoints(a) + SumPoints(b)
  {
    if a == [] {
      assert a + b == b;
    } else {
      assert (a + b)[0] == a[0];
      assert (a + b)[1..] == a[1..] + b;
      SumPointsAppend(a[1..], b);
    }
  }

  /** `reduce((acc, issue) => acc + (issue.storyPointEstimate || 0), 0)`
      adds the issues from left to right. */
  lemma SumPointsReduce(issues: seq<BoardSprintIssue>)
    requires issues != []
    ensures SumPoints(issues) == SumPoints(issues[..|issues| - 1]) + Points(issues[|issues| - 1])
  {
    var n := |issues| - 1;
    assert issues == issues[..n] + [issues[n]];
    SumPointsAppend(issues[..n], [issues[n]]);
  }

  /** `secondsWorked`: the time logged on the sprint's issues, 0 before they arrive. */
  function SecondsWorked(issues: Option<seq<BoardSprintIssue>>): (r: nat)
    ensures issues.None? ==> r == 0
    ensures issues.Some? ==> r == SumTimeSpent(issues.value)
    ensures issues.Some? ==> forall i :: 0 <= i < |issues.value| ==> TimeSpent(issues.value[i]) <= r
  {
    SumTimeSpent(issues.GetOr([]))
  }

  /** `committedPoints`: the estimates of all the sprint's issues. */
  function CommittedPoints(issues: Option<seq<BoardSprintIssue>>): (r: nat)
    ensures issues.None? ==> r == 0
    ensures issues.Some? ==> r == SumPoints(issues.value)
    ensures issues.Some? ==> forall i :: 0 <= i < |issues.value| ==> Points(issues.value[i]) <= r
  {
    SumPoints(issues.GetOr([]))
  }

  /** `completedPoints`: the estimates of the sprint's Done issues. */
  function CompletedPoints(issues: Option<seq<BoardSprintIssue>>): (r: nat)
    ensures issues.None? ==> r == 0
    ensures r == SumPoints(CompletedTasks(issues))
    ensures forall x :: x in CompletedTasks(issues) ==> Points(x) <= r
  {
    var done := WithStatus(issues.GetOr([]), Done);
    assert forall x :: x in done ==> exists i :: 0 <= i < |done| && done[i] == x;
    SumPoints(done)
  }

  /** The filtered issues never carry more points than all of them. */
  lemma {:induction false} SumPointsWithStatus(issues: seq<BoardSprintIssue>, status: string)
    ensures SumPoints(WithStatus(issues, status)) <= SumPoints(issues)
  {
    if issues != [] {
      var rest := WithStatus(issues[1..], status);
      SumPointsWithStatus(issues[1..], status);
      if issues[0].status == status {
        assert WithStatus(issues, status) == [issues[0]] + rest;
        assert ([issues[0]] + rest)[1..] == rest;
      } else {
        assert WithStatus(issues, status) == rest;
      }
    }
  }

  /** The filter changes nothing when every issue has the status. */
  lemma {:induction false} WithStatusAll(issues: seq<BoardSprintIssue>, status: string)
    requires forall i :: 0 <= i < |issues| ==> issues[i].status == status
    ensures WithStatus(issues, status) == issues
  {
    if issues != [] {
      WithStatusAll(issues[1..], status);
    }
  }

  /** Completed points never exceed committed points, and equal them when
      every issue is Done. */
  lemma CompletedWithinCommitted(issues: Option<seq<BoardSprintIssue>>)
    ensures CompletedPoints(issues) <= CommittedPoints(issues)
    ensures issues.Some? && (forall i :: 0 <= i < |issues.value| ==> issues.value[i].status == "Done") ==>
              CompletedPoints(issues) == CommittedPoints(issues)
  {
    SumPointsWithStatus(issues.GetOr([]), Done);
    if issues.Some? && (forall i :: 0 <= i < |issues.value| ==> issues.value[i].status == "Done") {
      WithStatusAll(issues.value, Done);
    }
  }

  // ---------------------------------------------------------------------------
  // Columns

  /** One board column: a configured column name and its issues. */
  datatype Column = Column(name: string, issues: seq<BoardSprintIssue>)

  /** `BoardColumn`: the issues whose status is the column's name, in order. */
  function BoardColumn(name: string, issues: seq<BoardSprintIssue>): (c: Column)
    ensures c.name == name
    ensures forall x :: x in c.issues <==> x in issues && x.status == name
  {
    Column(name, WithStatus(issues, name))
  }

  /** `Board`: one column per configured column name, in order. */
  function Board(columns: seq<string>, issues: seq<BoardSprintIssue>): (r: seq<Column>)
    ensures |r| == |columns|
    ensures forall i :: 0 <= i < |r| ==> r[i].name == columns[i]
    ensures forall i, x :: 0 <= i < |r| ==> (x in r[i].issues <==> x in issues && x.status == columns[i])
  {
    if columns == [] then []
    else [BoardColumn(columns[0], issues)] + Board(columns[1..], issues)
  }

  /** The number of cards on a board. */
  function CardCount(board: seq<Column>): nat {
    if board == [] then 0 else |board[0].issues| + CardCount(board[1..])
  }

  /** The number of positions at which `name` appears among the columns. */
  function Occurrences(columns: seq<string>, name: string): nat {
    if columns == [] then 0 else (if columns[0] == name then 1 else 0) + Occurrences(columns[1..], name)
  }

  lemma {:induction false} CardCountCons(columns: seq<string>, x: BoardSprintIssue, rest: seq<BoardSprintIssue>)
    ensures CardCount(Board(columns, [x] + rest)) == Occurrences(columns, x.status) + CardCount(Board(columns, rest))
  {
    if columns != [] {
      CardCountCons(columns[1..], x, rest);
      assert ([x] + rest)[1..] == rest;
    }
  }

  lemma {:induction false} OccursOnce(columns: seq<string>, name: string)
    requires forall i, j :: 0 <= i < j < |columns| ==> columns[i] != columns[j]
    requires name in columns
    ensures Occurrences(columns, name) == 1
  {
    if columns[0] != name {
      OccursOnce(columns[1..], name);
    } else {
      NotOccurring(columns[1..], name);
    }
  }

  lemma {:induction false} NotOccurring(columns: seq<string>, name: string)
    requires name !in columns
    ensures Occurrences(columns, name) == 0
  {
    if columns != [] {
      NotOccurring(columns[1..], name);
    }
  }

  /** With distinct column names that cover every status, each issue is shown
      on exactly one card. */
  lemma {:induction false} EveryIssueShownOnce(columns: seq<string>, issues: seq<BoardSprintIssue>)
    requires forall i, j :: 0 <= i < j < |columns| ==> columns[i] != columns[j]
    requires forall i :: 0 <= i < |issues| ==> issues[i].status in columns
    ensures CardCount(Board(columns, issues)) == |issues|
  {
    if issues == [] {
      EmptyBoard(columns);
    } else {
      assert issues == [issues[0]] + issues[1..];
      CardCountCons(columns, issues[0], issues[1..]);
      OccursOnce(columns, issues[0].status);
      EveryIssueShownOnce(columns, issues[1..]);
    }
  }

  lemma {:induction false} EmptyBoard(columns: seq<string>)
    ensures CardCount(Board(columns, [])) == 0
  {
    if columns != [] {
      EmptyBoard(columns[1..]);
    }
  }
}
