/** The Kanban board (client/src/components/KanbanBoard.jsx): jobs split into
    one column per status, the drag-and-drop state and its drop rule, and the
    salary line of a card. */
module Kanban {
  import opened Wrappers
  import opened Strings
  import opened Seqs
  import opened Rounding
  import opened Schema
  import opened Store
  import opened Stats
  import opened StatusMap

  /** The statuses of COLUMNS, left to right. */
  const Columns: seq<string> := ["applied", "phone_screen", "oa", "technical", "onsite", "offer", "rejected", "withdrawn"]

  /** The board shows one column for each status a job can take. */
  lemma ColumnsAreStatuses()
    ensures Columns == Statuses
    ensures forall i, j :: 0 <= i < j < |Columns| ==> Columns[i] != Columns[j]
  {
  }

  /** `byStatus`: the column status to the jobs shown in it. */
  type Board = map<string, seq<Job>>

  /** A board built from jobs: each entry holds exactly that status's jobs, in input order. */
  ghost predicate BoardOf(board: Board, jobs: seq<Job>)
  {
    forall c :: c in board ==> board[c] == Filter(jobs, StatusIs(Some(c)))
  }

  /** The `forEach` over COLUMNS: one entry per column, holding the jobs with
      that status in the order they came. */
  method PartitionColumns(jobs: seq<Job>) returns (board: Board)
    ensures forall c :: c in board <==> c in Columns
    ensures forall c :: c in board ==> board[c] == Filter(jobs, StatusIs(Some(c)))
  {
    board := map[];
    var i := 0;
    while i < |Columns|
      invariant 0 <= i <= |Columns|
      invariant forall c :: c in board <==> c in Columns[..i]
      invariant forall c :: c in board ==> board[c] == Filter(jobs, StatusIs(Some(c)))
    {
      var col := Columns[i];
      board := board[col := Filter(jobs, StatusIs(Some(col)))];
      assert Columns[..i + 1] == Columns[..i] + [col];
      i := i + 1;
    }
  }

  /** `byStatus[col.status] || []`: the jobs a column renders; its badge shows their number. */
  function ColumnJobs(board: Board, status: string): (r: seq<Job>)
    ensures status in board ==> r == board[status]
    ensures status !in board ==> r == []
  {
    if status in board then board[status] else []
  }

  /** The badges of the given columns added up. */
  function BadgeTotal(board: Board, cols: seq<string>): nat
  {
    if cols == [] then 0 else BadgeTotal(board, cols[..|cols| - 1]) + |ColumnJobs(board, cols[|cols| - 1])|
  }

  /** The column badges add up to the number of jobs whose status has a column. */
  lemma {:induction false} BadgeTotalCounts(jobs: seq<Job>, board: Board, cols: seq<string>)
    requires BoardOf(board, jobs)
    requires forall c :: c in cols ==> c in board
    requires forall i, j :: 0 <= i < j < |cols| ==> cols[i] != cols[j]
    ensures BadgeTotal(board, cols) == Count(jobs, StatusAmong(cols))
  {
    if cols == [] {
      FilterNone(jobs, StatusAmong(cols));
    } else {
      var ks, k := cols[..|cols| - 1], cols[|cols| - 1];
      assert cols == ks + [k];
      BadgeTotalCounts(jobs, board, ks);
      CountOr(jobs, StatusAmong(ks), StatusIs(Some(k)), StatusAmong(cols));
    }
  }

  /** On a built board the eight badges add up to the jobs with one of the
      eight statuses; a job with any other status is on no column. */
  lemma BoardAccountsForJobs(jobs: seq<Job>, board: Board)
    requires BoardOf(board, jobs)
    requires forall c :: c in board <==> c in Columns
    ensures BadgeTotal(board, Columns) == Count(jobs, StatusAmong(Columns))
    ensures BadgeTotal(board, Columns) <= |jobs|
  {
    BadgeTotalCounts(jobs, board, Columns);
  }

  /** A job sits in the column of its own status and in no other. */
  lemma JobInOwnColumnOnly(jobs: seq<Job>, board: Board, j: Job, c: string)
    requires BoardOf(board, jobs)
    requires forall c :: c in board <==> c in Columns
    requires j in jobs
    ensures j in ColumnJobs(board, c) <==> c in Columns && j.status == Some(c)
  {
  }

  /** The pending status change a drop asks for: `onStatusChange(id, status)`. */
  datatype StatusChange = StatusChange(jobId: int, status: string)

  /** handleDrop's rule: a change only when a job is being dragged, the first
      job with that id exists, and its status differs from the column's. */
  function DropChange(dragged: Option<int>, jobs: seq<Job>, newStatus: string): (r: Option<StatusChange>)
    ensures r.Some? <==>
      dragged.Some? && HasKey(jobs, JobKey, dragged.value)
      && FindKey(jobs, JobKey, dragged.value).value.status != Some(newStatus)
    ensures r.Some? ==> r.value == StatusChange(dragged.value, newStatus)
  {
    if dragged.None? then None
    else match FindKey(jobs, JobKey, dragged.value)
      case None => None
      case Some(job) => if job.status != Some(newStatus) then Some(StatusChange(dragged.value, newStatus)) else None
  }

  /** Dropping a card on its own column asks for nothing. */
  lemma DropOnOwnColumn(jobs: seq<Job>, i: nat)
    requires i < |jobs| && jobs[i].status.Some?
    requires forall k :: 0 <= k < |jobs| && k != i ==> jobs[k].id != jobs[i].id
    ensures DropChange(Some(jobs[i].id), jobs, jobs[i].status.value).None?
  {
    var r := FindKey(jobs, JobKey, jobs[i].id);
    assert HasKey(jobs, JobKey, jobs[i].id);
    assert r.value == jobs[i];
  }

  /** The drag state of the board. */
  class DragState {
    var draggedJobId: Option<int>
    var overColumn: Option<string>

    constructor()
      ensures draggedJobId == None && overColumn == None
    {
      draggedJobId := None;
      overColumn := None;
    }

    /** `draggedJobId === job.id`: the card being dragged is dimmed. */
    predicate IsDragging(jobId: int)
      reads this
    {
      draggedJobId == Some(jobId)
    }

    /** `overColumn === col.status`: the hovered column is highlighted. */
    predicate IsOver(status: string)
      reads this
    {
      overColumn == Some(status)
    }

    method DragStart(jobId: int)
      modifies this
      ensures draggedJobId == Some(jobId) && overColumn == old(overColumn)
      ensures IsDragging(jobId)
    {
      draggedJobId := Some(jobId);
    }

    /** Dragging over a column highlights exactly that column. */
    method DragOver(status: string)
      modifies this
      ensures overColumn == Some(status) && draggedJobId == old(draggedJobId)
      ensures forall c :: IsOver(c) <==> c == status
    {
      overColumn := Some(status);
    }

    /** `onDragLeave`: the highlight goes only when the pointer left the
        column itself, not when it moved onto one of its children. */
    method DragLeave(stillInside: bool)
      modifies this
      ensures overColumn == (if stillInside then old(overColumn) else None)
      ensures draggedJobId == old(draggedJobId)
    {
      if !stillInside {
        overColumn := None;
      }
    }

    /** handleDrop: returns the status change it requests, then clears both fields. */
    method Drop(jobs: seq<Job>, newStatus: string) returns (change: Option<StatusChange>)
      modifies this
      ensures change == DropChange(old(draggedJobId), jobs, newStatus)
      ensures draggedJobId == None && overColumn == None
    {
      change := None;
      if draggedJobId.Some? {
        var job := FindKey(jobs, JobKey, draggedJobId.value);
        if job.Some? && job.value.status != Some(newStatus) {
          change := Some(StatusChange(draggedJobId.value, newStatus));
        }
      }
      draggedJobId := None;
      overColumn := None;
    }

    method DragEnd()
      modifies this
      ensures draggedJobId == None && overColumn == None
    {
      draggedJobId := None;
      overColumn := None;
    }
  }

  /** A drag that starts on a card and drops on another status's column
      requests exactly that card's move, and leaves the board idle. */
  method DragAndDrop(jobs: seq<Job>, i: nat, target: string) returns (change: Option<StatusChange>)
    requires i < |jobs| && jobs[i].status != Some(target)
    requires forall k :: 0 <= k < |jobs| && k != i ==> jobs[k].id != jobs[i].id
    ensures change == Some(StatusChange(jobs[i].id, target))
  {
    var state := new DragState();
    state.DragStart(jobs[i].id);
    state.DragOver(target);
    assert HasKey(jobs, JobKey, jobs[i].id);
    assert FindKey(jobs, JobKey, jobs[i].id).value == jobs[i];
    change := state.Drop(jobs, target);
  }

  // ---------------------------------------------------------------------------
  // The salary line
  // ---------------------------------------------------------------------------

  /** The text after the lower amount: " – $Yk" with a maximum, "+" without. */
  function SalaryTail(max: Option<int>): string
  {
    if TruthyNumber(max) then " – $" + IntToString(Thousands(max.value)) + "k" else "+"
  }

  /** `salaryStr`: None (no line) when neither bound is set. */
  function SalaryStr(min: Option<int>, max: Option<int>): (r: Option<string>)
    ensures r.None? <==> !TruthyNumber(min) && !TruthyNumber(max)
    ensures r.Some? ==> |r.value| >= 3 && r.value[0] == '$'
    ensures r.Some? ==> (r.value[|r.value| - 1] == '+' <==> !TruthyNumber(max))
  {
    if TruthyNumber(min) || TruthyNumber(max) then
      Some("$" + IntToString(Thousands(OrZero(min))) + "k" + SalaryTail(max))
    else None
  }

  /** The first amount shown reads back as the minimum (0 when unset) to the
      nearest thousand. */
  lemma SalaryStrShowsMinimum(min: Option<int>, max: Option<int>)
    requires TruthyNumber(min) || TruthyNumber(max)
    ensures var t := IntToString(Thousands(OrZero(min)));
      && SalaryStr(min, max).value[1..|t| + 1] == t
      && (forall k :: 0 < k < |t| ==> IsDigit(t[k])) && (t[0] == '-' || IsDigit(t[0]))
      && 1000 * ParseInt(t) - 500 <= OrZero(min) < 1000 * ParseInt(t) + 500
  {
    var th := Thousands(OrZero(min));
    ParseIntToString(th);
    SalaryStrStartsWithMinimum(min, max);
  }

  lemma SalaryStrStartsWithMinimum(min: Option<int>, max: Option<int>)
    requires TruthyNumber(min) || TruthyNumber(max)
    ensures var t := IntToString(Thousands(OrZero(min))); SalaryStr(min, max).value[1..|t| + 1] == t
  {
    DollarPrefix(IntToString(Thousands(OrZero(min))), "k", SalaryTail(max));
  }

  /** With a maximum the line ends in " – $Yk", and Y reads back as the
      maximum to the nearest thousand. */
  lemma SalaryStrShowsMaximum(min: Option<int>, max: Option<int>)
    requires TruthyNumber(max)
    ensures var s, t := SalaryStr(min, max).value, IntToString(Thousands(max.value));
      && |s| >= |t| + 5 && s[|s| - |t| - 5..] == " – $" + t + "k"
      && 1000 * ParseInt(t) - 500 <= max.value < 1000 * ParseInt(t) + 500
  {
    var t := IntToString(Thousands(max.value));
    ParseIntToString(Thousands(max.value));
    var head := "$" + IntToString(Thousands(OrZero(min))) + "k";
    var tail := " – $" + t + "k";
    assert SalaryStr(min, max).value == head + tail;
    assert |tail| == |t| + 5;
    assert (head + tail)[|head|..] == tail;
  }

  lemma DollarPrefix(t: string, a: string, b: string)
    ensures ("$" + t + a + b)[1..|t| + 1] == t
  {
    assert "$" + t + a + b == "$" + t + (a + b);
  }
}
