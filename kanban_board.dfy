/** The board of components/tasks/KanbanBoard.tsx: one column per status
    in a fixed order, each holding the tasks of its status. */
module KanbanBoard {
  import opened Types
  import opened TaskFilter

  /** The column order: to-do, in progress, need review, done. */
  const Columns: seq<Status> := [Todo, InProgress, NeedReview, Done]

  /** A rendered column and the count its badge shows. */
  datatype Column = Column(status: Status, tasks: seq<Task>, count: nat)

  /** What the board renders: the spinner, the error panel, or the columns. */
  datatype BoardView = Spinner | ErrorPanel(message: string) | Board(columns: seq<Column>)

  /** The reduce over the columns that fills the record `tasksByStatus`:
      every status gets the tasks of that status, in list order. */
  method TasksByStatus(tasks: seq<Task>) returns (acc: map<Status, seq<Task>>)
    ensures forall s: Status :: s in acc && acc[s] == WithStatus(tasks, s)
  {
    acc := map[];
    var i := 0;
    while i < |Columns|
      invariant 0 <= i <= |Columns|
      invariant forall k :: 0 <= k < i ==> Columns[k] in acc && acc[Columns[k]] == WithStatus(tasks, Columns[k])
    {
      acc := acc[Columns[i] := WithStatus(tasks, Columns[i])];
      i := i + 1;
    }
    forall s: Status
      ensures s in acc && acc[s] == WithStatus(tasks, s)
    {
      var k := match s case Todo => 0 case InProgress => 1 case NeedReview => 2 case Done => 3;
      assert Columns[k] == s;
    }
  }

  /** The board: loading wins over an error, a (non-empty) error wins over
      the columns; the columns come in the fixed order, each with the
      tasks of its status and a count equal to their number, and the
      counts add up to the number of tasks. */
  method RenderBoard(tasks: seq<Task>, loading: bool, error: Option<string>) returns (v: BoardView)
    ensures v.Spinner? <==> loading
    ensures v.ErrorPanel? <==> !loading && error.Some? && error.value != ""
    ensures v.ErrorPanel? ==> v.message == error.value
    ensures v.Board? ==> |v.columns| == |Columns|
    ensures v.Board? ==> forall k :: 0 <= k < |v.columns| ==>
              v.columns[k].status == Columns[k] &&
              v.columns[k].tasks == WithStatus(tasks, Columns[k]) &&
              v.columns[k].count == |v.columns[k].tasks|
    ensures v.Board? ==> v.columns[0].count + v.columns[1].count + v.columns[2].count + v.columns[3].count == |tasks|
  {
    var byStatus := TasksByStatus(tasks);
    if loading {
      return Spinner;
    }
    if error.Some? && error.value != "" {
      return ErrorPanel(error.value);
    }
    var columns := seq(|Columns|, k requires 0 <= k < |Columns| =>
      Column(Columns[k], byStatus[Columns[k]], |byStatus[Columns[k]]|));
    StatusPartition(tasks);
    return Board(columns);
  }
}
