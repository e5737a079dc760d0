/** `getAutoStatus`: the task's status derived from its canonical checklist. */
module AutoStatus {
  import opened Checklist

  const StatusPending: string := "Pending"
  const StatusInProgress: string := "In Progress"
  const StatusCompleted: string := "Completed"

  /** `todos.filter((t) => t.completed).length`. */
  function CountCompleted(todos: seq<Item>): (n: nat)
    ensures n <= |todos|
  {
    if todos == [] then 0 else (if todos[0].completed then 1 else 0) + CountCompleted(todos[1..])
  }

  predicate AllCompleted(todos: seq<Item>)
  {
    forall i :: 0 <= i < |todos| ==> todos[i].completed
  }

  predicate NoneCompleted(todos: seq<Item>)
  {
    forall i :: 0 <= i < |todos| ==> !todos[i].completed
  }

  /** `getAutoStatus`: one of the three status labels. */
  function GetAutoStatus(todos: seq<Item>): (status: string)
    ensures status == StatusPending || status == StatusInProgress || status == StatusCompleted
  {
    var total := |todos|;
    var completed := CountCompleted(todos);
    if total == 0 then StatusPending
    else if completed == 0 then StatusPending
    else if completed == total then StatusCompleted
    else StatusInProgress
  }

  /** The completed count never exceeds the length; it is zero exactly when
      no item is completed and equals the length exactly when all are. */
  lemma {:induction false} CountCompletedBounds(todos: seq<Item>)
    ensures CountCompleted(todos) <= |todos|
    ensures CountCompleted(todos) == 0 <==> NoneCompleted(todos)
    ensures CountCompleted(todos) == |todos| <==> AllCompleted(todos)
  {
    if todos != [] {
      CountCompletedBounds(todos[1..]);
      assert forall i :: 1 <= i < |todos| ==> todos[i] == todos[1..][i - 1];
    }
  }

  /** The three statuses partition all checklists: "Completed" exactly for
      a non-empty, fully completed list; "Pending" exactly when nothing is
      completed (the empty list included); "In Progress" exactly when some
      items are completed and some are not. */
  lemma AutoStatusClassifies(todos: seq<Item>)
    ensures GetAutoStatus(todos) == StatusCompleted <==> |todos| > 0 && AllCompleted(todos)
    ensures GetAutoStatus(todos) == StatusPending <==> NoneCompleted(todos)
    ensures GetAutoStatus(todos) == StatusInProgress <==> !AllCompleted(todos) && !NoneCompleted(todos)
  {
    CountCompletedBounds(todos);
  }
}
