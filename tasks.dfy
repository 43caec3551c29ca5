/** The task records the client holds and the list transforms its handlers apply. */
module Tasks {
  import opened Sequences

  /** Identifier assigned by the remote store; compared with strict equality. */
  type TaskId = int

  datatype Task = Task(id: TaskId, title: string, completed: bool)

  /** The three figures shown under the list. */
  datatype Summary = Summary(total: nat, completed: nat, pending: nat)

  /** The tasks in `ts` whose id is `id`. */
  function WithId(ts: seq<Task>, id: TaskId): seq<Task>
  {
    Filter(ts, (t: Task) => t.id == id)
  }

  /** How many tasks in `ts` carry the id `id`. */
  function CountId(ts: seq<Task>, id: TaskId): nat
  {
    |WithId(ts, id)|
  }

  /** Whether some task in `ts` carries the id `id`. */
  predicate HasId(ts: seq<Task>, id: TaskId)
  {
    exists k :: 0 <= k < |ts| && ts[k].id == id
  }

  /** The two notions of "some task carries `id`" agree. */
  lemma HasIdIffCounted(ts: seq<Task>, id: TaskId)
    ensures HasId(ts, id) <==> CountId(ts, id) > 0
  {
    FilterEmpty(ts, (t: Task) => t.id == id);
  }

  /** The toggle handler's transform: every task whose id is `id`
      is replaced by the record the server returned, all others stay. */
  function ReplaceById(ts: seq<Task>, id: TaskId, data: Task): (r: seq<Task>)
    ensures |r| == |ts|
    ensures forall k :: 0 <= k < |ts| && ts[k].id == id ==> r[k] == data
    ensures forall k :: 0 <= k < |ts| && ts[k].id != id ==> r[k] == ts[k]
  {
    if ts == [] then []
    else [if ts[0].id == id then data else ts[0]] + ReplaceById(ts[1..], id, data)
  }

  /** The delete handler's transform: drop every task whose id is `id`. */
  function RemoveById(ts: seq<Task>, id: TaskId): (r: seq<Task>)
    ensures !HasId(r, id)
    ensures forall k :: 0 <= k < |ts| && ts[k].id != id ==> ts[k] in r
    ensures forall k :: 0 <= k < |r| ==> r[k] in ts
    ensures |r| == |ts| - CountId(ts, id)
  {
    FilterSplit(ts, (t: Task) => t.id == id, (t: Task) => t.id != id);
    Filter(ts, (t: Task) => t.id != id)
  }

  /** The completed tasks, in list order. */
  function Completed(ts: seq<Task>): seq<Task>
  {
    Filter(ts, (t: Task) => t.completed)
  }

  /** The tasks not yet completed, in list order. */
  function Pending(ts: seq<Task>): seq<Task>
  {
    Filter(ts, (t: Task) => !t.completed)
  }

  /** Total, completed and pending counts of a list. */
  function Summarize(ts: seq<Task>): (s: Summary)
    ensures s.total == |ts|
    ensures s.completed + s.pending == s.total
    ensures s.completed == 0 <==> forall k :: 0 <= k < |ts| ==> !ts[k].completed
    ensures s.pending == 0 <==> forall k :: 0 <= k < |ts| ==> ts[k].completed
  {
    FilterSplit(ts, (t: Task) => t.completed, (t: Task) => !t.completed);
    FilterEmpty(ts, (t: Task) => t.completed);
    FilterEmpty(ts, (t: Task) => !t.completed);
    Summary(|ts|, |Completed(ts)|, |Pending(ts)|)
  }

  /** Deletion keeps the order of the survivors: the task at index `i`
      moves left by the number of removed tasks before it. */
  lemma RemoveKeepsOrder(ts: seq<Task>, id: TaskId, i: nat)
    requires i < |ts| && ts[i].id != id
    ensures i - CountId(ts[..i], id) < |RemoveById(ts, id)|
    ensures RemoveById(ts, id)[i - CountId(ts[..i], id)] == ts[i]
  {
    FilterKeepsPosition(ts, (t: Task) => t.id != id, i);
    FilterSplit(ts[..i], (t: Task) => t.id == id, (t: Task) => t.id != id);
  }

  /** Deleting from a concatenation deletes from each part. */
  lemma RemoveConcat(a: seq<Task>, b: seq<Task>, id: TaskId)
    ensures RemoveById(a + b, id) == RemoveById(a, id) + RemoveById(b, id)
  {
    FilterConcat(a, b, (t: Task) => t.id != id);
  }

  /** Deleting an id that no task carries changes nothing. */
  lemma RemoveAbsent(ts: seq<Task>, id: TaskId)
    requires !HasId(ts, id)
    ensures RemoveById(ts, id) == ts
  {
    FilterKeepsAll(ts, (t: Task) => t.id != id);
  }

  /** Replacing an id that no task carries changes nothing. */
  lemma ReplaceAbsent(ts: seq<Task>, id: TaskId, data: Task)
    requires !HasId(ts, id)
    ensures ReplaceById(ts, id, data) == ts
  {
  }

  /** A task appended under a fresh id occurs exactly once, at the end. */
  lemma AppendFresh(ts: seq<Task>, t: Task)
    requires !HasId(ts, t.id)
    ensures CountId(ts + [t], t.id) == 1
    ensures forall k :: 0 <= k < |ts| ==> (ts + [t])[k].id != t.id
  {
    FilterConcat(ts, [t], (u: Task) => u.id == t.id);
    FilterEmpty(ts, (u: Task) => u.id == t.id);
  }

  /** Deleting a task just appended under a fresh id restores the list. */
  lemma RemoveUndoesAppend(ts: seq<Task>, t: Task)
    requires !HasId(ts, t.id)
    ensures RemoveById(ts + [t], t.id) == ts
  {
    RemoveConcat(ts, [t], t.id);
    RemoveAbsent(ts, t.id);
  }

  /** Deleting after a replacement that kept the id is the same as deleting outright. */
  lemma {:induction false} RemoveAfterReplace(ts: seq<Task>, id: TaskId, data: Task)
    requires data.id == id
    ensures RemoveById(ReplaceById(ts, id, data), id) == RemoveById(ts, id)
  {
    if ts != [] {
      var r := ReplaceById(ts, id, data);
      assert r == [r[0]] + r[1..];
      assert r[1..] == ReplaceById(ts[1..], id, data);
      RemoveConcat([r[0]], r[1..], id);
      assert ts == [ts[0]] + ts[1..];
      RemoveConcat([ts[0]], ts[1..], id);
      RemoveAfterReplace(ts[1..], id, data);
    }
  }

  /** Replacing twice with the same record is the same as replacing once. */
  lemma ReplaceIdempotent(ts: seq<Task>, id: TaskId, data: Task)
    ensures ReplaceById(ReplaceById(ts, id, data), id, data) == ReplaceById(ts, id, data)
  {
  }

  /** The empty list shows zero in every count. */
  lemma SummarizeEmpty()
    ensures Summarize([]) == Summary(0, 0, 0)
  {
  }

  /** Appending a task raises the total by one and, according to its status,
      either the completed or the pending count by one. Together with
      `SummarizeEmpty` this fixes every count by induction over the list:
      `completed` counts the completed tasks and `pending` the others. */
  lemma {:induction false} SummarizeAppend(ts: seq<Task>, t: Task)
    ensures Summarize(ts + [t]).total == Summarize(ts).total + 1
    ensures Summarize(ts + [t]).completed == Summarize(ts).completed + (if t.completed then 1 else 0)
    ensures Summarize(ts + [t]).pending == Summarize(ts).pending + (if t.completed then 0 else 1)
  {
    FilterConcat(ts, [t], (u: Task) => u.completed);
    FilterConcat(ts, [t], (u: Task) => !u.completed);
  }
}
