/** The task records and the three list transforms the handlers apply to them:
    the `map` that flips `done`, the `map` that overwrites `title`, and the
    `filter` that drops a task. Each acts on EVERY task whose id matches, since
    ids come from a random generator and nothing keeps them distinct. */
module Tasks {

  /** An opaque task identifier, compared only for equality. */
  type TaskId(==, !new)

  datatype Task = Task(id: TaskId, title: string, done: bool)

  /** Some task in `tasks` carries `id`. */
  predicate HasId(tasks: seq<Task>, id: TaskId) {
    exists i :: 0 <= i < |tasks| && tasks[i].id == id
  }

  /** No two tasks share an id. */
  predicate UniqueIds(tasks: seq<Task>) {
    forall i, j :: 0 <= i < j < |tasks| ==> tasks[i].id != tasks[j].id
  }

  /** The number of tasks carrying `id`. */
  function Count(tasks: seq<Task>, id: TaskId): (n: nat)
    ensures n <= |tasks|
    ensures n == 0 <==> !HasId(tasks, id)
  {
    if tasks == [] then 0
    else (if tasks[0].id == id then 1 else 0) + Count(tasks[1..], id)
  }

  /** `a` is `b` with some elements left out, the rest in their original order. */
  predicate IsSubsequence(a: seq<Task>, b: seq<Task>)
    decreases |b|
  {
    if a == [] then true
    else if b == [] then false
    else if a[0] == b[0] then IsSubsequence(a[1..], b[1..])
    else IsSubsequence(a, b[1..])
  }

  /** The list toggleTaskStatus installs: `done` negated on every task with
      that id; every other field and every other task kept, in order. */
  function Toggled(tasks: seq<Task>, id: TaskId): (r: seq<Task>)
    ensures |r| == |tasks|
    ensures forall i :: 0 <= i < |tasks| ==>
              r[i].id == tasks[i].id && r[i].title == tasks[i].title &&
              (r[i].done <==> (if tasks[i].id == id then !tasks[i].done else tasks[i].done))
  {
    if tasks == [] then []
    else
      var t := tasks[0];
      [if t.id == id then t.(done := !t.done) else t] + Toggled(tasks[1..], id)
  }

  /** The list saveTaskTitle installs: `title` replaced by `newTitle` on every
      task with that id (the empty string included); ids, `done` flags, order
      and length kept. */
  function Retitled(tasks: seq<Task>, id: TaskId, newTitle: string): (r: seq<Task>)
    ensures |r| == |tasks|
    ensures forall i :: 0 <= i < |tasks| ==>
              r[i].id == tasks[i].id && r[i].done == tasks[i].done &&
              r[i].title == (if tasks[i].id == id then newTitle else tasks[i].title)
  {
    if tasks == [] then []
    else
      var t := tasks[0];
      [if t.id == id then t.(title := newTitle) else t] + Retitled(tasks[1..], id, newTitle)
  }

  /** The list deleteTask installs: exactly the tasks whose id differs, in their
      original order; its length drops by the number of tasks with that id. */
  function Without(tasks: seq<Task>, id: TaskId): (r: seq<Task>)
    ensures |r| == |tasks| - Count(tasks, id)
    ensures !HasId(r, id)
    ensures forall t :: t in r <==> t in tasks && t.id != id
    ensures IsSubsequence(r, tasks)
  {
    if tasks == [] then []
    else if tasks[0].id == id then Without(tasks[1..], id)
    else [tasks[0]] + Without(tasks[1..], id)
  }

  // ----- toggleTaskStatus -----

  /** Toggling the same id twice restores the original list. */
  lemma ToggledTwice(tasks: seq<Task>, id: TaskId)
    ensures Toggled(Toggled(tasks, id), id) == tasks
  {
  }

  /** Toggling an id no task carries leaves the list as it was. */
  lemma ToggledAbsent(tasks: seq<Task>, id: TaskId)
    requires !HasId(tasks, id)
    ensures Toggled(tasks, id) == tasks
  {
  }

  /** Toggling keeps the id sequence, so a list with distinct ids keeps them. */
  lemma ToggledKeepsUniqueIds(tasks: seq<Task>, id: TaskId)
    ensures UniqueIds(tasks) ==> UniqueIds(Toggled(tasks, id))
  {
  }

  // ----- saveTaskTitle -----

  /** Saving under an id no task carries leaves the list as it was. */
  lemma RetitledAbsent(tasks: seq<Task>, id: TaskId, newTitle: string)
    requires !HasId(tasks, id)
    ensures Retitled(tasks, id, newTitle) == tasks
  {
  }

  /** Two saves under the same id: the second title wins and the first leaves no trace. */
  lemma RetitledLastWins(tasks: seq<Task>, id: TaskId, first: string, second: string)
    ensures Retitled(Retitled(tasks, id, first), id, second) == Retitled(tasks, id, second)
  {
  }

  /** Saving a task's own title back (what a blur with an untouched draft does
      when ids are distinct) leaves the list as it was. */
  lemma RetitledSameTitle(tasks: seq<Task>, k: nat)
    requires k < |tasks| && UniqueIds(tasks)
    ensures Retitled(tasks, tasks[k].id, tasks[k].title) == tasks
  {
  }

  /** Saving keeps the id sequence, so a list with distinct ids keeps them. */
  lemma RetitledKeepsUniqueIds(tasks: seq<Task>, id: TaskId, newTitle: string)
    ensures UniqueIds(tasks) ==> UniqueIds(Retitled(tasks, id, newTitle))
  {
  }

  // ----- deleteTask -----

  /** Deleting an id no task carries leaves the list as it was. */
  lemma {:induction false} WithoutAbsent(tasks: seq<Task>, id: TaskId)
    requires !HasId(tasks, id)
    ensures Without(tasks, id) == tasks
  {
    if tasks != [] {
      assert tasks[0].id != id;
      assert !HasId(tasks[1..], id) by {
        forall i | 0 <= i < |tasks| - 1 ensures tasks[1..][i].id != id {
          assert tasks[1..][i] == tasks[i + 1];
        }
      }
      WithoutAbsent(tasks[1..], id);
    }
  }

  /** Deleting distributes over concatenation: survivors keep their relative order. */
  lemma {:induction false} WithoutConcat(a: seq<Task>, b: seq<Task>, id: TaskId)
    ensures Without(a + b, id) == Without(a, id) + Without(b, id)
  {
    if a == [] {
      assert a + b == b;
    } else {
      assert (a + b)[0] == a[0];
      assert (a + b)[1..] == a[1..] + b;
      WithoutConcat(a[1..], b, id);
    }
  }

  /** Deleting the same id twice is the same as deleting it once. */
  lemma WithoutIdempotent(tasks: seq<Task>, id: TaskId)
    ensures Without(Without(tasks, id), id) == Without(tasks, id)
  {
    WithoutAbsent(Without(tasks, id), id);
  }

  /** With distinct ids, an id occurs at most once. */
  lemma {:induction false} CountUnique(tasks: seq<Task>, id: TaskId)
    requires UniqueIds(tasks)
    ensures Count(tasks, id) == if HasId(tasks, id) then 1 else 0
  {
    if tasks != [] {
      var rest := tasks[1..];
      assert UniqueIds(rest) by {
        forall i, j | 0 <= i < j < |rest| ensures rest[i].id != rest[j].id {
          assert rest[i] == tasks[i + 1] && rest[j] == tasks[j + 1];
        }
      }
      CountUnique(rest, id);
      if tasks[0].id == id {
        assert !HasId(rest, id) by {
          forall i | 0 <= i < |rest| ensures rest[i].id != id {
            assert rest[i] == tasks[i + 1];
          }
        }
      } else if HasId(tasks, id) {
        var i :| 0 <= i < |tasks| && tasks[i].id == id;
        assert rest[i - 1] == tasks[i];
      }
    }
  }

  /** With distinct ids, deleting a present id removes exactly one task. */
  lemma WithoutUniquePresent(tasks: seq<Task>, id: TaskId)
    requires UniqueIds(tasks) && HasId(tasks, id)
    ensures |Without(tasks, id)| == |tasks| - 1
  {
    CountUnique(tasks, id);
  }

  /** A subsequence of a list with distinct ids has distinct ids. */
  lemma {:induction false} SubsequenceKeepsUniqueIds(a: seq<Task>, b: seq<Task>)
    requires IsSubsequence(a, b) && UniqueIds(b)
    ensures UniqueIds(a)
    decreases |b|
  {
    if a != [] && b != [] {
      var tail := b[1..];
      assert UniqueIds(tail) by {
        forall i, j | 0 <= i < j < |tail| ensures tail[i].id != tail[j].id {
          assert tail[i] == b[i + 1] && tail[j] == b[j + 1];
        }
      }
      if a[0] == b[0] {
        SubsequenceKeepsUniqueIds(a[1..], tail);
        SubsequenceElements(a[1..], tail);
        forall i, j | 0 <= i < j < |a| ensures a[i].id != a[j].id {
          if i == 0 {
            assert a[j] == a[1..][j - 1];
            assert a[j] in tail;
            var m :| 0 <= m < |tail| && tail[m] == a[j];
            assert b[m + 1] == a[j];
          } else {
            assert a[i] == a[1..][i - 1] && a[j] == a[1..][j - 1];
          }
        }
      } else {
        SubsequenceKeepsUniqueIds(a, tail);
      }
    }
  }

  /** Every element of a subsequence is an element of the whole. */
  lemma {:induction false} SubsequenceElements(a: seq<Task>, b: seq<Task>)
    requires IsSubsequence(a, b)
    ensures forall t :: t in a ==> t in b
    decreases |b|
  {
    if a != [] && b != [] {
      if a[0] == b[0] {
        SubsequenceElements(a[1..], b[1..]);
        assert forall t :: t in a ==> t == a[0] || t in a[1..];
      } else {
        SubsequenceElements(a, b[1..]);
      }
    }
  }

  /** Deleting keeps distinct ids distinct. */
  lemma WithoutKeepsUniqueIds(tasks: seq<Task>, id: TaskId)
    ensures UniqueIds(tasks) ==> UniqueIds(Without(tasks, id))
  {
    if UniqueIds(tasks) {
      SubsequenceKeepsUniqueIds(Without(tasks, id), tasks);
    }
  }

  // ----- addTask -----

  /** Appending a task whose id no task carries keeps ids distinct. */
  lemma AppendFreshKeepsUniqueIds(tasks: seq<Task>, t: Task)
    ensures UniqueIds(tasks) && !HasId(tasks, t.id) ==> UniqueIds(tasks + [t])
  {
  }
}
