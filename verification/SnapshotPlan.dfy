/** How a snapshot plan is carried out: serially, in an order of the generated tasks that keeps their ranks, up to the
    first task that fails. */
module SnapshotPlan {

  /** A plan that runs the generated tasks, each as often as generated, lower ranks first; the order among tasks of
      equal rank is free. */
  ghost predicate Reordered<Task>(rank: Task -> nat, plan: seq<Task>, tasks: seq<Task>) {
    && multiset(plan) == multiset(tasks)
    && forall i, j :: 0 <= i < j < |plan| ==> rank(plan[i]) <= rank(plan[j])
  }

  /** One execution: what the hosts replied to each task, and whether it succeeded. */
  datatype Run<!Replies> = Run(replies: nat -> Replies, succeeds: nat -> bool)

  /** Tasks of rank 0 are checks and succeed as their callbacks do; others may do as they like. */
  ghost predicate Faithful<Task, Replies>(rank: Task -> nat, passes: (Task, Replies) -> bool, run: Run<Replies>,
                                          plan: seq<Task>)
  {
    forall i :: 0 <= i < |plan| && rank(plan[i]) == 0 ==> (run.succeeds(i) <==> passes(plan[i], run.replies(i)))
  }

  /** Task `i` is executed: everything before it succeeded. */
  ghost predicate Executed<Replies>(run: Run<Replies>, i: nat) {
    forall j :: 0 <= j < i ==> run.succeeds(j)
  }

  /** Before an executed task of positive rank, every check of the plan was made and passed. */
  lemma {:induction false} CheckedBefore<Task, Replies>(rank: Task -> nat, passes: (Task, Replies) -> bool,
      plan: seq<Task>, tasks: seq<Task>, run: Run<Replies>, check: Task, i: nat) returns (j: nat)
    requires Reordered(rank, plan, tasks) && Faithful(rank, passes, run, plan) && check in tasks && rank(check) == 0
    requires i < |plan| && rank(plan[i]) > 0 && Executed(run, i)
    ensures j < i && plan[j] == check && passes(check, run.replies(j))
  {
    assert check in multiset(plan);
    j :| 0 <= j < |plan| && plan[j] == check;
  }
}
