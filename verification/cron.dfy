/**
 * The reminder scheduler: a flag saying whether it runs and the node-cron task
 * it created. Every tick of the cron task runs both reminder passes and swallows
 * their errors; a manual run returns their result or passes their error on.
 *
 * The schedule expression and the clock of the cron task are not modelled: the
 * next run time the cron task reports is an input of GetStatus.
 */
module Cron {
  import opened Common
  import opened Schema
  import opened BookingStore
  import opened Email
  import opened Reminders

  /** A scheduled task: whether it is started. */
  datatype Task = Task(started: bool)

  /** `{isRunning, nextRun}` as getStatus reports it. */
  datatype Status = Status(isRunning: bool, nextRun: Option<int>)

  class ReminderCron {
    var isRunning: bool
    /** `this.task`: absent until the first start. */
    var task: Option<Task>
    /** How many tasks start has scheduled so far. */
    var tasksCreated: nat

    /** The flag tells exactly whether the current task is started. */
    predicate Valid()
      reads this
    {
      isRunning <==> task.Some? && task.value.started
    }

    constructor()
      ensures Valid()
      ensures !isRunning && task.None? && tasksCreated == 0
    {
      isRunning := false;
      task := None;
      tasksCreated := 0;
    }

    /** start: a no-op while running; otherwise schedules a new task and starts it. */
    method Start()
      requires Valid()
      modifies this
      ensures Valid()
      ensures isRunning
      ensures old(isRunning) ==> task == old(task) && tasksCreated == old(tasksCreated)
      ensures !old(isRunning) ==> task == Some(Task(true)) && tasksCreated == old(tasksCreated) + 1
    {
      if isRunning {
        return;
      }
      task := Some(Task(false));
      tasksCreated := tasksCreated + 1;
      task := Some(task.value.(started := true));
      isRunning := true;
    }

    /** stop: a no-op while stopped; otherwise stops the cron task, which stays assigned. */
    method Stop()
      requires Valid()
      modifies this
      ensures Valid()
      ensures !isRunning
      ensures !old(isRunning) ==> task == old(task)
      ensures old(isRunning) ==> task == Some(Task(false))
      ensures tasksCreated == old(tasksCreated)
    {
      if !isRunning {
        return;
      }
      task := Some(task.value.(started := false));
      isRunning := false;
    }

    /** getStatus: the next run time (the cron task's answer `nextDate`) only while running. */
    method GetStatus(nextDate: int) returns (s: Status)
      requires Valid()
      ensures s.isRunning == isRunning
      ensures s.nextRun.None? <==> !isRunning
      ensures s.nextRun.Some? ==> s.nextRun.value == nextDate && task.Some? && task.value.started
    {
      s := Status(isRunning, if isRunning then Some(nextDate) else None);
    }

    /**
     * The scheduled callback: both passes run; an error is logged and
     * swallowed, so the caller only learns whether one was caught.
     */
    method Tick(mailer: EmailService, store: Store, now: int,
                selection24h: Option<string>, outcome24h: nat -> Delivery,
                selection1h: Option<string>, outcome1h: nat -> Delivery)
      returns (caught: Option<string>)
      requires store.Valid()
      modifies mailer, store
      ensures store.Valid()
      ensures caught.None? <==> selection24h.None? && selection1h.None?
      ensures caught.Some? ==> caught.value == (if selection24h.Some? then selection24h.value else selection1h.value)
      ensures RemindersDone(old(store.db), old(mailer.outbox), store.db, mailer.outbox, now,
                            selection24h, outcome24h, selection1h, outcome1h)
      ensures isRunning == old(isRunning) && task == old(task)
    {
      var results := ProcessAllReminders(mailer, store, now, selection24h, outcome24h, selection1h, outcome1h);
      caught := if results.Err? then Some(results.error) else None;
    }

    /** runManually: the result of both passes, or their error passed on; the schedule is untouched. */
    method RunManually(mailer: EmailService, store: Store, now: int,
                       selection24h: Option<string>, outcome24h: nat -> Delivery,
                       selection1h: Option<string>, outcome1h: nat -> Delivery)
      returns (r: Result<Totals>)
      requires store.Valid()
      modifies mailer, store
      ensures store.Valid()
      ensures r.Ok? <==> selection24h.None? && selection1h.None?
      ensures r.Err? ==> r.error == (if selection24h.Some? then selection24h.value else selection1h.value)
      ensures r.Ok? ==>
                var rows24 := DueRows(old(store.db), Reminder24h, now);
                var rows1 := DueRows(old(store.db), Reminder1h, now);
                && r.value.total.sent + r.value.total.errors == |rows24| + |rows1|
                && r.value.total.sent == DeliveredCount(outcome24h, |rows24|) + DeliveredCount(outcome1h, |rows1|)
                && r.value.reminder24h.sent + r.value.reminder24h.errors == |rows24|
                && r.value.reminder24h.sent == DeliveredCount(outcome24h, |rows24|)
                && r.value.reminder1h.sent + r.value.reminder1h.errors == |rows1|
                && r.value.reminder1h.sent == DeliveredCount(outcome1h, |rows1|)
      ensures RemindersDone(old(store.db), old(mailer.outbox), store.db, mailer.outbox, now,
                            selection24h, outcome24h, selection1h, outcome1h)
      ensures isRunning == old(isRunning) && task == old(task)
    {
      r := ProcessAllReminders(mailer, store, now, selection24h, outcome24h, selection1h, outcome1h);
    }
  }
}
