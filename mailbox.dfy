/**
 * A session's mailbox (`SessionTasksImpl`): a FIFO queue of events and a
 * three-valued run status. Each synchronized method is one atomic step; the
 * thread pool is reduced to whether a drain task has been handed to it and
 * has not yet found the queue empty.
 */
module Mailbox {
  import opened Wrappers

  datatype RunStatus = EMPTY | ENQUEUED | RUNNING

  class SessionTasks<E> {
    var status: RunStatus
    var queue: seq<E>
    /** A drain task (`run`) has been submitted to the executor and is not finished. */
    var drainPending: bool

    /**
     * Nothing waits in an EMPTY mailbox, and a drain task is outstanding
     * exactly when the status is not EMPTY: there is never a second one.
     */
    predicate Valid()
      reads this
    {
      (status == EMPTY ==> queue == []) && (status == EMPTY <==> !drainPending)
    }

    constructor ()
      ensures Valid() && status == EMPTY && queue == [] && !drainPending
    {
      status := EMPTY;
      queue := [];
      drainPending := false;
    }

    /**
     * `enqueueAndExecute`: the event always joins the back of the queue; the
     * drain task is submitted exactly when the status was EMPTY, which then
     * becomes ENQUEUED. Otherwise the status is left alone.
     */
    method EnqueueAndExecute(e: E) returns (submit: bool)
      requires Valid()
      modifies this
      ensures Valid() && queue == old(queue) + [e]
      ensures submit <==> old(status) == EMPTY
      ensures submit ==> !old(drainPending) && status == ENQUEUED && drainPending
      ensures !submit ==> status == old(status) && drainPending == old(drainPending)
    {
      submit := false;
      if status == EMPTY {
        status := ENQUEUED;
        submit := true;
      }
      queue := queue + [e];
      if submit {
        drainPending := true;
      }
    }

    /**
     * `getNextEvent`, as the drain task calls it: the head of the queue, and
     * the status RUNNING; or, on an empty queue, none, the status EMPTY and
     * the drain task done.
     */
    method GetNextEvent() returns (e: Option<E>)
      requires Valid() && drainPending
      modifies this
      ensures Valid()
      ensures old(queue) == [] ==> e.None? && queue == [] && status == EMPTY && !drainPending
      ensures old(queue) != [] ==>
        e == Some(old(queue)[0]) && queue == old(queue)[1..] && status == RUNNING && drainPending
    {
      if queue == [] {
        e := None;
        status := EMPTY;
        drainPending := false;
      } else {
        e := Some(queue[0]);
        queue := queue[1..];
        status := RUNNING;
      }
    }

    /**
     * `run`: the events are handed on (`handled`, in the order the handler
     * sees them) exactly in the order they were enqueued, until the queue is
     * empty; the mailbox is then EMPTY with no drain task outstanding.
     */
    method Run() returns (handled: seq<E>)
      requires Valid() && drainPending
      modifies this
      ensures Valid() && handled == old(queue)
      ensures queue == [] && status == EMPTY && !drainPending
    {
      handled := [];
      var e := GetNextEvent();
      while e.Some?
        invariant Valid()
        invariant handled + (if e.Some? then [e.value] else []) + queue == old(queue)
        invariant e.Some? ==> status == RUNNING && drainPending
        invariant e.None? ==> queue == [] && status == EMPTY && !drainPending
        decreases |queue| + (if e.Some? then 1 else 0)
      {
        handled := handled + [e.value];
        e := GetNextEvent();
      }
    }
  }
}
