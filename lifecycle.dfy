/**
 * Start-up and shutdown guards over the two process-wide handles, the shared
 * HTTP session and the updater loop's task (xrpbot.py, `on_ready` and
 * `_shutdown`). Both handlers are safe to run repeatedly: `on_ready` replaces
 * a handle only when it is absent or finished, `_shutdown` acts only on a
 * live one.
 */
module Lifecycle {

  /** The shared HTTP session; only whether it has been closed matters here. */
  class Session {
    var closed: bool

    constructor ()
      ensures !closed
    {
      closed := false;
    }

    method Close()
      modifies this
      ensures closed
    {
      closed := true;
    }
  }

  /** The updater loop's task; only whether it has finished matters here. */
  class Task {
    var done: bool

    constructor ()
      ensures !done
    {
      done := false;
    }

    /** `task.cancel()`, then awaiting it with the cancellation suppressed: the task has ended. */
    method CancelAndWait()
      modifies this
      ensures done
    {
      done := true;
    }
  }

  datatype SessionState = NoSession | Open | Closed
  datatype TaskState = NoTask | Running | Done

  /** The abstract view of the two handles. */
  datatype Handles = Handles(session: SessionState, task: TaskState)

  /**
   * What `on_ready` leaves: an open session and a running task, the ones
   * already there when they were open and running.
   */
  function ReadyStep(h: Handles): (r: Handles)
    ensures r.session == Open && r.task == Running
  {
    Handles(if h.session == Open then h.session else Open,
            if h.task == Running then h.task else Running)
  }

  /**
   * What `_shutdown` leaves: no open session and no running task; a handle
   * that was not live is left as it was, so a second shutdown changes nothing.
   */
  function ShutdownStep(h: Handles): (r: Handles)
    ensures r.session != Open && r.task != Running
    ensures h.session != Open ==> r.session == h.session
    ensures h.task != Running ==> r.task == h.task
  {
    Handles(if h.session == Open then Closed else h.session,
            if h.task == Running then Done else h.task)
  }

  /** Shutting down twice is shutting down once. */
  lemma ShutdownIdempotent(h: Handles)
    ensures ShutdownStep(ShutdownStep(h)) == ShutdownStep(h)
  {
  }

  /** A readiness signal after shutdown starts afresh; a repeated one changes nothing. */
  lemma ReadyIdempotent(h: Handles)
    ensures ReadyStep(ReadyStep(h)) == ReadyStep(h)
    ensures ReadyStep(ShutdownStep(h)) == Handles(Open, Running)
  {
  }

  /** The process-wide handles `_http_session` and `update_task`. */
  class Bot {
    var httpSession: Session?
    var updateTask: Task?

    constructor ()
      ensures httpSession == null && updateTask == null
    {
      httpSession := null;
      updateTask := null;
    }

    function State(): Handles
      reads this, httpSession, updateTask
    {
      Handles(if httpSession == null then NoSession else if httpSession.closed then Closed else Open,
              if updateTask == null then NoTask else if updateTask.done then Done else Running)
    }

    /**
     * `on_ready`: a new session only when there is none or it is closed, a
     * new loop task only when there is none or it has finished; otherwise the
     * existing handle is kept.
     */
    method OnReady() returns (createdSession: bool, spawnedTask: bool)
      modifies this
      ensures State() == ReadyStep(old(State()))
      ensures createdSession <==> old(State()).session != Open
      ensures spawnedTask <==> old(State()).task != Running
      ensures if createdSession then fresh(httpSession) else httpSession == old(httpSession)
      ensures if spawnedTask then fresh(updateTask) else updateTask == old(updateTask)
    {
      createdSession := httpSession == null || httpSession.closed;
      if createdSession {
        httpSession := new Session();
      }
      spawnedTask := updateTask == null || updateTask.done;
      if spawnedTask {
        updateTask := new Task();
      }
    }

    /**
     * `_shutdown`: cancels and awaits the task only while it is running and
     * closes the session only while it is open; the handles themselves stay.
     */
    method Shutdown() returns (cancelled: bool, closed: bool)
      modifies updateTask, httpSession
      ensures State() == ShutdownStep(old(State()))
      ensures cancelled <==> old(State()).task == Running
      ensures closed <==> old(State()).session == Open
      ensures httpSession == old(httpSession) && updateTask == old(updateTask)
    {
      cancelled := updateTask != null && !updateTask.done;
      if cancelled {
        updateTask.CancelAndWait();
      }
      closed := httpSession != null && !httpSession.closed;
      if closed {
        httpSession.Close();
      }
    }
  }
}
