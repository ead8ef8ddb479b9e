/**
 * The tracker's operations as functions from the old `this.data` to the new
 * one. `Date.now()` is the parameter `now`; ids that `generateId` would make
 * are parameters too. The class in module Tracker performs the same steps in
 * place and is specified by these functions.
 */
module Engine {
  import opened Domain
  import opened JsText
  import opened Sessions

  /** Why `startTimer` refused to start: the two alerts it raises. */
  datatype ValidationError = NoProjectSelected | MissingSessionName

  /** The elapsed time `updateTimerDisplay` renders at instant `now`. */
  function DisplayedTime(t: Timer, now: int): (d: int)
    ensures t.isRunning && StartTimeSet(t.startTime) ==> t.startTime.value + d == now
    ensures !(t.isRunning && StartTimeSet(t.startTime)) ==> d >= 0 && d >= t.elapsedTime
    ensures !(t.isRunning && StartTimeSet(t.startTime)) && d != 0 ==> d == t.elapsedTime
  {
    if t.isRunning && StartTimeSet(t.startTime) then now - t.startTime.value
    else if t.elapsedTime > 0 then t.elapsedTime
    else 0
  }

  /** Displayed time never falls as the clock advances, and stays put unless the timer runs with a start time. */
  lemma DisplayedTimeMonotone(t: Timer, earlier: int, later: int)
    requires earlier <= later
    ensures DisplayedTime(t, earlier) <= DisplayedTime(t, later)
    ensures !(t.isRunning && StartTimeSet(t.startTime)) ==> DisplayedTime(t, earlier) == DisplayedTime(t, later)
  {
  }

  // ---------------------------------------------------------------------------
  // Timer state machine

  /**
   * `startTimer`: refuses without a selected project or with a blank session
   * name and then changes nothing; otherwise runs the timer from
   * `now - elapsedTime`, so time already accumulated is kept.
   */
  function StartTimer(s: AppState, now: int, input: string): (r: Result<AppState, ValidationError>)
    ensures r.Success? <==> ProjectSelected(s.activeProject) && Trim(input) != []
    ensures !ProjectSelected(s.activeProject) ==> r == Failure(NoProjectSelected)
    ensures ProjectSelected(s.activeProject) && Trim(input) == [] ==> r == Failure(MissingSessionName)
    ensures r.Success? ==>
      && r.value.projects == s.projects
      && r.value.workSessions == s.workSessions
      && r.value.activeProject == s.activeProject
      && r.value.currentTimer.isRunning
      && r.value.currentTimer.elapsedTime == s.currentTimer.elapsedTime
      && r.value.currentTimer.sessionName == Trim(input) != []
      && r.value.currentTimer.startTime.Some?
      && now - r.value.currentTimer.startTime.value == s.currentTimer.elapsedTime
  {
    if !ProjectSelected(s.activeProject) then Failure(NoProjectSelected)
    else
      var sessionName := Trim(input);
      if sessionName == [] then Failure(MissingSessionName)
      else
        var t := s.currentTimer;
        Success(s.(currentTimer := t.(isRunning := true, startTime := Some(now - t.elapsedTime), sessionName := sessionName)))
  }

  /**
   * `startTimer` refuses exactly when no project is selected or every
   * character typed is whitespace, so a name with any visible character starts it.
   */
  lemma StartTimerRefusesExactly(s: AppState, now: int, input: string)
    ensures StartTimer(s, now, input).Failure? <==>
      !ProjectSelected(s.activeProject) || forall k :: 0 <= k < |input| ==> IsTrimmable(input[k])
  {
    TrimEmptyIffBlank(input);
  }

  /**
   * `resumeTimer` after a reload: the start time is recomputed as
   * `now - (now - startTime)`, which is the start time again, so the time the
   * page was closed counts as elapsed.
   */
  function ResumeTimer(s: AppState, now: int): (r: AppState)
    ensures r == s
  {
    var t := s.currentTimer;
    if StartTimeSet(t.startTime) then
      var expectedElapsed := now - t.startTime.value;
      s.(currentTimer := t.(startTime := Some(now - expectedElapsed)))
    else s
  }

  /**
   * `pauseTimer`: a no-op unless running; otherwise stops running and freezes
   * `now - startTime` into `elapsedTime`. The start time is kept, not cleared.
   */
  function PauseTimer(s: AppState, now: int): (r: AppState)
    ensures !s.currentTimer.isRunning ==> r == s
    ensures !r.currentTimer.isRunning
    ensures r.projects == s.projects && r.workSessions == s.workSessions && r.activeProject == s.activeProject
    ensures r.currentTimer.startTime == s.currentTimer.startTime
    ensures r.currentTimer.sessionName == s.currentTimer.sessionName
    ensures r.currentTimer.elapsedTime ==
      if s.currentTimer.isRunning && StartTimeSet(s.currentTimer.startTime)
      then now - s.currentTimer.startTime.value
      else s.currentTimer.elapsedTime
  {
    var t := s.currentTimer;
    if !t.isRunning then s
    else
      var paused := t.(isRunning := false);
      var frozen := if StartTimeSet(t.startTime) then paused.(elapsedTime := now - t.startTime.value) else paused;
      s.(currentTimer := frozen)
  }

  /** `resetTimer`: the timer goes back to idle, discarding its time; nothing else changes. */
  function ResetTimer(s: AppState): (r: AppState)
    ensures r.currentTimer == IdleTimer
    ensures r.projects == s.projects && r.workSessions == s.workSessions && r.activeProject == s.activeProject
  {
    s.(currentTimer := IdleTimer)
  }

  /** The guard at the top of `stopTimer`: nothing accumulated and not running. */
  predicate StopIsNoOp(t: Timer) {
    t.elapsedTime == 0 && !t.isRunning
  }

  /** The duration `stopTimer` records: the live `now - startTime` when running, else the frozen time. */
  function FinalDuration(t: Timer, now: int): (d: int)
    ensures d > 0 ==> d == DisplayedTime(t, now)
    ensures d != DisplayedTime(t, now) ==> d <= 0 && DisplayedTime(t, now) == 0
  {
    if t.isRunning && StartTimeSet(t.startTime) then now - t.startTime.value else t.elapsedTime
  }

  /** Whether `stopTimer` at `now` appends a session. */
  predicate StopRecords(t: Timer, now: int) {
    !StopIsNoOp(t) && FinalDuration(t, now) >= MinSessionDuration
  }

  /** The session object `stopTimer` builds. */
  function StoppedSession(s: AppState, now: int, sessionId: string): (w: WorkSession)
    ensures w.id == sessionId && w.projectId == s.activeProject && w.endTime == now
    ensures w.duration == FinalDuration(s.currentTimer, now)
    ensures s.currentTimer.sessionName != [] ==> w.name == s.currentTimer.sessionName
    ensures s.currentTimer.sessionName == [] ==> w.name == UntitledSession
    ensures StartTimeSet(s.currentTimer.startTime) ==> w.startTime == s.currentTimer.startTime.value
    ensures !StartTimeSet(s.currentTimer.startTime) ==> w.endTime - w.startTime == w.duration
  {
    var t := s.currentTimer;
    var duration := FinalDuration(t, now);
    WorkSession(
      sessionId,
      s.activeProject,
      if t.sessionName != "" then t.sessionName else UntitledSession,
      if StartTimeSet(t.startTime) then t.startTime.value else now - duration,
      now,
      duration)
  }

  /**
   * `stopTimer`: a no-op when nothing was accumulated and the timer is not
   * running; otherwise appends exactly one session when the final duration
   * is at least a second, and in every case leaves the timer idle.
   */
  function StopTimer(s: AppState, now: int, sessionId: string): (r: AppState)
    ensures StopIsNoOp(s.currentTimer) ==> r == s
    ensures !StopIsNoOp(s.currentTimer) ==> r.currentTimer == IdleTimer
    ensures r.projects == s.projects && r.activeProject == s.activeProject
    ensures !StopRecords(s.currentTimer, now) ==> r.workSessions == s.workSessions
    ensures StopRecords(s.currentTimer, now) ==>
      && |r.workSessions| == |s.workSessions| + 1
      && r.workSessions[..|s.workSessions|] == s.workSessions
      && var w := r.workSessions[|s.workSessions|];
      && w.id == sessionId
      && w.projectId == s.activeProject
      && w.name == (if s.currentTimer.sessionName == "" then UntitledSession else s.currentTimer.sessionName)
      && w.endTime == now
      && w.duration == FinalDuration(s.currentTimer, now) >= MinSessionDuration
  {
    var t := s.currentTimer;
    if StopIsNoOp(t) then s
    else
      var finalDuration := FinalDuration(t, now);
      var recorded :=
        if finalDuration >= MinSessionDuration
        then s.(workSessions := s.workSessions + [StoppedSession(s, now, sessionId)])
        else s;
      ResetTimer(recorded)
  }

  /** A stop straight after a stop (or a reset) changes nothing and records no second session. */
  lemma StopTwiceIsNoOp(s: AppState, now: int, sessionId: string, later: int, laterId: string)
    ensures StopIsNoOp(ResetTimer(s).currentTimer)
    ensures StopTimer(StopTimer(s, now, sessionId), later, laterId) == StopTimer(s, now, sessionId)
  {
  }

  /**
   * Where a recorded session starts: at the timer's start time when one is
   * set, so a running timer yields `endTime - startTime == duration`; a
   * paused timer keeps the start time of its last run, so its session spans
   * the pause too; without a start time the session is placed to end now.
   */
  lemma StoppedSessionInterval(s: AppState, now: int, sessionId: string)
    requires StopRecords(s.currentTimer, now)
    ensures var w := StopTimer(s, now, sessionId).workSessions[|s.workSessions|];
      && (s.currentTimer.isRunning ==> w.endTime - w.startTime == w.duration)
      && (!StartTimeSet(s.currentTimer.startTime) ==> w.endTime - w.startTime == w.duration)
      && (StartTimeSet(s.currentTimer.startTime) ==> w.startTime == s.currentTimer.startTime.value)
  {
    assert StopTimer(s, now, sessionId).workSessions[|s.workSessions|] == StoppedSession(s, now, sessionId);
  }

  /**
   * A stop credits its final duration to the active project's total, and to
   * that project only; every other project's total is unchanged.
   */
  lemma {:induction false} StopCreditsActiveProject(s: AppState, now: int, sessionId: string, projectId: string)
    ensures ProjectTotal(StopTimer(s, now, sessionId).workSessions, projectId)
            == ProjectTotal(s.workSessions, projectId)
               + if StopRecords(s.currentTimer, now) && s.activeProject == Some(projectId)
                 then FinalDuration(s.currentTimer, now) else 0
  {
    if StopRecords(s.currentTimer, now) {
      ProjectTotalAppend(s.workSessions, StoppedSession(s, now, sessionId), projectId);
    }
  }

  // ---------------------------------------------------------------------------
  // Time continuity across start and pause

  /** Starting a stopped timer does not change the time on display at the instant it starts. */
  lemma StartKeepsDisplayedTime(s: AppState, now: int, input: string)
    requires !s.currentTimer.isRunning && s.currentTimer.elapsedTime >= 0
    requires StartTimer(s, now, input).Success?
    ensures DisplayedTime(StartTimer(s, now, input).value.currentTimer, now) == DisplayedTime(s.currentTimer, now)
  {
  }

  /** Pausing does not change the time on display at the instant it pauses, when the clock has not run backwards. */
  lemma PauseKeepsDisplayedTime(s: AppState, now: int)
    requires s.currentTimer.isRunning && StartTimeSet(s.currentTimer.startTime) ==> now >= s.currentTimer.startTime.value
    ensures DisplayedTime(PauseTimer(s, now).currentTimer, now) == DisplayedTime(s.currentTimer, now)
  {
  }

  /**
   * Pausing and starting again at the same instant, with the same name,
   * restores the running timer with its original start time; only the
   * frozen `elapsedTime` the pause wrote remains.
   */
  lemma PauseThenStartRestores(s: AppState, now: int, input: string)
    requires s.currentTimer.isRunning && StartTimeSet(s.currentTimer.startTime)
    requires ProjectSelected(s.activeProject) && s.currentTimer.sessionName == Trim(input) != []
    ensures StartTimer(PauseTimer(s, now), now, input)
            == Success(s.(currentTimer := s.currentTimer.(elapsedTime := now - s.currentTimer.startTime.value)))
  {
  }

  // ---------------------------------------------------------------------------
  // Projects

  /** The project `createProject` builds: the name trimmed, `createdAt` the current time. */
  function NewProject(id: string, name: string, now: int): (p: Project)
    ensures p.id == id && p.createdAt == now
    ensures p.name == Trim(name)
    ensures p.name == [] || (!IsTrimmable(p.name[0]) && !IsTrimmable(p.name[|p.name| - 1]))
  {
    Project(id, Trim(name), now)
  }

  /** `createProject`: appends the new project, with no check on the name; ids stay distinct when the new one is fresh. */
  function CreateProject(s: AppState, id: string, name: string, now: int): (r: AppState)
    ensures r.projects == s.projects + [NewProject(id, name, now)]
    ensures r.workSessions == s.workSessions && r.activeProject == s.activeProject
    ensures r.currentTimer == s.currentTimer
  {
    s.(projects := s.projects + [NewProject(id, name, now)])
  }

  /** `selectProject`: changes the selection and nothing else, in particular not the timer. */
  function SelectProject(s: AppState, projectId: Option<string>): (r: AppState)
    ensures r.activeProject == projectId
    ensures r.projects == s.projects && r.workSessions == s.workSessions && r.currentTimer == s.currentTimer
  {
    s.(activeProject := projectId)
  }

  /**
   * `deleteProject`: drops the project and every session attributed to it;
   * when it was the active project, clears the selection and resets the
   * timer, discarding its time without recording a session.
   */
  function DeleteProject(s: AppState, projectId: string): (r: AppState)
    ensures r.projects == ProjectsExcept(s.projects, projectId)
    ensures r.workSessions == SessionsExcept(s.workSessions, projectId)
    ensures s.activeProject == Some(projectId) ==> r.activeProject == None && r.currentTimer == IdleTimer
    ensures s.activeProject != Some(projectId) ==>
      r.activeProject == s.activeProject && r.currentTimer == s.currentTimer
  {
    var filtered := s.(projects := ProjectsExcept(s.projects, projectId),
                       workSessions := SessionsExcept(s.workSessions, projectId));
    if s.activeProject == Some(projectId) then ResetTimer(filtered.(activeProject := None))
    else filtered
  }

  /**
   * The cascade removes exactly the projects with that id and exactly the
   * sessions attributed to it: the deleted project's total drops to 0, every
   * other project keeps its sessions, in order, and its total.
   */
  lemma DeleteProjectCascade(s: AppState, projectId: string, other: string)
    ensures var r := DeleteProject(s, projectId);
      && (forall p :: p in r.projects <==> p in s.projects && p.id != projectId)
      && (forall w :: w in r.workSessions <==> w in s.workSessions && w.projectId != Some(projectId))
      && SessionsOf(r.workSessions, other) == (if other == projectId then [] else SessionsOf(s.workSessions, other))
      && ProjectTotal(r.workSessions, other) == (if other == projectId then 0 else ProjectTotal(s.workSessions, other))
  {
    SessionsOfAfterExcept(s.workSessions, projectId, other);
  }

  // ---------------------------------------------------------------------------
  // Invariant

  /**
   * What every operation keeps: each recorded session lasted at least a
   * second, and a running timer has a start time.
   */
  predicate Valid(s: AppState) {
    && DurationsAtLeast(s.workSessions, MinSessionDuration)
    && (s.currentTimer.isRunning ==> s.currentTimer.startTime.Some?)
  }

  lemma DefaultStateValid()
    ensures Valid(DefaultState)
  {
  }

  /** Each timer operation keeps `Valid`. */
  lemma TimerOperationsKeepValid(s: AppState, now: int, input: string, sessionId: string)
    requires Valid(s)
    ensures StartTimer(s, now, input).Success? ==> Valid(StartTimer(s, now, input).value)
    ensures Valid(PauseTimer(s, now))
    ensures Valid(ResumeTimer(s, now))
    ensures Valid(ResetTimer(s))
    ensures Valid(StopTimer(s, now, sessionId))
  {
    var r := StopTimer(s, now, sessionId);
    if StopRecords(s.currentTimer, now) {
      forall w | w in r.workSessions ensures w.duration >= MinSessionDuration {
        var i :| 0 <= i < |r.workSessions| && r.workSessions[i] == w;
        if i < |s.workSessions| {
          assert w == s.workSessions[i];
        }
      }
    }
  }

  /** Each project operation keeps `Valid`. */
  lemma ProjectOperationsKeepValid(s: AppState, id: string, name: string, now: int, selection: Option<string>, projectId: string)
    requires Valid(s)
    ensures Valid(CreateProject(s, id, name, now))
    ensures Valid(SelectProject(s, selection))
    ensures Valid(DeleteProject(s, projectId))
  {
    var kept := DeleteProject(s, projectId).workSessions;
    forall w | w in kept ensures w.duration >= MinSessionDuration {
      assert w in s.workSessions;
    }
  }

  /** Project ids stay distinct when every new id is fresh. */
  lemma ProjectIdsStayUnique(s: AppState, id: string, name: string, now: int, projectId: string)
    requires UniqueIds(s.projects)
    ensures (forall p :: p in s.projects ==> p.id != id) ==> UniqueIds(CreateProject(s, id, name, now).projects)
    ensures UniqueIds(DeleteProject(s, projectId).projects)
  {
    if forall p :: p in s.projects ==> p.id != id {
      AppendFreshKeepsUniqueIds(s.projects, NewProject(id, name, now));
    }
    ProjectsExceptKeepsUniqueIds(s.projects, projectId);
  }

  /**
   * Selecting a project, starting an idle timer at `t0` and pausing at `t1`
   * leaves a paused timer that holds `t1 - t0` and keeps `t0` as its start.
   */
  lemma StartThenPause(s: AppState, projectId: string, input: string, t0: int, t1: int)
    requires s.currentTimer == IdleTimer
    requires projectId != "" && Trim(input) != []
    requires t0 != 0
    ensures StartTimer(SelectProject(s, Some(projectId)), t0, input).Success?
    ensures PauseTimer(StartTimer(SelectProject(s, Some(projectId)), t0, input).value, t1)
            == s.(activeProject := Some(projectId), currentTimer := Timer(false, Some(t0), t1 - t0, Trim(input)))
  {
    var running := s.(activeProject := Some(projectId), currentTimer := Timer(true, Some(t0), 0, Trim(input)));
    StartSelectedIdle(s, projectId, input, t0);
    PauseRunning(running, t1);
  }

  /**
   * A whole run: select a project, start at `t0`, pause at `t1`, stop at
   * `t2`. Exactly one session is recorded, for the selected project, named as
   * typed (trimmed), spanning from the start to the stop and lasting the
   * `t1 - t0` that ran before the pause; the timer ends idle.
   */
  lemma StartPauseStop(s: AppState, projectId: string, input: string, t0: int, t1: int, t2: int, sessionId: string)
    requires s.currentTimer == IdleTimer
    requires projectId != "" && Trim(input) != []
    requires t0 != 0 && t1 - t0 >= MinSessionDuration
    ensures StartTimer(SelectProject(s, Some(projectId)), t0, input).Success?
    ensures StopTimer(PauseTimer(StartTimer(SelectProject(s, Some(projectId)), t0, input).value, t1), t2, sessionId)
            == s.(activeProject := Some(projectId),
                  workSessions := s.workSessions + [WorkSession(sessionId, Some(projectId), Trim(input), t0, t2, t1 - t0)],
                  currentTimer := IdleTimer)
  {
    StartThenPause(s, projectId, input, t0, t1);
    var paused := s.(activeProject := Some(projectId), currentTimer := Timer(false, Some(t0), t1 - t0, Trim(input)));
    StopPaused(paused, t2, sessionId);
  }

  /** After such a run the selected project's total has grown by exactly the `t1 - t0` timed. */
  lemma StartPauseStopTotal(s: AppState, projectId: string, input: string, t0: int, t1: int, t2: int, sessionId: string)
    requires s.currentTimer == IdleTimer
    requires projectId != "" && Trim(input) != []
    requires t0 != 0 && t1 - t0 >= MinSessionDuration
    ensures StartTimer(SelectProject(s, Some(projectId)), t0, input).Success?
    ensures ProjectTotal(StopTimer(PauseTimer(StartTimer(SelectProject(s, Some(projectId)), t0, input).value, t1), t2, sessionId).workSessions, projectId)
            == ProjectTotal(s.workSessions, projectId) + (t1 - t0)
  {
    StartPauseStop(s, projectId, input, t0, t1, t2, sessionId);
    ProjectTotalAppend(s.workSessions, WorkSession(sessionId, Some(projectId), Trim(input), t0, t2, t1 - t0), projectId);
  }

  /** Starting an idle timer on a freshly selected project runs it from `now` with the trimmed name. */
  lemma StartSelectedIdle(s: AppState, projectId: string, input: string, now: int)
    requires s.currentTimer == IdleTimer
    requires projectId != "" && Trim(input) != []
    ensures StartTimer(SelectProject(s, Some(projectId)), now, input)
            == Success(s.(activeProject := Some(projectId), currentTimer := Timer(true, Some(now), 0, Trim(input))))
  {
  }

  /** Pausing a running timer with a start time freezes `now - startTime` and keeps everything else. */
  lemma PauseRunning(s: AppState, now: int)
    requires s.currentTimer.isRunning && StartTimeSet(s.currentTimer.startTime)
    ensures PauseTimer(s, now)
            == s.(currentTimer := s.currentTimer.(isRunning := false, elapsedTime := now - s.currentTimer.startTime.value))
  {
  }

  /** Stopping a paused timer that holds at least a second records its frozen time from its start time. */
  lemma StopPaused(s: AppState, now: int, sessionId: string)
    requires !s.currentTimer.isRunning && StartTimeSet(s.currentTimer.startTime)
    requires s.currentTimer.elapsedTime >= MinSessionDuration && s.currentTimer.sessionName != ""
    ensures StopTimer(s, now, sessionId) == s.(
      workSessions := s.workSessions + [WorkSession(sessionId, s.activeProject, s.currentTimer.sessionName,
                                                    s.currentTimer.startTime.value, now, s.currentTimer.elapsedTime)],
      currentTimer := IdleTimer)
  {
  }
}
