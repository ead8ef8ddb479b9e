/**
 * The `TimeTracker` class without its DOM, interval and storage calls: the
 * fields of `this.data` (with `currentTimer` spread into its four fields)
 * updated in place, statement by statement as the source does. Each method is
 * specified by the matching function of module Engine applied to the state it
 * started from.
 */
module Tracker {
  import opened Domain
  import opened JsText
  import Sessions
  import Engine
  import Persistence

  class TimeTracker {
    var projects: seq<Project>
    var workSessions: seq<WorkSession>
    var activeProject: Option<string>
    // this.data.currentTimer
    var isRunning: bool
    var startTime: Option<int>
    var elapsedTime: int
    var sessionName: string

    /** The whole of `this.data` as a value. */
    function Data(): AppState
      reads this
    {
      AppState(projects, workSessions, activeProject, Timer(isRunning, startTime, elapsedTime, sessionName))
    }

    /**
     * `new TimeTracker()`: the default data, then `loadData`, then
     * `resumeTimer` when a running timer with a start time was stored.
     */
    constructor (stored: Persistence.StoredSlot, now: int)
      ensures Data() == Persistence.LoadData(DefaultState, stored)
    {
      projects, workSessions, activeProject := [], [], None;
      isRunning, startTime, elapsedTime, sessionName := false, None, 0, "";
      new;
      LoadData(stored);
      if isRunning && StartTimeSet(startTime) {
        ResumeTimer(now);
      }
    }

    /** `loadData`: a parsed snapshot is shallow-merged over the current data. */
    method LoadData(stored: Persistence.StoredSlot)
      modifies this
      ensures Data() == Persistence.LoadData(old(Data()), stored)
    {
      if stored.Parsed? {
        var merged := Persistence.Merge(Data(), stored.snapshot);
        projects, workSessions, activeProject := merged.projects, merged.workSessions, merged.activeProject;
        isRunning, startTime := merged.currentTimer.isRunning, merged.currentTimer.startTime;
        elapsedTime, sessionName := merged.currentTimer.elapsedTime, merged.currentTimer.sessionName;
      }
    }

    /** `startTimer`, with the text of the session-name box as `sessionInput`. */
    method StartTimer(now: int, sessionInput: string) returns (error: Option<Engine.ValidationError>)
      modifies this
      ensures var r := Engine.StartTimer(old(Data()), now, sessionInput);
        if r.Success? then error == None && Data() == r.value
        else error == Some(r.error) && Data() == old(Data())
    {
      if !ProjectSelected(activeProject) {
        return Some(Engine.NoProjectSelected);
      }
      var name := Trim(sessionInput);
      if name == "" {
        return Some(Engine.MissingSessionName);
      }
      isRunning := true;
      startTime := Some(now - elapsedTime);
      sessionName := name;
      error := None;
    }

    /** `resumeTimer`: recomputes the start time from the elapsed time at `now`. */
    method ResumeTimer(now: int)
      modifies this
      ensures Data() == Engine.ResumeTimer(old(Data()), now) == old(Data())
    {
      if StartTimeSet(startTime) {
        var expectedElapsed := now - startTime.value;
        startTime := Some(now - expectedElapsed);
      }
    }

    /** `pauseTimer`. */
    method PauseTimer(now: int)
      modifies this
      ensures Data() == Engine.PauseTimer(old(Data()), now)
    {
      if !isRunning {
        return;
      }
      isRunning := false;
      if StartTimeSet(startTime) {
        elapsedTime := now - startTime.value;
      }
    }

    /** `stopTimer`, with `sessionId` the id `generateId` would make. */
    method StopTimer(now: int, sessionId: string)
      modifies this
      ensures Data() == Engine.StopTimer(old(Data()), now, sessionId)
    {
      if elapsedTime == 0 && !isRunning {
        return;
      }
      var finalDuration := elapsedTime;
      if isRunning && StartTimeSet(startTime) {
        finalDuration := now - startTime.value;
      }
      if finalDuration >= MinSessionDuration {
        var session := WorkSession(
          sessionId,
          activeProject,
          if sessionName != "" then sessionName else UntitledSession,
          if StartTimeSet(startTime) then startTime.value else now - finalDuration,
          now,
          finalDuration);
        workSessions := workSessions + [session];
      }
      ResetTimer();
    }

    /** `resetTimer`. */
    method ResetTimer()
      modifies this
      ensures Data() == Engine.ResetTimer(old(Data()))
    {
      isRunning := false;
      startTime := None;
      elapsedTime := 0;
      sessionName := "";
    }

    /** `createProject`, with `id` the id `generateId` would make. */
    method CreateProject(id: string, name: string, now: int) returns (project: Project)
      modifies this
      ensures project == Engine.NewProject(id, name, now)
      ensures Data() == Engine.CreateProject(old(Data()), id, name, now)
    {
      ghost var before := Data();
      project := Project(id, Trim(name), now);
      projects := projects + [project];
      assert Data() == before.(projects := before.projects + [project]);
    }

    /** `selectProject`. */
    method SelectProject(projectId: Option<string>)
      modifies this
      ensures Data() == Engine.SelectProject(old(Data()), projectId)
    {
      activeProject := projectId;
    }

    /** `deleteProject`. */
    method DeleteProject(projectId: string)
      modifies this
      ensures Data() == Engine.DeleteProject(old(Data()), projectId)
    {
      projects := Sessions.ProjectsExcept(projects, projectId);
      workSessions := Sessions.SessionsExcept(workSessions, projectId);
      if activeProject == Some(projectId) {
        activeProject := None;
        ResetTimer();
      }
    }

    /** `getProjectSessions`: the project's sessions, in the order they were recorded. */
    function GetProjectSessions(projectId: string): (r: seq<WorkSession>)
      reads this
      ensures r == Sessions.SessionsOf(workSessions, projectId)
      ensures forall w :: w in r <==> w in workSessions && w.projectId == Some(projectId)
    {
      Sessions.SessionsOf(workSessions, projectId)
    }

    /**
     * `getProjectTotalTime`: the sum of the project's session durations; 0
     * without sessions, and at least a second per session in a valid state.
     */
    function GetProjectTotalTime(projectId: string): (r: int)
      reads this
      ensures r == Sessions.TotalDuration(GetProjectSessions(projectId))
      ensures GetProjectSessions(projectId) == [] ==> r == 0
      ensures Engine.Valid(Data()) ==> r >= MinSessionDuration * |GetProjectSessions(projectId)| >= 0
    {
      Sessions.ProjectTotalBounds(workSessions, projectId);
      Sessions.TotalDuration(Sessions.SessionsOf(workSessions, projectId))
    }
  }
}
