/**
 * The data the time tracker keeps in `this.data`: projects, work sessions,
 * the active project and the single running/paused timer.
 *
 * Timestamps and durations are integer milliseconds, as `Date.now()` returns them.
 */
module Domain {

  datatype Option<+T> = None | Some(value: T)

  datatype Result<+T, +E> = Success(value: T) | Failure(error: E)

  /** A project: created once, never edited, only deleted. */
  datatype Project = Project(id: string, name: string, createdAt: int)

  /**
   * A recorded work interval. `projectId` is whatever the active project was
   * when the timer was stopped, which may be null.
   */
  datatype WorkSession = WorkSession(
    id: string,
    projectId: Option<string>,
    name: string,
    startTime: int,
    endTime: int,
    duration: int)

  /**
   * `currentTimer`. While running, the elapsed time is `now - startTime`;
   * while paused, `elapsedTime` holds the frozen value.
   */
  datatype Timer = Timer(
    isRunning: bool,
    startTime: Option<int>,
    elapsedTime: int,
    sessionName: string)

  /** The aggregate the tracker owns and persists as a whole. */
  datatype AppState = AppState(
    projects: seq<Project>,
    workSessions: seq<WorkSession>,
    activeProject: Option<string>,
    currentTimer: Timer)

  /** The timer as `resetTimer` leaves it and as the constructor creates it. */
  const IdleTimer: Timer := Timer(false, None, 0, "")

  /** The state before anything is loaded. */
  const DefaultState: AppState := AppState([], [], None, IdleTimer)

  /** A stop records a session only when at least this many milliseconds were timed. */
  const MinSessionDuration: int := 1000

  /** The name a session gets when the timer had none. */
  const UntitledSession: string := "Untitled Session"

  /**
   * JavaScript truthiness of `startTime`, a number or null: null and 0 are
   * both falsy.
   */
  predicate StartTimeSet(startTime: Option<int>): (r: bool)
    ensures r ==> startTime.Some?
    ensures startTime == Some(0) ==> !r
    ensures startTime.Some? && startTime.value != 0 ==> r
  {
    startTime.Some? && startTime.value != 0
  }

  /**
   * JavaScript truthiness of `activeProject`, a string or null: null and the
   * empty string are both falsy.
   */
  predicate ProjectSelected(activeProject: Option<string>): (r: bool)
    ensures r ==> activeProject.Some?
    ensures activeProject == Some("") ==> !r
    ensures activeProject.Some? && activeProject.value != "" ==> r
  {
    activeProject.Some? && activeProject.value != ""
  }
}
