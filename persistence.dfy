/**
 * `loadData` and `saveData` with `localStorage` and JSON left abstract: the
 * stored slot is empty, holds text that does not parse, or parses to an
 * object whose top-level keys are each present or absent.
 */
module Persistence {
  import opened Domain

  /** The top-level keys of a parsed snapshot; `None` is a key the stored object lacks. */
  datatype Snapshot = Snapshot(
    projects: Option<seq<Project>>,
    workSessions: Option<seq<WorkSession>>,
    activeProject: Option<Option<string>>,
    currentTimer: Option<Timer>)

  /** What `localStorage.getItem` followed by `JSON.parse` yields. */
  datatype StoredSlot = Empty | Unparsable | Parsed(snapshot: Snapshot)

  function OrElse<T>(stored: Option<T>, current: T): T {
    if stored.Some? then stored.value else current
  }

  /** `{ ...data, ...parsed }`: each key the snapshot has replaces that whole field; the others keep their value. */
  function Merge(data: AppState, snap: Snapshot): (r: AppState)
    ensures snap.projects.Some? ==> r.projects == snap.projects.value
    ensures snap.projects.None? ==> r.projects == data.projects
    ensures snap.workSessions.Some? ==> r.workSessions == snap.workSessions.value
    ensures snap.workSessions.None? ==> r.workSessions == data.workSessions
    ensures snap.activeProject.Some? ==> r.activeProject == snap.activeProject.value
    ensures snap.activeProject.None? ==> r.activeProject == data.activeProject
    ensures snap.currentTimer.Some? ==> r.currentTimer == snap.currentTimer.value
    ensures snap.currentTimer.None? ==> r.currentTimer == data.currentTimer
  {
    AppState(
      OrElse(snap.projects, data.projects),
      OrElse(snap.workSessions, data.workSessions),
      OrElse(snap.activeProject, data.activeProject),
      OrElse(snap.currentTimer, data.currentTimer))
  }

  /**
   * `loadData`: nothing stored, or text that does not parse, leaves `data` as
   * it was; a parsed object is merged over it key by key.
   */
  function LoadData(data: AppState, slot: StoredSlot): (r: AppState)
    ensures !slot.Parsed? ==> r == data
    ensures slot.Parsed? ==> r == Merge(data, slot.snapshot)
  {
    match slot
    case Parsed(snap) => Merge(data, snap)
    case _ => data
  }

  /** The object `saveData` serialises: the whole state, every key present. */
  function SaveData(s: AppState): (snap: Snapshot)
    ensures snap.projects.Some? && snap.workSessions.Some?
    ensures snap.activeProject.Some? && snap.currentTimer.Some?
  {
    Snapshot(Some(s.projects), Some(s.workSessions), Some(s.activeProject), Some(s.currentTimer))
  }

  /** Loading what was saved gives back the saved state, whatever the state loaded over. */
  lemma SaveThenLoad(data: AppState, s: AppState)
    ensures LoadData(data, Parsed(SaveData(s))) == s
  {
  }

  /** Loading the same snapshot twice is the same as loading it once; an empty snapshot changes nothing. */
  lemma MergeIdempotent(data: AppState, snap: Snapshot)
    ensures Merge(Merge(data, snap), snap) == Merge(data, snap)
    ensures Merge(data, Snapshot(None, None, None, None)) == data
  {
  }
}
