/**
 * The array filters and the sum the tracker runs over `projects` and
 * `workSessions`: `getProjectSessions`, `getProjectTotalTime` and the two
 * filters of `deleteProject`.
 */
module Sessions {
  import opened Domain

  /** `workSessions.filter(session => session.projectId === projectId)`. */
  function SessionsOf(ws: seq<WorkSession>, projectId: string): (r: seq<WorkSession>)
    ensures |r| <= |ws|
    ensures forall w :: w in r <==> w in ws && w.projectId == Some(projectId)
  {
    if ws == [] then []
    else (if ws[0].projectId == Some(projectId) then [ws[0]] else []) + SessionsOf(ws[1..], projectId)
  }

  /** `workSessions.filter(session => session.projectId !== projectId)`. */
  function SessionsExcept(ws: seq<WorkSession>, projectId: string): (r: seq<WorkSession>)
    ensures |r| <= |ws|
    ensures forall w :: w in r <==> w in ws && w.projectId != Some(projectId)
  {
    if ws == [] then []
    else (if ws[0].projectId != Some(projectId) then [ws[0]] else []) + SessionsExcept(ws[1..], projectId)
  }

  /** `projects.filter(project => project.id !== projectId)`. */
  function ProjectsExcept(ps: seq<Project>, projectId: string): (r: seq<Project>)
    ensures |r| <= |ps|
    ensures forall p :: p in r <==> p in ps && p.id != projectId
  {
    if ps == [] then []
    else (if ps[0].id != projectId then [ps[0]] else []) + ProjectsExcept(ps[1..], projectId)
  }

  /** `sessions.reduce((total, session) => total + session.duration, 0)`. */
  function TotalDuration(ws: seq<WorkSession>): (r: int)
    ensures ws == [] ==> r == 0
    ensures |ws| == 1 ==> r == ws[0].duration
  {
    if ws == [] then 0 else ws[0].duration + TotalDuration(ws[1..])
  }

  /** `getProjectTotalTime(projectId)` over the given sessions. */
  function ProjectTotal(ws: seq<WorkSession>, projectId: string): (r: int)
    ensures SessionsOf(ws, projectId) == [] ==> r == 0
  {
    TotalDuration(SessionsOf(ws, projectId))
  }

  /** Every session in `ws` lasted at least `least` milliseconds. */
  predicate DurationsAtLeast(ws: seq<WorkSession>, least: int) {
    forall w :: w in ws ==> w.duration >= least
  }

  /** No two projects share an id. */
  predicate UniqueIds(ps: seq<Project>) {
    forall i, j :: 0 <= i < j < |ps| ==> ps[i].id != ps[j].id
  }

  // Order: each filter commutes with concatenation, so it keeps the relative
  // order of the elements it keeps.

  lemma {:induction false} SessionsOfAppend(a: seq<WorkSession>, b: seq<WorkSession>, projectId: string)
    ensures SessionsOf(a + b, projectId) == SessionsOf(a, projectId) + SessionsOf(b, projectId)
  {
    if a != [] {
      assert (a + b)[1..] == a[1..] + b;
      SessionsOfAppend(a[1..], b, projectId);
    } else {
      assert a + b == b;
    }
  }

  lemma {:induction false} SessionsExceptAppend(a: seq<WorkSession>, b: seq<WorkSession>, projectId: string)
    ensures SessionsExcept(a + b, projectId) == SessionsExcept(a, projectId) + SessionsExcept(b, projectId)
  {
    if a != [] {
      assert (a + b)[1..] == a[1..] + b;
      SessionsExceptAppend(a[1..], b, projectId);
    } else {
      assert a + b == b;
    }
  }

  lemma {:induction false} ProjectsExceptAppend(a: seq<Project>, b: seq<Project>, projectId: string)
    ensures ProjectsExcept(a + b, projectId) == ProjectsExcept(a, projectId) + ProjectsExcept(b, projectId)
  {
    if a != [] {
      assert (a + b)[1..] == a[1..] + b;
      ProjectsExceptAppend(a[1..], b, projectId);
    } else {
      assert a + b == b;
    }
  }

  lemma {:induction false} TotalDurationAppend(a: seq<WorkSession>, b: seq<WorkSession>)
    ensures TotalDuration(a + b) == TotalDuration(a) + TotalDuration(b)
  {
    if a != [] {
      assert (a + b)[1..] == a[1..] + b;
      TotalDurationAppend(a[1..], b);
    } else {
      assert a + b == b;
    }
  }

  /** Recording one more session adds its duration to its own project's total and to no other. */
  lemma ProjectTotalAppend(ws: seq<WorkSession>, w: WorkSession, projectId: string)
    ensures ProjectTotal(ws + [w], projectId)
            == ProjectTotal(ws, projectId) + if w.projectId == Some(projectId) then w.duration else 0
  {
    SessionsOfAppend(ws, [w], projectId);
    assert SessionsOf([w], projectId) == (if w.projectId == Some(projectId) then [w] else []) + SessionsOf([], projectId);
    TotalDurationAppend(SessionsOf(ws, projectId), SessionsOf([w], projectId));
  }

  /** The sessions of a project and the sessions of every other owner split the session list. */
  lemma {:induction false} SessionsPartition(ws: seq<WorkSession>, projectId: string)
    ensures multiset(SessionsOf(ws, projectId)) + multiset(SessionsExcept(ws, projectId)) == multiset(ws)
  {
    if ws != [] {
      var w, tail := ws[0], ws[1..];
      SessionsPartition(tail, projectId);
      assert ws == [w] + tail;
      if w.projectId == Some(projectId) {
        assert SessionsOf(ws, projectId) == [w] + SessionsOf(tail, projectId);
        assert SessionsExcept(ws, projectId) == SessionsExcept(tail, projectId);
      } else {
        assert SessionsOf(ws, projectId) == SessionsOf(tail, projectId);
        assert SessionsExcept(ws, projectId) == [w] + SessionsExcept(tail, projectId);
      }
    }
  }

  /** So the project's total and everybody else's add up to the total of all sessions. */
  lemma {:induction false} TotalDurationPartition(ws: seq<WorkSession>, projectId: string)
    ensures TotalDuration(SessionsOf(ws, projectId)) + TotalDuration(SessionsExcept(ws, projectId))
            == TotalDuration(ws)
  {
    if ws != [] {
      TotalDurationPartition(ws[1..], projectId);
      var mine := SessionsOf(ws[1..], projectId);
      var others := SessionsExcept(ws[1..], projectId);
      if ws[0].projectId == Some(projectId) {
        TotalDurationAppend([ws[0]], mine);
        assert SessionsExcept(ws, projectId) == others;
      } else {
        TotalDurationAppend([ws[0]], others);
        assert SessionsOf(ws, projectId) == mine;
      }
    }
  }

  /**
   * After the sessions of `projectId` are removed, the project has none left,
   * and every other project has exactly the sessions it had.
   */
  lemma {:induction false} SessionsOfAfterExcept(ws: seq<WorkSession>, projectId: string, other: string)
    ensures SessionsOf(SessionsExcept(ws, projectId), other)
            == if other == projectId then [] else SessionsOf(ws, other)
  {
    if ws != [] {
      var w, tail := ws[0], ws[1..];
      SessionsOfAfterExcept(tail, projectId, other);
      var keptTail := SessionsExcept(tail, projectId);
      if w.projectId == Some(projectId) {
        assert SessionsExcept(ws, projectId) == keptTail;
      } else {
        var kept := [w] + keptTail;
        assert SessionsExcept(ws, projectId) == kept;
        assert kept[0] == w && kept[1..] == keptTail;
        assert SessionsOf(kept, other)
               == (if w.projectId == Some(other) then [w] else []) + SessionsOf(keptTail, other);
      }
    }
  }

  /** A total of sessions each lasting at least `least` is at least `least` times their number. */
  lemma {:induction false} TotalDurationAtLeast(ws: seq<WorkSession>, least: int)
    requires DurationsAtLeast(ws, least)
    ensures TotalDuration(ws) >= least * |ws|
  {
    if ws != [] {
      assert ws[0] in ws;
      assert DurationsAtLeast(ws[1..], least) by {
        forall w | w in ws[1..] ensures w.duration >= least {
          assert w in ws;
        }
      }
      TotalDurationAtLeast(ws[1..], least);
      var n := |ws[1..]|;
      assert |ws| == n + 1;
      assert least * (n + 1) == least + least * n;
      assert TotalDuration(ws) == ws[0].duration + TotalDuration(ws[1..]);
    }
  }

  /**
   * `getProjectTotalTime` is 0 for a project with no sessions, never negative
   * when no duration is, and at least a second per session when every
   * session lasted at least a second.
   */
  lemma ProjectTotalBounds(ws: seq<WorkSession>, projectId: string)
    ensures SessionsOf(ws, projectId) == [] ==> ProjectTotal(ws, projectId) == 0
    ensures DurationsAtLeast(ws, 0) ==> ProjectTotal(ws, projectId) >= 0
    ensures DurationsAtLeast(ws, MinSessionDuration) ==>
      ProjectTotal(ws, projectId) >= MinSessionDuration * |SessionsOf(ws, projectId)|
  {
    var mine := SessionsOf(ws, projectId);
    if DurationsAtLeast(ws, 0) {
      TotalDurationAtLeast(mine, 0);
    }
    if DurationsAtLeast(ws, MinSessionDuration) {
      TotalDurationAtLeast(mine, MinSessionDuration);
    }
  }

  /** Removing the projects with one id keeps the remaining ids distinct. */
  lemma {:induction false} ProjectsExceptKeepsUniqueIds(ps: seq<Project>, projectId: string)
    requires UniqueIds(ps)
    ensures UniqueIds(ProjectsExcept(ps, projectId))
  {
    if ps != [] {
      var tail := ps[1..];
      TailKeepsUniqueIds(ps);
      ProjectsExceptKeepsUniqueIds(tail, projectId);
      var rest := ProjectsExcept(tail, projectId);
      if ps[0].id != projectId {
        forall q | q in rest ensures q.id != ps[0].id {
          var k :| 0 <= k < |tail| && tail[k] == q;
          assert ps[k + 1] == q;
        }
        ConsKeepsUniqueIds(ps[0], rest);
      }
    }
  }

  /** Dropping the first project keeps ids distinct. */
  lemma TailKeepsUniqueIds(ps: seq<Project>)
    requires ps != [] && UniqueIds(ps)
    ensures UniqueIds(ps[1..])
  {
    var tail := ps[1..];
    forall i, j | 0 <= i < j < |tail| ensures tail[i].id != tail[j].id {
      assert tail[i] == ps[i + 1] && tail[j] == ps[j + 1];
    }
  }

  /** A project whose id none of `rest` has, put in front of `rest`, keeps ids distinct. */
  lemma ConsKeepsUniqueIds(p: Project, rest: seq<Project>)
    requires UniqueIds(rest)
    requires forall q :: q in rest ==> q.id != p.id
    ensures UniqueIds([p] + rest)
  {
    var r := [p] + rest;
    forall i, j | 0 <= i < j < |r| ensures r[i].id != r[j].id {
      assert r[j] == rest[j - 1];
      if i > 0 {
        assert r[i] == rest[i - 1];
      }
    }
  }

  /** Appending a project whose id no project has keeps the ids distinct. */
  lemma AppendFreshKeepsUniqueIds(ps: seq<Project>, p: Project)
    requires UniqueIds(ps)
    requires forall q :: q in ps ==> q.id != p.id
    ensures UniqueIds(ps + [p])
  {
    var r := ps + [p];
    forall i, j | 0 <= i < j < |r| ensures r[i].id != r[j].id {
      if j == |ps| {
        assert r[i] == ps[i];
      } else {
        assert r[i] == ps[i] && r[j] == ps[j];
      }
    }
  }
}
