/** The store of download waits imposed by the host: per download id, when
    the wait started, how many seconds it lasts and for which url. The
    clock is an integer number of milliseconds passed to each call. */
module WaitStore {
  import opened Wrappers

  datatype WaitInfo = WaitInfo(startTime: int, totalWait: int, url: string)

  /** The dictionary `get_remaining_time` answers with. */
  datatype Remaining = Remaining(remainingTime: nat, totalWaitTime: int, url: string)

  /** Milliseconds still to wait at `now`, never below zero. */
  function RemainingMs(w: WaitInfo, now: int): (r: int)
    ensures r >= 0
    ensures r > 0 <==> now - w.startTime < w.totalWait * 1000
  {
    var left := w.totalWait * 1000 - (now - w.startTime);
    if left < 0 then 0 else left
  }

  /** `get_remaining_time` as a decision and the table it leaves behind:
      unknown ids are answered with nothing; an expired wait is removed and
      answered with nothing; a running one is answered with its whole
      seconds left, its total and its url. Other ids are never touched. */
  function Query(tasks: map<int, WaitInfo>, id: int, now: int): (r: (Option<Remaining>, map<int, WaitInfo>))
    ensures id !in tasks ==> r == (None, tasks)
    ensures forall k | k != id :: (k in r.1 <==> k in tasks) && (k in tasks ==> r.1[k] == tasks[k])
    ensures r.0.None? <==> id !in r.1
    ensures r.0.Some? ==>
      && id in tasks && r.1 == tasks
      && r.0.value.totalWaitTime == tasks[id].totalWait && r.0.value.url == tasks[id].url
      && r.0.value.remainingTime * 1000 <= RemainingMs(tasks[id], now)
      && RemainingMs(tasks[id], now) < (r.0.value.remainingTime + 1) * 1000
    ensures id in tasks && r.0.None? ==> RemainingMs(tasks[id], now) == 0
  {
    if id !in tasks then (None, tasks)
    else
      var w := tasks[id];
      var left := RemainingMs(w, now);
      if left <= 0 then (None, tasks - {id})
      else (Some(Remaining(left / 1000, w.totalWait, w.url)), tasks)
  }

  /** A wait queried the moment it starts reports its whole length, unless
      that length is not positive, in which case it is already over. */
  lemma StartThenQuery(tasks: map<int, WaitInfo>, id: int, total: int, url: string, now: int)
    ensures Query(tasks[id := WaitInfo(now, total, url)], id, now).0
         == if total > 0 then Some(Remaining(total, total, url)) else None
  {
  }

  /** Once the clock no longer runs backwards, the reported time never
      exceeds the total and counts down. */
  lemma CountsDown(tasks: map<int, WaitInfo>, id: int, t1: int, t2: int)
    requires id in tasks && tasks[id].startTime <= t1 <= t2
    requires Query(tasks, id, t1).0.Some? && Query(tasks, id, t2).0.Some?
    ensures Query(tasks, id, t2).0.value.remainingTime <= Query(tasks, id, t1).0.value.remainingTime <= tasks[id].totalWait
  {
    var w := tasks[id];
    var a, b := RemainingMs(w, t1), RemainingMs(w, t2);
    assert b <= a <= w.totalWait * 1000;
    DivMonotone(b, a);
    DivMonotone(a, w.totalWait * 1000);
  }

  lemma DivMonotone(x: int, y: int)
    requires 0 <= x <= y
    ensures x / 1000 <= y / 1000
  {
  }

  /** Once expired, a wait is gone: a later query finds nothing. */
  lemma ExpiredStaysGone(tasks: map<int, WaitInfo>, id: int, t1: int, t2: int)
    requires id in tasks && Query(tasks, id, t1).0.None?
    ensures Query(Query(tasks, id, t1).1, id, t2) == (None, Query(tasks, id, t1).1)
  {
  }

  class WaitTimeStore {
    var waitTasks: map<int, WaitInfo>

    constructor()
      ensures waitTasks == map[]
    {
      waitTasks := map[];
    }

    /** Start (or restart) tracking a wait; any earlier entry is replaced. */
    method StartWait(downloadId: int, totalWaitSeconds: int, url: string, now: int)
      modifies this
      ensures waitTasks == old(waitTasks)[downloadId := WaitInfo(now, totalWaitSeconds, url)]
    {
      waitTasks := waitTasks[downloadId := WaitInfo(now, totalWaitSeconds, url)];
    }

    /** Stop tracking; says whether there was anything to stop. */
    method FinishWait(downloadId: int) returns (found: bool)
      modifies this
      ensures found <==> downloadId in old(waitTasks)
      ensures waitTasks == old(waitTasks) - {downloadId}
    {
      if downloadId in waitTasks {
        waitTasks := waitTasks - {downloadId};
        return true;
      }
      return false;
    }

    method GetRemainingTime(downloadId: int, now: int) returns (r: Option<Remaining>)
      modifies this
      ensures (r, waitTasks) == Query(old(waitTasks), downloadId, now)
    {
      if downloadId !in waitTasks {
        return None;
      }
      var info := waitTasks[downloadId];
      var elapsed := now - info.startTime;
      var remaining := info.totalWait * 1000 - elapsed;
      if remaining < 0 {
        remaining := 0;
      }
      if remaining <= 0 {
        waitTasks := waitTasks - {downloadId};
        return None;
      }
      return Some(Remaining(remaining / 1000, info.totalWait, info.url));
    }
  }
}
