/** The simple admission set of the download service: the ids of running
    downloads and a cap on how many may run at once. */
module ServiceDownloadManager {
  import opened Collections

  const MaxConcurrent: nat := 5

  /** `can_start` as a decision on the set of running ids. */
  predicate Admits(active: set<int>, requestId: int, cap: nat) {
    requestId !in active && |active| < cap
  }

  class DownloadManager {
    var activeDownloads: set<int>
    var maxConcurrent: nat

    constructor()
      ensures activeDownloads == {} && maxConcurrent == MaxConcurrent
    {
      activeDownloads := {};
      maxConcurrent := MaxConcurrent;
    }

    /** A running id is refused; otherwise the answer depends only on the
        cap. Nothing is changed. */
    method CanStart(requestId: int, url: string) returns (ok: bool)
      ensures requestId in activeDownloads ==> !ok
      ensures requestId !in activeDownloads ==> (ok <==> |activeDownloads| < maxConcurrent)
      ensures ok <==> Admits(activeDownloads, requestId, maxConcurrent)
    {
      if requestId in activeDownloads {
        return false;
      }
      if |activeDownloads| >= maxConcurrent {
        return false;
      }
      return true;
    }

    method Start(requestId: int, url: string)
      modifies this
      ensures activeDownloads == old(activeDownloads) + {requestId}
      ensures maxConcurrent == old(maxConcurrent)
    {
      activeDownloads := activeDownloads + {requestId};
    }

    method Finish(requestId: int, url: string, success: bool)
      modifies this
      ensures activeDownloads == old(activeDownloads) - {requestId}
      ensures maxConcurrent == old(maxConcurrent)
    {
      activeDownloads := activeDownloads - {requestId};
    }
  }

  // ----- runs of calls -----

  datatype Call = StartCall(id: int) | FinishCall(id: int)

  /** The running set after one `start` or `finish`. */
  function Perform(active: set<int>, c: Call): (r: set<int>)
    ensures c.StartCall? ==> c.id in r && r - {c.id} == active - {c.id}
    ensures c.FinishCall? ==> c.id !in r && r + {c.id} == active + {c.id}
  {
    match c
    case StartCall(id) => active + {id}
    case FinishCall(id) => active - {id}
  }

  function Performed(active: set<int>, cs: seq<Call>): set<int>
    decreases |cs|
  {
    if cs == [] then active else Performed(Perform(active, cs[0]), cs[1..])
  }

  /** Every `start` in the run was preceded by a `can_start` that said yes. */
  predicate Guarded(active: set<int>, cs: seq<Call>, cap: nat)
    decreases |cs|
  {
    cs == [] || ((cs[0].StartCall? ==> Admits(active, cs[0].id, cap)) && Guarded(Perform(active, cs[0]), cs[1..], cap))
  }

  /** When `start` only follows a successful `can_start`, the number of
      running downloads never exceeds the cap. */
  lemma {:induction false} GuardedRunStaysUnderCap(active: set<int>, cs: seq<Call>, cap: nat)
    requires |active| <= cap && Guarded(active, cs, cap)
    ensures |Performed(active, cs)| <= cap
    decreases |cs|
  {
    if cs != [] {
      var next := Perform(active, cs[0]);
      match cs[0] {
        case StartCall(id) =>
          assert |next| == |active| + 1;
        case FinishCall(id) =>
          SubsetCard(next, active);
      }
      GuardedRunStaysUnderCap(next, cs[1..], cap);
    }
  }

  /** `start` calls for the ids `lo`, `lo + 1`, ..., `n` of them. */
  function Starts(lo: int, n: nat): (cs: seq<Call>)
    ensures |cs| == n
    decreases n
  {
    if n == 0 then [] else [StartCall(lo)] + Starts(lo + 1, n - 1)
  }

  /** Starting `n` ids none of which runs adds `n` running downloads. */
  lemma {:induction false} StartsPerformed(active: set<int>, lo: int, n: nat)
    requires forall i :: lo <= i < lo + n ==> i !in active
    ensures |Performed(active, Starts(lo, n))| == |active| + n
    decreases n
  {
    if n > 0 {
      var cs := Starts(lo, n);
      var next := active + {lo};
      assert cs[0] == StartCall(lo) && cs[1..] == Starts(lo + 1, n - 1);
      assert Performed(active, cs) == Performed(next, cs[1..]);
      assert lo !in active && |next| == |active| + 1;
      StartsPerformed(next, lo + 1, n - 1);
    }
  }

  /** Without the guard the cap does not hold: `cap + 1` starts of
      distinct ids on an empty set leave more than `cap` downloads
      running, whatever the cap. */
  lemma UnguardedRunPassesCap(cap: nat)
    ensures |Performed({}, Starts(1, cap + 1))| == cap + 1
  {
    StartsPerformed({}, 1, cap + 1);
  }
}
