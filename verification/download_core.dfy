/** The download manager of the download core: in-memory bookkeeping of
    registered downloads, the admission test with its 1fichier rules, and
    the scheduler that starts waiting downloads.

    The database is passed in as the list of download rows in request
    order (oldest first). The clock is an integer number of milliseconds. */
module DownloadCore {
  import opened Wrappers
  import opened Text
  import opened Collections

  const MaxLocalDownloads: nat := 1
  const MaxTotalDownloads: nat := 5
  const FichierCooldownMs: int := 5000
  const CheckIntervalMs: int := 5000

  datatype Status = Pending | Parsing | Proxying | Downloading | Stopped | Done | Failed | Cooldown | Waiting

  /** A download row: `useProxy` is `None` when the column is NULL. */
  datatype Row = Row(id: int, url: string, status: Status, useProxy: Option<bool>)

  /** The statuses counted as running. */
  predicate IsActive(s: Status) {
    s == Downloading || s == Proxying || s == Parsing
  }

  /** `url.contains('1fichier.com')` in a query: a LIKE match, which ignores
      ASCII case. */
  predicate FichierLike(url: string) {
    Contains(Lower(url), "1fichier.com")
  }

  /** `'1fichier.com' in url` in Python: case matters. */
  predicate FichierIn(url: string) {
    Contains(url, "1fichier.com")
  }

  predicate DistinctIds(rows: seq<Row>) {
    forall i, j :: 0 <= i < j < |rows| ==> rows[i].id != rows[j].id
  }

  /** A running local 1fichier row. */
  predicate ActiveLocalFichier(r: Row) {
    IsActive(r.status) && FichierLike(r.url) && r.useProxy == Some(false)
  }

  /** The positions of the running rows. */
  function ActivePositions(rows: seq<Row>): set<nat> {
    set i: nat | i < |rows| && IsActive(rows[i].status)
  }

  /** The running positions of a list are those of its tail, moved by one,
      plus the head when it runs. */
  lemma ActivePositionsCard(rows: seq<Row>)
    requires rows != []
    ensures |ActivePositions(rows)| == (if IsActive(rows[0].status) then 1 else 0) + |ActivePositions(rows[1..])|
  {
    var tail := ActivePositions(rows[1..]);
    var shifted := Shift(tail);
    ShiftCard(tail);
    assert ActivePositions(rows) == (if IsActive(rows[0].status) then {0} else {}) + shifted by {
      forall i: nat | i in ActivePositions(rows) && i > 0
        ensures i in shifted
      {
        assert rows[1..][i - 1] == rows[i];
        assert i - 1 in tail;
      }
      forall i | i in shifted
        ensures i in ActivePositions(rows)
      {
        var j :| j in tail && i == j + 1;
        assert rows[1..][j] == rows[i];
      }
    }
    assert 0 !in shifted;
  }

  function Shift(a: set<nat>): set<nat> {
    set i | i in a :: i + 1
  }

  /** Moving every element of a set by one keeps its size. */
  lemma {:induction false} ShiftCard(a: set<nat>)
    ensures |Shift(a)| == |a|
    decreases |a|
  {
    if a != {} {
      var x :| x in a;
      ShiftCard(a - {x});
      assert Shift(a) == Shift(a - {x}) + {x + 1} by {
        forall i | i in Shift(a)
          ensures i in Shift(a - {x}) + {x + 1}
        {
          var j :| j in a && i == j + 1;
          if j != x {
            assert j in a - {x};
          }
        }
      }
      assert x + 1 !in Shift(a - {x});
    }
  }

  /** The number of rows in a running status. */
  function CountActive(rows: seq<Row>): (n: nat)
    ensures n == |ActivePositions(rows)|
    ensures n <= |rows|
    decreases |rows|
  {
    if rows == [] then
      assert ActivePositions(rows) == {};
      0
    else
      ActivePositionsCard(rows);
      (if IsActive(rows[0].status) then 1 else 0) + CountActive(rows[1..])
  }

  function CountActiveLocalFichier(rows: seq<Row>): (n: nat)
    ensures n <= |rows|
    ensures n == 0 <==> forall i :: 0 <= i < |rows| ==> !ActiveLocalFichier(rows[i])
    decreases |rows|
  {
    if rows == [] then 0
    else
      assert forall i :: 1 <= i < |rows| ==> rows[i] == rows[1..][i - 1];
      (if ActiveLocalFichier(rows[0]) then 1 else 0) + CountActiveLocalFichier(rows[1..])
  }

  /** The ids of the running rows. */
  function ActiveIds(rows: seq<Row>): (s: set<int>)
    ensures forall i :: 0 <= i < |rows| && IsActive(rows[i].status) ==> rows[i].id in s
    ensures forall x :: x in s ==> exists i :: 0 <= i < |rows| && IsActive(rows[i].status) && rows[i].id == x
  {
    set i | 0 <= i < |rows| && IsActive(rows[i].status) :: rows[i].id
  }

  // ----- cooldown -----

  /** `get_1fichier_cooldown_remaining`: none before the first completed
      1fichier download, then what is left of the five seconds. */
  function CooldownRemaining(lastCompletion: int, now: int): (r: int)
    ensures r >= 0
    ensures r > 0 <==> lastCompletion != 0 && now - lastCompletion < FichierCooldownMs
    ensures r > 0 ==> r == FichierCooldownMs - (now - lastCompletion)
  {
    if lastCompletion == 0 then 0
    else if now - lastCompletion >= FichierCooldownMs then 0
    else FichierCooldownMs - (now - lastCompletion)
  }

  // ----- admission -----

  /** `can_start_download`. `db` is `None` when the row query fails, in
      which case that check is skipped. */
  function CanStart(allCount: nat, localCount: nat, lastCompletion: int, url: Option<string>, db: Option<seq<Row>>, now: int): (ok: bool)
    ensures allCount >= MaxTotalDownloads ==> !ok
    ensures url.Some? && FichierIn(url.value) ==>
      (ok <==> && allCount < MaxTotalDownloads
               && localCount < MaxLocalDownloads
               && (db.Some? ==> CountActiveLocalFichier(db.value) == 0)
               && !(lastCompletion > 0 && now - lastCompletion < FichierCooldownMs))
    ensures !(url.Some? && FichierIn(url.value)) ==> (ok <==> allCount < MaxTotalDownloads)
  {
    if allCount >= MaxTotalDownloads then false
    else if url.Some? && url.value != "" && FichierIn(url.value) then
      if localCount >= MaxLocalDownloads then false
      else if db.Some? && CountActiveLocalFichier(db.value) > 0 then false
      else if lastCompletion > 0 && now - lastCompletion < FichierCooldownMs then false
      else true
    else true
  }

  /** Outside a cooldown, a 1fichier download is admitted exactly when the
      totals allow it and no local 1fichier download runs. */
  lemma FichierAdmission(allCount: nat, localCount: nat, lastCompletion: int, url: string, db: seq<Row>, now: int)
    requires FichierIn(url) && CooldownRemaining(lastCompletion, now) == 0 && lastCompletion >= 0
    ensures CanStart(allCount, localCount, lastCompletion, Some(url), Some(db), now)
        <==> allCount < MaxTotalDownloads && localCount == 0 && forall i :: 0 <= i < |db| ==> !ActiveLocalFichier(db[i])
  {
  }

  // ----- the scheduler -----

  /** The three queues served in order: proxy downloads, local downloads
      not from 1fichier, local 1fichier downloads. A row whose `useProxy`
      is NULL is in none of them. */
  datatype Lane = ProxyLane | OtherLocalLane | FichierLane

  predicate InLane(r: Row, lane: Lane) {
    && r.status == Pending
    && match lane
       case ProxyLane => r.useProxy == Some(true)
       case OtherLocalLane => r.useProxy == Some(false) && !FichierLike(r.url)
       case FichierLane => r.useProxy == Some(false) && FichierLike(r.url)
  }

  /** The ids of the rows waiting in a lane, excluding `excluded`, oldest first. */
  function WaitingIds(rows: seq<Row>, lane: Lane, excluded: set<int>): (w: seq<int>)
    ensures |w| <= |rows|
    ensures forall i :: 0 <= i < |rows| && InLane(rows[i], lane) && rows[i].id !in excluded ==> rows[i].id in w
    decreases |rows|
  {
    if rows == [] then []
    else
      assert forall i :: 1 <= i < |rows| ==> rows[i] == rows[1..][i - 1];
      (if InLane(rows[0], lane) && rows[0].id !in excluded then [rows[0].id] else [])
      + WaitingIds(rows[1..], lane, excluded)
  }

  /** The ids at the given positions of the rows. */
  function IdsAt(rows: seq<Row>, idx: seq<nat>): (ids: seq<int>)
    requires forall t :: 0 <= t < |idx| ==> idx[t] < |rows|
    ensures |ids| == |idx|
  {
    seq(|idx|, t requires 0 <= t < |idx| => rows[idx[t]].id)
  }

  /** The waiting list is exactly the ids of the rows of the lane that are
      not excluded, in row order: the ids at the positions `Select` keeps. */
  lemma WaitingInOrder(rows: seq<Row>, lane: Lane, excluded: set<int>)
    ensures var idx := Select(rows, r => InLane(r, lane) && r.id !in excluded, 0);
      WaitingIds(rows, lane, excluded) == IdsAt(rows, idx)
  {
    var keep := r => InLane(r, lane) && r.id !in excluded;
    WaitingFrom(rows, lane, excluded, keep, 0);
    assert rows[0..] == rows;
  }

  lemma {:induction false} WaitingFrom(rows: seq<Row>, lane: Lane, excluded: set<int>, keep: Row -> bool, k: nat)
    requires k <= |rows|
    requires forall r :: keep(r) == (InLane(r, lane) && r.id !in excluded)
    ensures WaitingIds(rows[k..], lane, excluded) == IdsAt(rows, Select(rows, keep, k))
    decreases |rows| - k
  {
    if k < |rows| {
      WaitingFrom(rows, lane, excluded, keep, k + 1);
      var s := rows[k..];
      assert s[0] == rows[k] && s[1..] == rows[k + 1..];
      assert keep(rows[k]) == (InLane(rows[k], lane) && rows[k].id !in excluded);
      var rest := Select(rows, keep, k + 1);
      if keep(rows[k]) {
        assert WaitingIds(s, lane, excluded) == [rows[k].id] + WaitingIds(rows[k + 1..], lane, excluded);
        assert Select(rows, keep, k) == [k] + rest;
        IdsAtCons(rows, k, rest);
      } else {
        assert WaitingIds(s, lane, excluded) == WaitingIds(rows[k + 1..], lane, excluded);
        assert Select(rows, keep, k) == rest;
      }
    }
  }

  lemma IdsAtCons(rows: seq<Row>, k: nat, rest: seq<nat>)
    requires k < |rows| && forall t :: 0 <= t < |rest| ==> rest[t] < |rows|
    ensures IdsAt(rows, [k] + rest) == [rows[k].id] + IdsAt(rows, rest)
  {
  }

  /** The query `.first()` of one scheduler step. */
  function FirstWaiting(rows: seq<Row>, lane: Lane, excluded: set<int>): Option<int> {
    var w := WaitingIds(rows, lane, excluded);
    if w == [] then None else Some(w[0])
  }

  function Without(xs: seq<int>, s: set<int>): seq<int>
    decreases |xs|
  {
    if xs == [] then [] else (if xs[0] in s then [] else [xs[0]]) + Without(xs[1..], s)
  }

  predicate Distinct(xs: seq<int>) {
    forall i, j :: 0 <= i < j < |xs| ==> xs[i] != xs[j]
  }

  function Take(xs: seq<int>, n: nat): seq<int> {
    if n <= |xs| then xs[..n] else xs
  }

  /** The ids of a list, as a set. */
  function Elems(xs: seq<int>): set<int>
    decreases |xs|
  {
    if xs == [] then {} else Elems(xs[..|xs| - 1]) + {xs[|xs| - 1]}
  }

  lemma {:induction false} ElemsMember(xs: seq<int>)
    ensures forall x :: x in Elems(xs) <==> x in xs
    decreases |xs|
  {
    if xs != [] {
      ElemsMember(xs[..|xs| - 1]);
      assert xs == xs[..|xs| - 1] + [xs[|xs| - 1]];
    }
  }

  lemma ElemsAppend(a: seq<int>, b: seq<int>)
    ensures Elems(a + b) == Elems(a) + Elems(b)
  {
    ElemsMember(a);
    ElemsMember(b);
    ElemsMember(a + b);
    forall x
      ensures x in Elems(a + b) <==> x in Elems(a) + Elems(b)
    {
      assert x in a + b <==> x in a || x in b;
    }
  }

  lemma ElemsSnoc(xs: seq<int>, x: int)
    ensures Elems(xs + [x]) == Elems(xs) + {x}
  {
    assert (xs + [x])[..|xs|] == xs;
  }

  /** Excluding more ids filters them out of the waiting list. */
  lemma {:induction false} WaitingExclude(rows: seq<Row>, lane: Lane, e: set<int>, s: set<int>)
    ensures WaitingIds(rows, lane, e + s) == Without(WaitingIds(rows, lane, e), s)
    decreases |rows|
  {
    if rows != [] {
      WaitingExclude(rows[1..], lane, e, s);
      WithoutAppend(if InLane(rows[0], lane) && rows[0].id !in e then [rows[0].id] else [], WaitingIds(rows[1..], lane, e), s);
    }
  }

  lemma {:induction false} WithoutAppend(a: seq<int>, b: seq<int>, s: set<int>)
    ensures Without(a + b, s) == Without(a, s) + Without(b, s)
    decreases |a|
  {
    if a == [] {
      assert a + b == b;
    } else {
      assert (a + b)[1..] == a[1..] + b;
      WithoutAppend(a[1..], b, s);
    }
  }

  lemma {:induction false} WithoutNone(xs: seq<int>)
    ensures Without(xs, {}) == xs
    decreases |xs|
  {
    if xs != [] {
      WithoutNone(xs[1..]);
    }
  }

  lemma {:induction false} WithoutAbsent(xs: seq<int>, t: set<int>, x: int)
    requires x !in xs
    ensures Without(xs, {x} + t) == Without(xs, t)
    decreases |xs|
  {
    if xs != [] {
      WithoutAbsent(xs[1..], t, x);
    }
  }

  /** Removing the ids of a prefix of a list without repeats leaves the rest. */
  lemma {:induction false} WithoutPrefix(xs: seq<int>, k: nat)
    requires Distinct(xs) && k <= |xs|
    ensures Without(xs, Elems(xs[..k])) == xs[k..]
    decreases |xs|
  {
    if k == 0 {
      assert Elems(xs[..k]) == {};
      WithoutNone(xs);
    } else {
      var t := Elems(xs[1..][..k - 1]);
      assert xs[..k] == [xs[0]] + xs[1..][..k - 1];
      ElemsAppend([xs[0]], xs[1..][..k - 1]);
      assert Elems([xs[0]]) == {xs[0]};
      assert Distinct(xs[1..]);
      WithoutPrefix(xs[1..], k - 1);
      assert xs[0] !in xs[1..];
      WithoutAbsent(xs[1..], t, xs[0]);
      assert xs[1..][k - 1..] == xs[k..];
    }
  }

  /** Every waiting id is not excluded and belongs to a row of the lane. */
  lemma {:induction false} WaitingMembers(rows: seq<Row>, lane: Lane, e: set<int>)
    ensures forall x :: x in WaitingIds(rows, lane, e) ==>
      x !in e && exists i :: 0 <= i < |rows| && rows[i].id == x && InLane(rows[i], lane)
    decreases |rows|
  {
    if rows != [] {
      WaitingMembers(rows[1..], lane, e);
      forall x | x in WaitingIds(rows[1..], lane, e)
        ensures exists i :: 0 <= i < |rows| && rows[i].id == x && InLane(rows[i], lane)
      {
        var i :| 0 <= i < |rows[1..]| && rows[1..][i].id == x && InLane(rows[1..][i], lane);
        assert rows[i + 1] == rows[1..][i];
      }
    }
  }

  /** With distinct ids, an id waiting in the proxy lane or the lane of
      other local downloads is not the id of a local 1fichier row. */
  lemma LaneNotFichier(rows: seq<Row>, lane: Lane, e: set<int>, x: int)
    requires DistinctIds(rows) && lane != FichierLane && x in WaitingIds(rows, lane, e)
    ensures forall i :: 0 <= i < |rows| && rows[i].id == x ==> !LocalFichier(rows[i])
  {
    WaitingMembers(rows, lane, e);
    var j :| 0 <= j < |rows| && rows[j].id == x && InLane(rows[j], lane);
    assert forall i :: 0 <= i < |rows| && rows[i].id == x ==> i == j;
  }

  lemma TakeIn(xs: seq<int>, n: nat, x: int)
    requires x in Take(xs, n)
    ensures x in xs
  {
    if n <= |xs| {
      assert xs == xs[..n] + xs[n..];
    }
  }

  lemma {:induction false} WaitingDistinct(rows: seq<Row>, lane: Lane, e: set<int>)
    requires DistinctIds(rows)
    ensures Distinct(WaitingIds(rows, lane, e))
    decreases |rows|
  {
    if rows != [] {
      assert DistinctIds(rows[1..]);
      WaitingDistinct(rows[1..], lane, e);
      WaitingMembers(rows[1..], lane, e);
      var rest := WaitingIds(rows[1..], lane, e);
      forall x | x in rest
        ensures x != rows[0].id
      {
        var i :| 0 <= i < |rows[1..]| && rows[1..][i].id == x && InLane(rows[1..][i], lane);
        assert rows[i + 1] == rows[1..][i];
      }
      var w := WaitingIds(rows, lane, e);
      if InLane(rows[0], lane) && rows[0].id !in e {
        assert w == [rows[0].id] + rest;
        forall i, j | 0 <= i < j < |w|
          ensures w[i] != w[j]
        {
          assert w[j] == rest[j - 1];
          assert rest[j - 1] in rest;
          if i == 0 {
            assert w[i] == rows[0].id;
          } else {
            assert w[i] == rest[i - 1];
          }
        }
      } else {
        assert w == rest;
      }
    }
  }

  /** One step of a scheduler loop finds the next row of the lane: with the
      first `k` waiting ids excluded as well, the query returns the `k`-th. */
  lemma NextWaiting(rows: seq<Row>, lane: Lane, e: set<int>, k: nat)
    requires DistinctIds(rows) && k <= |WaitingIds(rows, lane, e)|
    ensures var w := WaitingIds(rows, lane, e);
      FirstWaiting(rows, lane, e + Elems(w[..k])) == if k < |w| then Some(w[k]) else None
  {
    var w := WaitingIds(rows, lane, e);
    WaitingDistinct(rows, lane, e);
    WaitingExclude(rows, lane, e, Elems(w[..k]));
    WithoutPrefix(w, k);
  }

  /** Taking one more element of a list adds it to the taken set. */
  lemma ElemsStep(w: seq<int>, k: nat)
    requires k < |w|
    ensures w[..k + 1] == w[..k] + [w[k]] && Elems(w[..k + 1]) == Elems(w[..k]) + {w[k]}
  {
    assert w[..k + 1] == w[..k] + [w[k]];
    ElemsSnoc(w[..k], w[k]);
  }

  /** Cooldown rows of local 1fichier downloads go back to pending. */
  function RestoreCooldown(rows: seq<Row>): (r: seq<Row>)
    ensures |r| == |rows|
    ensures forall i :: 0 <= i < |rows| ==> r[i].id == rows[i].id && r[i].url == rows[i].url && r[i].useProxy == rows[i].useProxy
    ensures forall i :: 0 <= i < |rows| ==> r[i].status == if rows[i].status == Cooldown && LocalFichier(rows[i]) then Pending else rows[i].status
  {
    seq(|rows|, i requires 0 <= i < |rows| =>
      if rows[i].status == Cooldown && LocalFichier(rows[i]) then rows[i].(status := Pending) else rows[i])
  }

  /** `_send_cooldown_updates`: the oldest pending local 1fichier row is
      shown as cooling down; every other row is unchanged. */
  function MarkNextCooldown(rows: seq<Row>): (r: seq<Row>)
    ensures |r| == |rows|
    ensures forall i :: 0 <= i < |rows| ==> r[i].id == rows[i].id && r[i].url == rows[i].url && r[i].useProxy == rows[i].useProxy
    ensures forall i :: 0 <= i < |rows| && r[i] != rows[i] ==>
      && InLane(rows[i], FichierLane) && r[i].status == Cooldown
      && forall j :: 0 <= j < |rows| && j != i ==> r[j] == rows[j] && (j < i ==> !InLane(rows[j], FichierLane))
    ensures forall i :: 0 <= i < |rows| && InLane(rows[i], FichierLane) && (forall j :: 0 <= j < i ==> !InLane(rows[j], FichierLane)) ==>
      r[i].status == Cooldown
    decreases |rows|
  {
    if rows == [] then []
    else if InLane(rows[0], FichierLane) then [rows[0].(status := Cooldown)] + rows[1..]
    else
      var rest := MarkNextCooldown(rows[1..]);
      assert forall i :: 1 <= i < |rows| ==> ([rows[0]] + rest)[i] == rest[i - 1] && rows[i] == rows[1..][i - 1];
      [rows[0]] + rest
  }

  /** A download row of a local 1fichier download. */
  predicate LocalFichier(r: Row) {
    r.useProxy == Some(false) && FichierLike(r.url)
  }

  /** The ids started by `check_and_start_waiting_downloads`, lane by lane. */
  datatype Picks = Picks(proxy: seq<int>, other: seq<int>, fichier: seq<int>)

  /** What `check_and_start_waiting_downloads` starts, given the rows after
      the cooldown update, the ids the manager already runs, the counts of
      running rows and running local 1fichier rows, and whether the cooldown
      is over. Each lane is queried oldest first, excluding every id already
      running or started in this call. */
  function PlanLanes(rows: seq<Row>, running: set<int>, activeCount: nat, fichierActive: nat, cooldownOver: bool): Picks {
    if activeCount >= MaxTotalDownloads then Picks([], [], [])
    else
      var room := MaxTotalDownloads - activeCount;
      var e0 := running + ActiveIds(rows);
      var p1 := Take(WaitingIds(rows, ProxyLane, e0), room);
      var e1 := e0 + Elems(p1);
      var p2 := Take(WaitingIds(rows, OtherLocalLane, e1), room - |p1|);
      var e2 := e1 + Elems(p2);
      var p3 := if |p1| + |p2| < room && fichierActive < MaxLocalDownloads && cooldownOver
                then Take(WaitingIds(rows, FichierLane, e2), 1) else [];
      Picks(p1, p2, p3)
  }

  function Plan(rows: seq<Row>, running: set<int>, activeCount: nat, fichierActive: nat, cooldownOver: bool): seq<int> {
    var p := PlanLanes(rows, running, activeCount, fichierActive, cooldownOver);
    p.proxy + p.other + p.fichier
  }

  /** The plan, given the ids each lane's query picks. */
  lemma PlanFromSteps(rows: seq<Row>, running: set<int>, activeCount: nat, fichierActive: nat, cooldownOver: bool,
                      e0: set<int>, p1: seq<int>, e1: set<int>, p2: seq<int>, e2: set<int>, p3: seq<int>)
    requires activeCount < MaxTotalDownloads
    requires e0 == running + ActiveIds(rows)
    requires p1 == Take(WaitingIds(rows, ProxyLane, e0), MaxTotalDownloads - activeCount)
    requires e1 == e0 + Elems(p1)
    requires |p1| <= MaxTotalDownloads - activeCount
    requires p2 == Take(WaitingIds(rows, OtherLocalLane, e1), MaxTotalDownloads - activeCount - |p1|)
    requires e2 == e1 + Elems(p2)
    requires |p1| + |p2| < MaxTotalDownloads - activeCount && fichierActive < MaxLocalDownloads && cooldownOver ==>
               p3 == Take(WaitingIds(rows, FichierLane, e2), 1)
    requires !(|p1| + |p2| < MaxTotalDownloads - activeCount && fichierActive < MaxLocalDownloads && cooldownOver) ==> p3 == []
    ensures Plan(rows, running, activeCount, fichierActive, cooldownOver) == p1 + p2 + p3
  {
  }

  /** Started downloads never push the running count past five. */
  lemma PlanRespectsCap(rows: seq<Row>, running: set<int>, activeCount: nat, fichierActive: nat, cooldownOver: bool)
    ensures activeCount >= MaxTotalDownloads ==> Plan(rows, running, activeCount, fichierActive, cooldownOver) == []
    ensures activeCount < MaxTotalDownloads ==> activeCount + |Plan(rows, running, activeCount, fichierActive, cooldownOver)| <= MaxTotalDownloads
  {
  }

  /** Only waiting rows are started: each started id is a pending row that
      neither the manager nor the database already counts as running. */
  lemma {:induction false} PlanStartsWaitingRows(rows: seq<Row>, running: set<int>, activeCount: nat, fichierActive: nat, cooldownOver: bool)
    ensures forall x :: x in Plan(rows, running, activeCount, fichierActive, cooldownOver) ==>
      && x !in running && x !in ActiveIds(rows)
      && exists i :: 0 <= i < |rows| && rows[i].id == x && rows[i].status == Pending
  {
    var e0 := running + ActiveIds(rows);
    var p := PlanLanes(rows, running, activeCount, fichierActive, cooldownOver);
    if activeCount < MaxTotalDownloads {
      var room := MaxTotalDownloads - activeCount;
      var e1 := e0 + Elems(p.proxy);
      var e2 := e1 + Elems(p.other);
      WaitingMembers(rows, ProxyLane, e0);
      WaitingMembers(rows, OtherLocalLane, e1);
      WaitingMembers(rows, FichierLane, e2);
      forall x | x in Plan(rows, running, activeCount, fichierActive, cooldownOver)
        ensures x !in running && x !in ActiveIds(rows)
        ensures exists i :: 0 <= i < |rows| && rows[i].id == x && rows[i].status == Pending
      {
        if x in p.proxy {
          assert x in WaitingIds(rows, ProxyLane, e0);
        } else if x in p.other {
          assert x in WaitingIds(rows, OtherLocalLane, e1);
        } else {
          assert x in WaitingIds(rows, FichierLane, e2);
        }
      }
    }
  }

  /** At most one local 1fichier download is started per call, and only
      when none runs and the cooldown is over: the proxy and other-local
      picks hold no local 1fichier row, and the 1fichier pick at most one. */
  lemma PlanOneFichier(rows: seq<Row>, running: set<int>, activeCount: nat, fichierActive: nat, cooldownOver: bool)
    requires DistinctIds(rows)
    ensures var p := PlanLanes(rows, running, activeCount, fichierActive, cooldownOver);
      && (forall x :: x in p.proxy + p.other ==> forall i :: 0 <= i < |rows| && rows[i].id == x ==> !LocalFichier(rows[i]))
      && |p.fichier| <= 1
      && (p.fichier != [] ==> fichierActive == 0 && cooldownOver)
  {
    var p := PlanLanes(rows, running, activeCount, fichierActive, cooldownOver);
    if activeCount < MaxTotalDownloads {
      var e0 := running + ActiveIds(rows);
      var e1 := e0 + Elems(p.proxy);
      forall x | x in p.proxy + p.other
        ensures forall i :: 0 <= i < |rows| && rows[i].id == x ==> !LocalFichier(rows[i])
      {
        if x in p.proxy {
          TakeIn(WaitingIds(rows, ProxyLane, e0), MaxTotalDownloads - activeCount, x);
          LaneNotFichier(rows, ProxyLane, e0, x);
        } else {
          TakeIn(WaitingIds(rows, OtherLocalLane, e1), MaxTotalDownloads - activeCount - |p.proxy|, x);
          LaneNotFichier(rows, OtherLocalLane, e1, x);
        }
      }
    }
  }

  /** Each waiting proxy row is started before any row of another lane,
      and the proxy lane is served oldest first. */
  lemma PlanProxyFirst(rows: seq<Row>, running: set<int>, activeCount: nat, fichierActive: nat, cooldownOver: bool)
    requires activeCount < MaxTotalDownloads
    ensures var p := PlanLanes(rows, running, activeCount, fichierActive, cooldownOver);
      var w1 := WaitingIds(rows, ProxyLane, running + ActiveIds(rows));
      && p.proxy == w1[..|p.proxy|]
      && (p.other + p.fichier != [] ==> p.proxy == w1)
  {
  }

  /** The scheduler fills the free slots first come, first served: each
      lane starts as many of its oldest waiting rows as there is room left,
      and a 1fichier row is started whenever room is left, the 1fichier
      rules allow it and one waits. */
  lemma PlanFillsRoom(rows: seq<Row>, running: set<int>, activeCount: nat, fichierActive: nat, cooldownOver: bool)
    requires activeCount < MaxTotalDownloads
    ensures var p := PlanLanes(rows, running, activeCount, fichierActive, cooldownOver);
      var room := MaxTotalDownloads - activeCount;
      var e0 := running + ActiveIds(rows);
      var w1 := WaitingIds(rows, ProxyLane, e0);
      var w2 := WaitingIds(rows, OtherLocalLane, e0 + Elems(p.proxy));
      var w3 := WaitingIds(rows, FichierLane, e0 + Elems(p.proxy) + Elems(p.other));
      && |p.proxy| == (if room <= |w1| then room else |w1|)
      && p.other == w2[..|p.other|]
      && |p.other| == (if room - |p.proxy| <= |w2| then room - |p.proxy| else |w2|)
      && (p.fichier != [] <==> |p.proxy| + |p.other| < room && fichierActive == 0 && cooldownOver && w3 != [])
      && (p.fichier != [] ==> p.fichier == [w3[0]])
  {
  }

  // ----- the manager object -----

  /** `DownloadManager` of the download core. `activeDownloads` keeps the
      ids of the threads it started (the threads are not modelled);
      `stopEvents` maps an id to whether its stop flag is set. */
  class DownloadManager {
    var activeDownloads: set<int>
    var localDownloads: set<int>
    var allDownloads: set<int>
    var last1fichierCompletionTime: int
    var stopEvents: map<int, bool>
    var lastCheckTime: int

    /** Every registered download has a stop flag; local 1fichier downloads
        are registered downloads. A flag may exist before its id is
        registered, because the download paths write it first. */
    predicate Valid()
      reads this
    {
      allDownloads <= stopEvents.Keys && localDownloads <= allDownloads && last1fichierCompletionTime >= 0
    }

    constructor()
      ensures Valid()
      ensures activeDownloads == {} && localDownloads == {} && allDownloads == {} && stopEvents == map[]
      ensures last1fichierCompletionTime == 0 && lastCheckTime == 0
    {
      activeDownloads := {};
      localDownloads := {};
      allDownloads := {};
      last1fichierCompletionTime := 0;
      stopEvents := map[];
      lastCheckTime := 0;
    }

    method CanStartDownload(url: Option<string>, db: Option<seq<Row>>, now: int) returns (ok: bool)
      ensures ok == CanStart(|allDownloads|, |localDownloads|, last1fichierCompletionTime, url, db, now)
    {
      if |allDownloads| >= MaxTotalDownloads {
        return false;
      }
      if url.Some? && url.value != "" && FichierIn(url.value) {
        if |localDownloads| >= MaxLocalDownloads {
          return false;
        }
        if db.Some? && CountActiveLocalFichier(db.value) > 0 {
          return false;
        }
        if last1fichierCompletionTime > 0 && now - last1fichierCompletionTime < FichierCooldownMs {
          return false;
        }
      }
      return true;
    }

    method Get1fichierCooldownRemaining(now: int) returns (r: int)
      ensures r == CooldownRemaining(last1fichierCompletionTime, now)
    {
      if last1fichierCompletionTime == 0 {
        return 0;
      }
      var timeSinceCompletion := now - last1fichierCompletionTime;
      if timeSinceCompletion >= FichierCooldownMs {
        return 0;
      }
      return FichierCooldownMs - timeSinceCompletion;
    }

    /** A known id is left alone; a new one is registered, keeps a stop flag
        written before it (set or not) or else gets a clear one, and is
        counted as local 1fichier when its url names 1fichier and no proxy
        is used. */
    method RegisterDownload(downloadId: int, url: Option<string>, useProxy: bool)
      requires Valid()
      modifies this
      ensures Valid()
      ensures downloadId in old(allDownloads) ==>
        allDownloads == old(allDownloads) && localDownloads == old(localDownloads) && stopEvents == old(stopEvents)
      ensures downloadId !in old(allDownloads) ==>
        && allDownloads == old(allDownloads) + {downloadId}
        && stopEvents == (if downloadId in old(stopEvents) then old(stopEvents) else old(stopEvents)[downloadId := false])
        && localDownloads == old(localDownloads) + (if url.Some? && FichierIn(url.value) && !useProxy then {downloadId} else {})
      ensures activeDownloads == old(activeDownloads) && last1fichierCompletionTime == old(last1fichierCompletionTime)
      ensures lastCheckTime == old(lastCheckTime)
    {
      if downloadId in allDownloads {
        return;
      }
      allDownloads := allDownloads + {downloadId};
      if downloadId !in stopEvents {
        stopEvents := stopEvents[downloadId := false];
      }
      if url.Some? && url.value != "" && FichierIn(url.value) && !useProxy {
        localDownloads := localDownloads + {downloadId};
      }
    }

    /** The download paths' `stop_events[request_id] = threading.Event()`
        under the lock: the id's flag is replaced by a clear one, whether or
        not the id is registered yet. */
    method ResetStopFlag(downloadId: int)
      requires Valid()
      modifies this`stopEvents
      ensures Valid()
      ensures stopEvents == old(stopEvents)[downloadId := false]
    {
      stopEvents := stopEvents[downloadId := false];
    }

    /** The general download path: the stop flag is reset first and the id
        registered after it. A new id ends registered with a clear flag; an
        id already registered keeps its registration and gets a clear flag. */
    method RegisterGeneralDownload(downloadId: int, url: Option<string>, useProxy: bool)
      requires Valid()
      modifies this
      ensures Valid()
      ensures downloadId in allDownloads && downloadId in stopEvents && !stopEvents[downloadId]
      ensures stopEvents == old(stopEvents)[downloadId := false]
      ensures allDownloads == old(allDownloads) + {downloadId}
      ensures localDownloads == old(localDownloads) +
        (if downloadId !in old(allDownloads) && url.Some? && FichierIn(url.value) && !useProxy then {downloadId} else {})
      ensures activeDownloads == old(activeDownloads) && last1fichierCompletionTime == old(last1fichierCompletionTime)
      ensures lastCheckTime == old(lastCheckTime)
    {
      ResetStopFlag(downloadId);
      RegisterDownload(downloadId, url, useProxy);
    }

    /** Forget a download; a completed local 1fichier download starts the
        cooldown. */
    method UnregisterDownload(downloadId: int, isCompleted: bool, now: int)
      requires Valid() && now > 0
      modifies this
      ensures Valid()
      ensures allDownloads == old(allDownloads) - {downloadId}
      ensures localDownloads == old(localDownloads) - {downloadId}
      ensures stopEvents == old(stopEvents) - {downloadId}
      ensures last1fichierCompletionTime == if downloadId in old(localDownloads) && isCompleted then now else old(last1fichierCompletionTime)
      ensures activeDownloads == old(activeDownloads) && lastCheckTime == old(lastCheckTime)
    {
      allDownloads := allDownloads - {downloadId};
      if downloadId in stopEvents {
        stopEvents := stopEvents - {downloadId};
      }
      var wasFichier := downloadId in localDownloads;
      if wasFichier {
        localDownloads := localDownloads - {downloadId};
        if isCompleted {
          last1fichierCompletionTime := now;
        }
      }
    }

    method StopDownloadImmediately(downloadId: int) returns (found: bool)
      requires Valid()
      modifies this
      ensures Valid()
      ensures found <==> downloadId in old(stopEvents)
      ensures stopEvents == if found then old(stopEvents)[downloadId := true] else old(stopEvents)
      ensures allDownloads == old(allDownloads) && localDownloads == old(localDownloads)
      ensures activeDownloads == old(activeDownloads) && last1fichierCompletionTime == old(last1fichierCompletionTime)
      ensures lastCheckTime == old(lastCheckTime)
    {
      if downloadId in stopEvents {
        stopEvents := stopEvents[downloadId := true];
        return true;
      }
      return false;
    }

    method IsDownloadStopped(downloadId: int) returns (stopped: bool)
      ensures stopped <==> downloadId in stopEvents && stopEvents[downloadId]
    {
      if downloadId in stopEvents {
        return stopEvents[downloadId];
      }
      return false;
    }

    /** `_start_waiting_download`: record the id as running unless it is. */
    method StartWaitingDownload(id: int)
      modifies this`activeDownloads
      ensures activeDownloads == old(activeDownloads) + {id}
    {
      if id in activeDownloads {
        return;
      }
      activeDownloads := activeDownloads + {id};
    }

    /** One scheduler loop: start the oldest waiting rows of a lane while
        there is room, excluding the ids in `allActiveIds`, which grows by
        each id started. */
    method StartFromLane(rows: seq<Row>, lane: Lane, allActiveIds: set<int>, room: nat) returns (picked: seq<int>, ids: set<int>)
      requires DistinctIds(rows)
      modifies this`activeDownloads
      ensures picked == Take(WaitingIds(rows, lane, allActiveIds), room)
      ensures ids == allActiveIds + Elems(picked)
      ensures activeDownloads == old(activeDownloads) + Elems(picked)
    {
      ghost var w := WaitingIds(rows, lane, allActiveIds);
      picked := [];
      ids := allActiveIds;
      var k := 0;
      while k < room
        invariant k <= room && k <= |w|
        invariant picked == w[..k]
        invariant ids == allActiveIds + Elems(w[..k])
        invariant activeDownloads == old(activeDownloads) + Elems(w[..k])
        decreases room - k
      {
        NextWaiting(rows, lane, allActiveIds, k);
        var next := FirstWaiting(rows, lane, ids);
        if next.None? {
          break;
        }
        ElemsStep(w, k);
        StartWaitingDownload(next.value);
        picked := picked + [next.value];
        ids := ids + {next.value};
        k := k + 1;
      }
      assert w[..k] == Take(w, room);
    }

    /** `check_and_start_waiting_downloads`. Returns the rows as the call
        leaves them (cooldown rows restored, or the next 1fichier row marked
        as cooling down) and the ids it started, in order. */
    method CheckAndStartWaitingDownloads(rows: seq<Row>, forceCheck: bool, now: int) returns (newRows: seq<Row>, started: seq<int>)
      requires Valid() && DistinctIds(rows)
      modifies this
      ensures Valid()
      ensures !forceCheck && now - old(lastCheckTime) < CheckIntervalMs ==>
        newRows == rows && started == [] && activeDownloads == old(activeDownloads) && lastCheckTime == old(lastCheckTime)
      ensures forceCheck || now - old(lastCheckTime) >= CheckIntervalMs ==>
        && lastCheckTime == now
        && newRows == (if CooldownRemaining(last1fichierCompletionTime, now) <= 0 then RestoreCooldown(rows) else MarkNextCooldown(rows))
        && started == Plan(newRows, old(activeDownloads), CountActive(rows), CountActiveLocalFichier(rows),
                           CooldownRemaining(last1fichierCompletionTime, now) <= 0)
        && activeDownloads == old(activeDownloads) + Elems(started)
      ensures allDownloads == old(allDownloads) && localDownloads == old(localDownloads) && stopEvents == old(stopEvents)
      ensures last1fichierCompletionTime == old(last1fichierCompletionTime)
    {
      if !forceCheck && now - lastCheckTime < CheckIntervalMs {
        return rows, [];
      }
      lastCheckTime := now;
      var activeDownloadsCount := CountActive(rows);
      var active1fichierCount := CountActiveLocalFichier(rows);
      var cooldownRemaining := Get1fichierCooldownRemaining(now);
      if cooldownRemaining <= 0 {
        newRows := RestoreCooldown(rows);
      } else {
        newRows := MarkNextCooldown(rows);
      }
      assert DistinctIds(newRows);
      started := StartWaitingRows(newRows, activeDownloadsCount, active1fichierCount, cooldownRemaining <= 0);
    }

    /** The third step of the scheduler: when `open`, start the oldest
        waiting local 1fichier row not excluded, if there is one. */
    method StartFichierRequest(rows: seq<Row>, allActiveIds: set<int>, open: bool) returns (picked: seq<int>)
      modifies this`activeDownloads
      ensures picked == if open then Take(WaitingIds(rows, FichierLane, allActiveIds), 1) else []
      ensures activeDownloads == old(activeDownloads) + Elems(picked)
    {
      picked := [];
      if open {
        var fichierRequest := FirstWaiting(rows, FichierLane, allActiveIds);
        if fichierRequest.Some? {
          StartWaitingDownload(fichierRequest.value);
          picked := [fichierRequest.value];
          ElemsSnoc([], fichierRequest.value);
        }
      }
    }

    /** The three lanes of `check_and_start_waiting_downloads`, served in
        order once the rows are up to date. */
    method StartWaitingRows(rows: seq<Row>, activeCount: nat, fichierActive: nat, cooldownOver: bool) returns (started: seq<int>)
      requires DistinctIds(rows)
      modifies this`activeDownloads
      ensures started == Plan(rows, old(activeDownloads), activeCount, fichierActive, cooldownOver)
      ensures activeDownloads == old(activeDownloads) + Elems(started)
    {
      started := [];
      if activeCount >= MaxTotalDownloads {
        return;
      }
      var room := MaxTotalDownloads - activeCount;
      var allActiveIds := activeDownloads + ActiveIds(rows);
      ghost var e0 := allActiveIds;
      assert e0 == old(activeDownloads) + ActiveIds(rows);
      var proxyStarted, otherStarted;
      proxyStarted, allActiveIds := StartFromLane(rows, ProxyLane, allActiveIds, room);
      ghost var e1 := allActiveIds;
      assert e1 == e0 + Elems(proxyStarted);
      otherStarted, allActiveIds := StartFromLane(rows, OtherLocalLane, allActiveIds, room - |proxyStarted|);
      assert allActiveIds == e1 + Elems(otherStarted);
      var fichierStarted := StartFichierRequest(rows, allActiveIds,
        |proxyStarted| + |otherStarted| < room && fichierActive < MaxLocalDownloads && cooldownOver);
      started := proxyStarted + otherStarted + fichierStarted;
      PlanFromSteps(rows, old(activeDownloads), activeCount, fichierActive, cooldownOver,
                    e0, proxyStarted, e1, otherStarted, allActiveIds, fichierStarted);
      ElemsAppend(proxyStarted, otherStarted);
      ElemsAppend(proxyStarted + otherStarted, fichierStarted);
    }
  }
}
