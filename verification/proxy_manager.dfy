/** Proxy bookkeeping: which proxies are still unused, the `ip:port` upsert
    of a usage record, and the search for a working proxy. The proxy
    status table is a sequence of records in table order; the full proxy
    list and the connection test are inputs (the test as the set of
    addresses that pass it). */
module ProxyManager {
  import opened Wrappers
  import opened Text
  import opened Collections

  /** A row of the proxy status table; every column may be NULL. */
  datatype ProxyRecord = ProxyRecord(ip: Option<string>, port: Option<nat>, lastStatus: Option<string>,
                                     success: Option<bool>, lastUsedAt: Option<int>)

  /** `f"{p.ip}:{p.port}"`: a NULL column is written `None`. */
  function Render(r: ProxyRecord): string {
    (if r.ip.Some? then r.ip.value else "None") + ":" + (if r.port.Some? then NatToString(r.port.value) else "None")
  }

  /** The addresses of the records whose ip and port are both set. */
  function UsedAddresses(records: seq<ProxyRecord>): (used: set<string>)
    ensures forall i :: 0 <= i < |records| && records[i].ip.Some? && records[i].port.Some? ==> Render(records[i]) in used
    ensures forall x :: x in used ==> exists i :: 0 <= i < |records| && records[i].ip.Some? && records[i].port.Some? && Render(records[i]) == x
  {
    set i | 0 <= i < |records| && records[i].ip.Some? && records[i].port.Some? :: Render(records[i])
  }

  /** The proxies of a list that are not in `used`, in list order; also the
      unused proxies left once the priority ones are taken out. */
  function Unused(all: seq<string>, used: set<string>): (r: seq<string>)
    ensures forall x :: x in r <==> x in all && x !in used
    decreases |all|
  {
    if all == [] then []
    else (if all[0] !in used then [all[0]] else []) + Unused(all[1..], used)
  }

  /** The addresses of the records whose last status is a success, kept
      when they are among the unused proxies, in table order. */
  function Priority(records: seq<ProxyRecord>, unused: seq<string>): (r: seq<string>)
    ensures forall x :: x in r ==> x in unused
    ensures forall x :: x in r ==> exists i :: 0 <= i < |records| && records[i].lastStatus == Some("success") && Render(records[i]) == x
    ensures forall i :: 0 <= i < |records| && records[i].lastStatus == Some("success") && Render(records[i]) in unused ==>
      Render(records[i]) in r
    decreases |records|
  {
    if records == [] then []
    else
      var rest := Priority(records[1..], unused);
      assert forall i :: 1 <= i < |records| ==> records[i] == records[1..][i - 1];
      assert forall x :: x in rest ==> exists i :: 1 <= i < |records| && records[i].lastStatus == Some("success") && Render(records[i]) == x by {
        forall x | x in rest
          ensures exists i :: 1 <= i < |records| && records[i].lastStatus == Some("success") && Render(records[i]) == x
        {
          var j :| 0 <= j < |records[1..]| && records[1..][j].lastStatus == Some("success") && Render(records[1..][j]) == x;
          assert records[j + 1] == records[1..][j];
        }
      }
      (if records[0].lastStatus == Some("success") && Render(records[0]) in unused then [Render(records[0])] else []) + rest
  }

  /** A success record of the table whose address is unused. */
  predicate IsPriority(r: ProxyRecord, unused: seq<string>) {
    r.lastStatus == Some("success") && Render(r) in unused
  }

  /** The addresses at the given positions of the table. */
  function RendersAt(records: seq<ProxyRecord>, idx: seq<nat>): (rs: seq<string>)
    requires forall t :: 0 <= t < |idx| ==> idx[t] < |records|
    ensures |rs| == |idx|
  {
    seq(|idx|, t requires 0 <= t < |idx| => Render(records[idx[t]]))
  }

  /** The priority list is exactly the addresses of the success records
      whose address is unused, in table order: those at the positions
      `Select` keeps. */
  lemma PriorityInOrder(records: seq<ProxyRecord>, unused: seq<string>)
    ensures Priority(records, unused) == RendersAt(records, Select(records, r => IsPriority(r, unused), 0))
  {
    PriorityFrom(records, unused, r => IsPriority(r, unused), 0);
    assert records[0..] == records;
  }

  lemma {:induction false} PriorityFrom(records: seq<ProxyRecord>, unused: seq<string>, keep: ProxyRecord -> bool, k: nat)
    requires k <= |records|
    requires forall r :: keep(r) == IsPriority(r, unused)
    ensures Priority(records[k..], unused) == RendersAt(records, Select(records, keep, k))
    decreases |records| - k
  {
    if k < |records| {
      PriorityFrom(records, unused, keep, k + 1);
      var s := records[k..];
      assert s[0] == records[k] && s[1..] == records[k + 1..];
      assert keep(records[k]) == IsPriority(records[k], unused);
      var rest := Select(records, keep, k + 1);
      if keep(records[k]) {
        assert Priority(s, unused) == [Render(records[k])] + Priority(records[k + 1..], unused);
        assert Select(records, keep, k) == [k] + rest;
        RendersAtCons(records, k, rest);
      } else {
        assert Priority(s, unused) == Priority(records[k + 1..], unused);
        assert Select(records, keep, k) == rest;
      }
    }
  }

  lemma RendersAtCons(records: seq<ProxyRecord>, k: nat, rest: seq<nat>)
    requires k < |records| && forall t :: 0 <= t < |rest| ==> rest[t] < |records|
    ensures RendersAt(records, [k] + rest) == [Render(records[k])] + RendersAt(records, rest)
  {
  }

  /** `get_unused_proxies`: the successful proxies first, then the other
      unused proxies in list order. */
  function GetUnusedProxies(records: seq<ProxyRecord>, all: seq<string>): seq<string> {
    var unused := Unused(all, UsedAddresses(records));
    var priority := Priority(records, unused);
    priority + Unused(unused, set x | x in priority)
  }

  /** No address with a complete status record is offered, and every
      proxy of the list without one is. */
  lemma UnusedProxiesExact(records: seq<ProxyRecord>, all: seq<string>)
    ensures forall x :: x in GetUnusedProxies(records, all) <==> x in all && x !in UsedAddresses(records)
  {
  }

  /** A success record with its ip and port set also marks that proxy as
      used, so only records with a NULL ip or port can put a proxy first. */
  lemma {:induction false} PriorityFromIncompleteRecords(records: seq<ProxyRecord>, all: seq<string>)
    ensures forall x :: x in Priority(records, Unused(all, UsedAddresses(records))) ==>
      exists i :: 0 <= i < |records| && records[i].lastStatus == Some("success") && Render(records[i]) == x
                  && (records[i].ip.None? || records[i].port.None?)
  {
    var unused := Unused(all, UsedAddresses(records));
    forall x | x in Priority(records, unused)
      ensures exists i :: 0 <= i < |records| && records[i].lastStatus == Some("success") && Render(records[i]) == x
                          && (records[i].ip.None? || records[i].port.None?)
    {
      var i :| 0 <= i < |records| && records[i].lastStatus == Some("success") && Render(records[i]) == x;
      assert x !in UsedAddresses(records);
    }
  }

  /** When every record has its ip and port, the result is the unused list
      in its original order. */
  lemma NoPriorityWithCompleteRecords(records: seq<ProxyRecord>, all: seq<string>)
    requires forall i :: 0 <= i < |records| ==> records[i].ip.Some? && records[i].port.Some?
    ensures GetUnusedProxies(records, all) == Unused(all, UsedAddresses(records))
  {
    var unused := Unused(all, UsedAddresses(records));
    PriorityEmpty(records, unused);
    assert (set x | x in Priority(records, unused)) == {};
    UnusedNothing(unused);
  }

  /** With no status record, every proxy of the list is offered, in list
      order. */
  lemma AfterResetAllOffered(all: seq<string>)
    ensures GetUnusedProxies([], all) == all
  {
    assert UsedAddresses([]) == {};
    UnusedNothing(all);
    PriorityEmpty([], all);
    assert (set x | x in Priority([], all)) == {};
  }

  lemma {:induction false} UnusedNothing(all: seq<string>)
    ensures Unused(all, {}) == all
    decreases |all|
  {
    if all != [] {
      UnusedNothing(all[1..]);
    }
  }

  lemma {:induction false} PriorityEmpty(records: seq<ProxyRecord>, unused: seq<string>)
    requires forall i :: 0 <= i < |records| ==> Render(records[i]) !in unused
    ensures Priority(records, unused) == []
    decreases |records|
  {
    if records != [] {
      assert forall i :: 0 <= i < |records[1..]| ==> records[1..][i] == records[i + 1];
      PriorityEmpty(records[1..], unused);
    }
  }

  // ----- mark_proxy_used -----

  /** The ASCII characters `str.strip()` removes: space, tab, line feed,
      carriage return, vertical tab, form feed and the separators 0x1c to
      0x1f. */
  predicate IsSpace(c: char) {
    c == ' ' || c == '\t' || c == '\n' || c == '\r' || c as int == 11 || c as int == 12 || 0x1c <= c as int <= 0x1f
  }

  function StripLeft(s: string): (r: string)
    ensures |r| <= |s|
    decreases |s|
  {
    if |s| > 0 && IsSpace(s[0]) then StripLeft(s[1..]) else s
  }

  function StripRight(s: string): (r: string)
    ensures |r| <= |s|
    decreases |s|
  {
    if |s| > 0 && IsSpace(s[|s| - 1]) then StripRight(s[..|s| - 1]) else s
  }

  function Strip(s: string): string {
    StripRight(StripLeft(s))
  }

  /** `s.split(c, 1)` when `c` occurs: the text before the first `c` and
      the text after it. */
  function SplitFirst(s: string, c: char): (r: Option<(string, string)>)
    ensures r.None? <==> c !in s
    ensures r.Some? ==> s == r.value.0 + [c] + r.value.1 && c !in r.value.0
    decreases |s|
  {
    if s == [] then None
    else if s[0] == c then Some(([], s[1..]))
    else
      match SplitFirst(s[1..], c)
      case None => None
      case Some(p) => Some(([s[0]] + p.0, p.1))
  }

  predicate IsDigit(c: char) {
    '0' <= c <= '9'
  }

  function DigitValue(c: char): nat
    requires IsDigit(c)
  {
    c as int - '0' as int
  }

  function DigitsValue(t: string): nat
    requires forall i :: 0 <= i < |t| ==> IsDigit(t[i])
    decreases |t|
  {
    if t == [] then 0 else DigitsValue(t[..|t| - 1]) * 10 + DigitValue(t[|t| - 1])
  }

  /** `int(port)`: whitespace around the number is ignored, and what is
      left must be decimal digits; otherwise `int` raises. */
  function ParsePort(t: string): (r: Option<nat>)
    ensures r.Some? <==> |Strip(t)| > 0 && forall i :: 0 <= i < |Strip(t)| ==> IsDigit(Strip(t)[i])
  {
    var d := Strip(t);
    if |d| > 0 && forall i :: 0 <= i < |d| ==> IsDigit(d[i]) then Some(DigitsValue(d)) else None
  }

  predicate AllSpace(s: string) {
    forall i :: 0 <= i < |s| ==> IsSpace(s[i])
  }

  /** Reading back a written port number gives the number, whatever
      whitespace surrounds it. */
  lemma ParsePortPadded(before: string, n: nat, after: string)
    requires AllSpace(before) && AllSpace(after)
    ensures ParsePort(before + NatToString(n) + after) == Some(n)
  {
    var d := NatToString(n);
    DigitsRoundTrip(n);
    assert !IsSpace(d[0]) && !IsSpace(d[|d| - 1]);
    StripLeftPad(before, d + after);
    assert before + d + after == before + (d + after);
    StripRightPad(d, after);
  }

  /** Reading back a written port number gives the number. */
  lemma ParsePortRoundTrip(n: nat)
    ensures ParsePort(NatToString(n)) == Some(n)
  {
    ParsePortPadded([], n, []);
    assert [] + NatToString(n) + [] == NatToString(n);
  }

  lemma {:induction false} StripLeftPad(a: string, s: string)
    requires AllSpace(a) && s != [] && !IsSpace(s[0])
    ensures StripLeft(a + s) == s
    decreases |a|
  {
    if a == [] {
      assert a + s == s;
    } else {
      assert (a + s)[1..] == a[1..] + s;
      StripLeftPad(a[1..], s);
    }
  }

  lemma {:induction false} StripRightPad(s: string, b: string)
    requires AllSpace(b) && s != [] && !IsSpace(s[|s| - 1])
    ensures StripRight(s + b) == s
    decreases |b|
  {
    if b == [] {
      assert s + b == s;
    } else {
      assert (s + b)[..|s + b| - 1] == s + b[..|b| - 1];
      StripRightPad(s, b[..|b| - 1]);
    }
  }

  lemma {:induction false} DigitsRoundTrip(n: nat)
    ensures forall i :: 0 <= i < |NatToString(n)| ==> IsDigit(NatToString(n)[i])
    ensures DigitsValue(NatToString(n)) == n
    decreases n
  {
    var s := NatToString(n);
    if n < 10 {
      assert s == [DigitChar(n)];
      assert s[..0] == [];
    } else {
      DigitsRoundTrip(n / 10);
      var t := NatToString(n / 10);
      assert s == t + [DigitChar(n % 10)];
      assert forall i :: 0 <= i < |s| ==> IsDigit(s[i]) by {
        forall i | 0 <= i < |s|
          ensures IsDigit(s[i])
        {
          if i < |t| {
            assert s[i] == t[i];
          }
        }
      }
      assert s[..|s| - 1] == t;
    }
  }

  /** The index of the first record for `ip:port`, as the query's `.first()`. */
  function FindRecord(records: seq<ProxyRecord>, ip: string, port: nat): (r: Option<nat>)
    ensures r.Some? ==> r.value < |records| && records[r.value].ip == Some(ip) && records[r.value].port == Some(port)
    ensures r.Some? ==> forall j :: 0 <= j < r.value ==> !(records[j].ip == Some(ip) && records[j].port == Some(port))
    ensures r.None? ==> forall j :: 0 <= j < |records| ==> !(records[j].ip == Some(ip) && records[j].port == Some(port))
    decreases |records|
  {
    if records == [] then None
    else if records[0].ip == Some(ip) && records[0].port == Some(port) then Some(0)
    else
      match FindRecord(records[1..], ip, port)
      case None => None
      case Some(i) => Some(i + 1)
  }

  function StatusText(success: bool): string {
    if success then "success" else "fail"
  }

  /** `mark_proxy_used`: an address without `:` or with a port that is not
      a number changes nothing; otherwise the first record for that ip and
      port is updated, or one new record is appended. */
  function MarkUsed(records: seq<ProxyRecord>, addr: string, success: bool, now: int): seq<ProxyRecord> {
    if ':' !in addr then records
    else
      match SplitFirst(Strip(addr), ':')
      case None => records
      case Some(parts) =>
        match ParsePort(parts.1)
        case None => records
        case Some(port) =>
          match FindRecord(records, parts.0, port)
          case Some(i) => records[i := records[i].(lastStatus := Some(StatusText(success)), success := Some(success), lastUsedAt := Some(now))]
          case None => records + [ProxyRecord(Some(parts.0), Some(port), Some(StatusText(success)), Some(success), Some(now))]
  }

  /** The upsert either leaves the table alone, or updates one record in
      place keeping its ip and port, or appends exactly one record; a
      record of the table is never removed. */
  lemma MarkUsedShape(records: seq<ProxyRecord>, addr: string, success: bool, now: int)
    ensures var r := MarkUsed(records, addr, success, now);
      || r == records
      || (|r| == |records| && (exists i :: 0 <= i < |records| && r == records[i := r[i]]
                                           && r[i].ip == records[i].ip && r[i].port == records[i].port
                                           && r[i].lastStatus == Some(StatusText(success)) && r[i].success == Some(success)))
      || (r[..|records|] == records && |r| == |records| + 1 && r[|records|].lastStatus == Some(StatusText(success)))
    ensures ':' !in addr ==> MarkUsed(records, addr, success, now) == records
  {
    var r := MarkUsed(records, addr, success, now);
    if ':' in addr {
      match SplitFirst(Strip(addr), ':')
      case None =>
      case Some(parts) =>
        match ParsePort(parts.1)
        case None =>
        case Some(port) =>
          match FindRecord(records, parts.0, port)
          case Some(i) =>
            assert r == records[i := r[i]];
          case None =>
            assert r[..|records|] == records;
    }
  }

  /** Marking never takes an address out of the used set. */
  lemma MarkUsedKeepsUsed(records: seq<ProxyRecord>, addr: string, success: bool, now: int)
    ensures UsedAddresses(records) <= UsedAddresses(MarkUsed(records, addr, success, now))
  {
    var r := MarkUsed(records, addr, success, now);
    MarkUsedShape(records, addr, success, now);
    forall x | x in UsedAddresses(records)
      ensures x in UsedAddresses(r)
    {
      var i :| 0 <= i < |records| && records[i].ip.Some? && records[i].port.Some? && Render(records[i]) == x;
      if r != records && |r| == |records| {
        var k :| 0 <= k < |records| && r == records[k := r[k]] && r[k].ip == records[k].ip && r[k].port == records[k].port;
        assert Render(r[i]) == x;
      } else if r != records {
        assert r[i] == r[..|records|][i];
      }
    }
  }

  /** An address written as an ip without `:` and not starting with
      whitespace, a `:`, and a port number in plain decimal. */
  predicate Canonical(addr: string, ip: string, port: nat) {
    addr == ip + ":" + NatToString(port) && ':' !in ip && (ip == [] || !IsSpace(ip[0]))
  }

  lemma {:induction false} StripCanonical(ip: string, port: nat)
    requires ':' !in ip && (ip == [] || !IsSpace(ip[0]))
    ensures Strip(ip + ":" + NatToString(port)) == ip + ":" + NatToString(port)
  {
    var s := ip + ":" + NatToString(port);
    assert s[0] == if ip == [] then ':' else ip[0];
    var digits := NatToString(port);
    DigitsRoundTrip(port);
    assert IsDigit(digits[|digits| - 1]);
    assert s[|s| - 1] == digits[|digits| - 1];
  }

  lemma {:induction false} SplitCanonical(ip: string, rest: string)
    requires ':' !in ip
    ensures SplitFirst(ip + ":" + rest, ':') == Some((ip, rest))
    decreases |ip|
  {
    if ip != [] {
      SplitCanonical(ip[1..], rest);
      assert ip[0] in ip;
      assert (ip + ":" + rest)[0] == ip[0];
      assert (ip + ":" + rest)[1..] == ip[1..] + ":" + rest;
      assert [ip[0]] + ip[1..] == ip;
    }
  }

  /** A proxy marked under its canonical address, successful or not, is no
      longer offered as unused. */
  lemma MarkedNotOffered(records: seq<ProxyRecord>, all: seq<string>, addr: string, ip: string, port: nat, success: bool, now: int)
    requires Canonical(addr, ip, port)
    ensures addr in UsedAddresses(MarkUsed(records, addr, success, now))
    ensures addr !in GetUnusedProxies(MarkUsed(records, addr, success, now), all)
  {
    StripCanonical(ip, port);
    SplitCanonical(ip, NatToString(port));
    ParsePortRoundTrip(port);
    assert ':' in addr by {
      assert addr[|ip|] == ':';
    }
    var r := MarkUsed(records, addr, success, now);
    match FindRecord(records, ip, port)
    case Some(i) =>
      assert r[i].ip == Some(ip) && r[i].port == Some(port);
      assert Render(r[i]) == addr;
    case None =>
      assert r[|records|].ip == Some(ip) && r[|records|].port == Some(port);
      assert Render(r[|records|]) == addr;
    UnusedProxiesExact(r, all);
  }

  // ----- get_working_proxy -----

  function Take(xs: seq<string>, n: nat): (r: seq<string>)
    ensures |r| <= n && (|xs| <= n ==> r == xs) && (n <= |xs| ==> r == xs[..n])
  {
    if n <= |xs| then xs[..n] else xs
  }

  /** The first candidate that passes the test. */
  function FirstWorking(candidates: seq<string>, working: set<string>): (r: Option<string>)
    ensures r.Some? ==> r.value in working && r.value in candidates
    ensures r.None? <==> forall i :: 0 <= i < |candidates| ==> candidates[i] !in working
    decreases |candidates|
  {
    if candidates == [] then None
    else if candidates[0] in working then Some(candidates[0])
    else
      var r := FirstWorking(candidates[1..], working);
      assert forall i :: 1 <= i < |candidates| ==> candidates[i] == candidates[1..][i - 1];
      r
  }

  /** The candidates tested and failed before the first working one. */
  function FailedBefore(candidates: seq<string>, working: set<string>): (r: seq<string>)
    ensures |r| <= |candidates| && r == candidates[..|r|]
    ensures forall x :: x in r ==> x !in working
    ensures |r| < |candidates| <==> FirstWorking(candidates, working).Some?
    ensures |r| < |candidates| ==> FirstWorking(candidates, working) == Some(candidates[|r|])
    decreases |candidates|
  {
    if candidates == [] || candidates[0] in working then []
    else
      var rest := FailedBefore(candidates[1..], working);
      assert candidates[1..][..|rest|] == rest;
      assert candidates[..|rest| + 1] == [candidates[0]] + rest;
      [candidates[0]] + rest
  }

  /** Failure records for each address in turn. */
  function MarkAllFailed(records: seq<ProxyRecord>, addrs: seq<string>, now: int): seq<ProxyRecord>
    decreases |addrs|
  {
    if addrs == [] then records else MarkAllFailed(MarkUsed(records, addrs[0], false, now), addrs[1..], now)
  }

  /** Testing candidate `i` after `i` failures: it is the first working
      one exactly when it passes. */
  lemma FailedBeforeStep(candidates: seq<string>, working: set<string>, i: nat)
    requires i < |candidates| && i <= |FailedBefore(candidates, working)|
    ensures candidates[i] in working ==> i == |FailedBefore(candidates, working)| && FirstWorking(candidates, working) == Some(candidates[i])
    ensures candidates[i] !in working ==> i < |FailedBefore(candidates, working)|
  {
    var failed := FailedBefore(candidates, working);
    if i < |failed| {
      assert failed[i] == candidates[i];
    }
  }

  lemma {:induction false} MarkAllSnoc(records: seq<ProxyRecord>, addrs: seq<string>, a: string, now: int)
    ensures MarkAllFailed(records, addrs + [a], now) == MarkUsed(MarkAllFailed(records, addrs, now), a, false, now)
    decreases |addrs|
  {
    if addrs != [] {
      assert (addrs + [a])[1..] == addrs[1..] + [a];
      MarkAllSnoc(MarkUsed(records, addrs[0], false, now), addrs[1..], a, now);
    }
  }

  lemma {:induction false} MarkAllKeepsUsed(records: seq<ProxyRecord>, addrs: seq<string>, now: int)
    ensures UsedAddresses(records) <= UsedAddresses(MarkAllFailed(records, addrs, now))
    decreases |addrs|
  {
    if addrs != [] {
      MarkUsedKeepsUsed(records, addrs[0], false, now);
      MarkAllKeepsUsed(MarkUsed(records, addrs[0], false, now), addrs[1..], now);
    }
  }

  /** After a search, no proxy that failed the test under its canonical
      address is offered again. */
  lemma {:induction false} FailedNotOfferedAgain(records: seq<ProxyRecord>, all: seq<string>, addrs: seq<string>, now: int,
                                                 k: nat, ip: string, port: nat)
    requires k < |addrs| && Canonical(addrs[k], ip, port)
    ensures addrs[k] !in GetUnusedProxies(MarkAllFailed(records, addrs, now), all)
    decreases |addrs|
  {
    if k == 0 {
      MarkedNotOffered(records, all, addrs[0], ip, port, false, now);
      MarkAllKeepsUsed(MarkUsed(records, addrs[0], false, now), addrs[1..], now);
    } else {
      FailedNotOfferedAgain(MarkUsed(records, addrs[0], false, now), all, addrs[1..], now, k - 1, ip, port);
    }
    UnusedProxiesExact(MarkAllFailed(records, addrs, now), all);
  }

  /** The proxy status table. */
  class ProxyTable {
    var records: seq<ProxyRecord>

    constructor(rows: seq<ProxyRecord>)
      ensures records == rows
    {
      records := rows;
    }

    method MarkProxyUsed(proxyAddr: string, success: bool, now: int)
      modifies this`records
      ensures records == MarkUsed(old(records), proxyAddr, success, now)
    {
      if ':' !in proxyAddr {
        return;
      }
      var parts := SplitFirst(Strip(proxyAddr), ':');
      if parts.None? {
        return;
      }
      var ip := parts.value.0;
      var port := ParsePort(parts.value.1);
      if port.None? {
        return;
      }
      var existing := FindRecord(records, ip, port.value);
      if existing.Some? {
        var i := existing.value;
        records := records[i := records[i].(lastStatus := Some(StatusText(success)), success := Some(success), lastUsedAt := Some(now))];
      } else {
        records := records + [ProxyRecord(Some(ip), Some(port.value), Some(StatusText(success)), Some(success), Some(now))];
      }
    }

    /** `reset_proxy_usage`: every status record is deleted. */
    method ResetProxyUsage()
      modifies this`records
      ensures records == []
    {
      records := [];
    }

    /** `get_working_proxy`: test the first `maxTest` unused proxies in
        order, return the first that passes, and record each one tested
        before it as failed. */
    method GetWorkingProxy(allProxies: seq<string>, working: set<string>, maxTest: nat, now: int) returns (r: Option<string>)
      modifies this`records
      ensures var candidates := Take(GetUnusedProxies(old(records), allProxies), maxTest);
        && r == FirstWorking(candidates, working)
        && records == MarkAllFailed(old(records), FailedBefore(candidates, working), now)
    {
      var unusedProxies := GetUnusedProxies(records, allProxies);
      r := TestCandidates(Take(unusedProxies, maxTest), working, now);
    }

    /** The loop of `get_working_proxy` over the candidates. */
    method TestCandidates(candidates: seq<string>, working: set<string>, now: int) returns (r: Option<string>)
      modifies this`records
      ensures r == FirstWorking(candidates, working)
      ensures records == MarkAllFailed(old(records), FailedBefore(candidates, working), now)
    {
      ghost var failed := FailedBefore(candidates, working);
      var i := 0;
      while i < |candidates|
        invariant i <= |failed|
        invariant records == MarkAllFailed(old(records), candidates[..i], now)
      {
        var proxyAddr := candidates[i];
        FailedBeforeStep(candidates, working, i);
        if proxyAddr in working {
          return Some(proxyAddr);
        }
        MarkAllSnoc(old(records), candidates[..i], proxyAddr, now);
        assert candidates[..i + 1] == candidates[..i] + [proxyAddr];
        MarkProxyUsed(proxyAddr, false, now);
        i := i + 1;
      }
      assert failed == candidates;
      return None;
    }
  }
}
