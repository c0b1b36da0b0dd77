/** The status guards of the download routes: start, resume, pause, retry
    and delete. The download table is a map from id to row; each route
    looks the row up, checks its status and sets fields step by step. The
    admission decision of the download manager and the start of the
    download thread are outside this module: admission is an input. */
module Downloader {
  import opened Wrappers
  import opened DownloadCore

  /** The row fields the routes read or write. `useProxy` is `None` when
      the row has no proxy setting. */
  datatype Item = Item(url: string, status: Status, error: Option<string>, directLink: Option<string>, useProxy: Option<bool>)

  /** Why a resumed download stays queued: the total limit, the local
      1fichier limit, or (otherwise) the 1fichier cooldown. */
  datatype WaitReason = TotalLimit | LocalLimit | CooldownActive

  /** What a route answers: 404, 400, a row kept in the queue, a row set
      to downloading, a row stopped, a row deleted. */
  datatype Response = NotFound | BadRequest | Queued(reason: Option<WaitReason>) | Running | Paused | Deleted

  datatype Outcome = Outcome(response: Response, items: map<int, Item>)

  /** The message key chosen by `resume_download` when admission fails. */
  function WaitReasonOf(allCount: nat, localCount: nat): (r: WaitReason)
    ensures r == TotalLimit <==> allCount >= MaxTotalDownloads
    ensures r == LocalLimit <==> allCount < MaxTotalDownloads && localCount >= MaxLocalDownloads
  {
    if allCount >= MaxTotalDownloads then TotalLimit
    else if localCount >= MaxLocalDownloads then LocalLimit
    else CooldownActive
  }

  /** `start_actual_download`. */
  function Start(items: map<int, Item>, id: int, admitted: bool): Outcome {
    if id !in items then Outcome(NotFound, items)
    else if items[id].status != Pending then Outcome(BadRequest, items)
    else if !admitted then Outcome(Queued(None), items[id := items[id].(status := Pending)])
    else Outcome(Running, items[id := items[id].(status := Downloading)])
  }

  /** `resume_download`: a missing proxy setting counts as local, and only
      local downloads are subject to admission. */
  function Resume(items: map<int, Item>, id: int, admitted: bool, allCount: nat, localCount: nat): Outcome {
    if id !in items then Outcome(NotFound, items)
    else if items[id].status != Stopped && items[id].status != Pending then Outcome(BadRequest, items)
    else
      var useProxy := if items[id].useProxy.None? then false else items[id].useProxy.value;
      if !useProxy && !admitted then
        Outcome(Queued(Some(WaitReasonOf(allCount, localCount))), items[id := items[id].(status := Pending)])
      else Outcome(Running, items[id := items[id].(status := Downloading)])
  }

  /** `delete_download`: a running row is stopped first, then removed. */
  function Delete(items: map<int, Item>, id: int): Outcome {
    if id !in items then Outcome(NotFound, items)
    else
      var stopped := if items[id].status == Downloading || items[id].status == Proxying
                     then items[id := items[id].(status := Stopped)] else items;
      Outcome(Deleted, stopped - {id})
  }

  /** `pause_download`. */
  function Pause(items: map<int, Item>, id: int): Outcome {
    if id !in items then Outcome(NotFound, items)
    else if items[id].status != Pending && items[id].status != Downloading && items[id].status != Proxying then
      Outcome(BadRequest, items)
    else Outcome(Paused, items[id := items[id].(status := Stopped)])
  }

  /** `retry_download`: back to the queue with error and direct link
      cleared, then straight to downloading in proxy mode. */
  function Retry(items: map<int, Item>, id: int): Outcome {
    if id !in items then Outcome(NotFound, items)
    else
      var useProxy := if items[id].useProxy.None? then false else items[id].useProxy.value;
      var queued := items[id].(status := Pending, error := None, directLink := None);
      if useProxy then Outcome(Running, items[id := queued.(status := Downloading)])
      else Outcome(Queued(None), items[id := queued])
  }

  /** An unknown id gets 404 from every route and changes nothing. */
  lemma UnknownIdUntouched(items: map<int, Item>, id: int, admitted: bool, allCount: nat, localCount: nat)
    requires id !in items
    ensures Start(items, id, admitted) == Outcome(NotFound, items)
    ensures Resume(items, id, admitted, allCount, localCount) == Outcome(NotFound, items)
    ensures Delete(items, id) == Outcome(NotFound, items)
    ensures Pause(items, id) == Outcome(NotFound, items)
    ensures Retry(items, id) == Outcome(NotFound, items)
  {
  }

  /** Every route touches only the row it names: the other rows are kept
      as they were, and no row is added. */
  lemma OtherRowsUntouched(items: map<int, Item>, id: int, admitted: bool, allCount: nat, localCount: nat)
    ensures forall o :: o in [Start(items, id, admitted), Resume(items, id, admitted, allCount, localCount),
                              Delete(items, id), Pause(items, id), Retry(items, id)] ==>
      && o.items.Keys <= items.Keys
      && forall k :: k in items && k != id ==> k in o.items && o.items[k] == items[k]
  {
  }

  /** `pause_download` succeeds exactly for pending, downloading and
      proxying rows, and then the row is stopped with nothing else changed. */
  lemma PauseGuard(items: map<int, Item>, id: int)
    requires id in items
    ensures var o := Pause(items, id);
      && (o.response == Paused <==> items[id].status in {Pending, Downloading, Proxying})
      && (o.response == Paused ==> o.items[id] == items[id].(status := Stopped))
      && (o.response != Paused ==> o.response == BadRequest && o.items == items)
  {
  }

  /** `resume_download` accepts exactly stopped and pending rows; a row
      without a proxy setting is treated as local, so it is held back when
      admission fails; a proxy row always starts. */
  lemma ResumeGuard(items: map<int, Item>, id: int, admitted: bool, allCount: nat, localCount: nat)
    requires id in items
    ensures var o := Resume(items, id, admitted, allCount, localCount);
      && (o.response == BadRequest <==> items[id].status !in {Stopped, Pending})
      && (o.response == BadRequest ==> o.items == items)
      && (items[id].status in {Stopped, Pending} && items[id].useProxy != Some(true) && !admitted ==>
            o.response.Queued? && o.items[id].status == Pending)
      && (items[id].status in {Stopped, Pending} && (items[id].useProxy == Some(true) || admitted) ==>
            o.response == Running && o.items[id].status == Downloading)
  {
  }

  /** `start_actual_download` only acts on pending rows: it keeps them
      pending when admission fails and sets them downloading otherwise. */
  lemma StartGuard(items: map<int, Item>, id: int, admitted: bool)
    requires id in items
    ensures var o := Start(items, id, admitted);
      && (items[id].status != Pending <==> o.response == BadRequest)
      && (items[id].status == Pending && !admitted ==> o.response == Queued(None) && o.items == items)
      && (items[id].status == Pending && admitted ==> o.response == Running && o.items[id].status == Downloading)
      && (id in o.items && o.items[id].status != items[id].status ==> o.items[id].status == Downloading)
  {
    if items[id].status == Pending && !admitted {
      assert items[id].(status := Pending) == items[id];
    }
  }

  /** `retry_download` always clears the error and the direct link; the
      row ends downloading in proxy mode and pending otherwise. */
  lemma RetryClears(items: map<int, Item>, id: int)
    requires id in items
    ensures var o := Retry(items, id);
      && id in o.items
      && o.items[id].error == None && o.items[id].directLink == None
      && o.items[id].url == items[id].url && o.items[id].useProxy == items[id].useProxy
      && (o.items[id].status == Downloading <==> items[id].useProxy == Some(true))
      && (o.items[id].status != Downloading ==> o.items[id].status == Pending && o.response == Queued(None))
  {
  }

  /** `delete_download` removes the row whatever its status. */
  lemma DeleteRemoves(items: map<int, Item>, id: int)
    requires id in items
    ensures Delete(items, id) == Outcome(Deleted, items - {id})
  {
    var stopped := if items[id].status == Downloading || items[id].status == Proxying
                   then items[id := items[id].(status := Stopped)] else items;
    assert stopped - {id} == items - {id};
  }

  /** A paused row can be resumed. */
  lemma PauseThenResume(items: map<int, Item>, id: int, admitted: bool, allCount: nat, localCount: nat)
    requires Pause(items, id).response == Paused
    ensures Resume(Pause(items, id).items, id, admitted, allCount, localCount).response != BadRequest
  {
  }

  /** A retried local row waits in the queue, from which it can be started. */
  lemma RetryThenStart(items: map<int, Item>, id: int, admitted: bool)
    requires id in items && items[id].useProxy != Some(true)
    ensures var o := Start(Retry(items, id).items, id, admitted);
      o.response == (if admitted then Running else Queued(None))
  {
    var q := items[id].(status := Pending, error := None, directLink := None);
    assert q.(status := Pending) == q;
  }

  /** The download table, with one method per route. */
  class DownloadTable {
    var items: map<int, Item>

    constructor(rows: map<int, Item>)
      ensures items == rows
    {
      items := rows;
    }

    method StartActualDownload(id: int, admitted: bool) returns (r: Response)
      modifies this
      ensures Outcome(r, items) == Start(old(items), id, admitted)
    {
      if id !in items {
        return NotFound;
      }
      var item := items[id];
      if item.status != Pending {
        return BadRequest;
      }
      if !admitted {
        items := items[id := item.(status := Pending)];
        return Queued(None);
      }
      items := items[id := item.(status := Downloading)];
      return Running;
    }

    method ResumeDownload(id: int, admitted: bool, allCount: nat, localCount: nat) returns (r: Response)
      modifies this
      ensures Outcome(r, items) == Resume(old(items), id, admitted, allCount, localCount)
    {
      if id !in items {
        return NotFound;
      }
      var item := items[id];
      if item.status == Stopped || item.status == Pending {
        var originalUseProxy := item.useProxy;
        if originalUseProxy.None? {
          originalUseProxy := Some(false);
        }
        if !originalUseProxy.value && !admitted {
          items := items[id := item.(status := Pending)];
          return Queued(Some(WaitReasonOf(allCount, localCount)));
        }
        items := items[id := item.(status := Downloading)];
        return Running;
      } else {
        return BadRequest;
      }
    }

    method DeleteDownload(id: int) returns (r: Response)
      modifies this
      ensures Outcome(r, items) == Delete(old(items), id)
    {
      if id !in items {
        return NotFound;
      }
      var item := items[id];
      if item.status == Downloading || item.status == Proxying {
        items := items[id := item.(status := Stopped)];
      }
      items := items - {id};
      return Deleted;
    }

    method PauseDownload(id: int) returns (r: Response)
      modifies this
      ensures Outcome(r, items) == Pause(old(items), id)
    {
      if id !in items {
        return NotFound;
      }
      var item := items[id];
      if item.status != Pending && item.status != Downloading && item.status != Proxying {
        return BadRequest;
      }
      items := items[id := item.(status := Stopped)];
      return Paused;
    }

    method RetryDownload(id: int) returns (r: Response)
      modifies this
      ensures Outcome(r, items) == Retry(old(items), id)
    {
      if id !in items {
        return NotFound;
      }
      var item := items[id];
      var originalUseProxy := item.useProxy;
      if originalUseProxy.None? {
        originalUseProxy := Some(false);
      }
      item := item.(status := Pending, error := None, directLink := None);
      items := items[id := item];
      if originalUseProxy.value {
        items := items[id := item.(status := Downloading)];
        return Running;
      }
      return Queued(None);
    }
  }
}
