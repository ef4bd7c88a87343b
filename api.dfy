/**
 * The request side of the archiver (public/api.php): adding a download to the
 * queue, promoting the head of the queue when nothing is downloading, deleting
 * a library record, the status read, and the input checks of the `download`
 * and `videos` routes.
 */
module Api {
  import opened Wrappers
  import opened Documents
  import Php

  /** The reply of `startDownload`. */
  datatype StartReply = StartReply(success: bool, id: string, message: string)

  /** The reply of `deleteVideo`. */
  datatype DeleteReply = DeleteReply(success: bool, message: string)

  /** The reply of `getDownloadStatus`. */
  datatype DownloadStatus = DownloadStatus(current: Option<QueueItem>, queue: seq<QueueItem>, progress: Progress)

  /** What a route answers: its handler's reply, or the message of the exception it threw. */
  datatype RouteReply<T> = Handled(reply: T) | Failed(error: string)

  /** The item `startDownload` appends. */
  function NewItem(id: string, url: string, format: string, now: string): QueueItem {
    QueueItem(id, url, format, "queued", now)
  }

  /** The queue document after `processQueue`: the head becomes current, but only when nothing is current. */
  function Dispatch(d: QueueDoc): (r: QueueDoc)
    ensures Pending(r) == Pending(d)
    ensures d.current.Some? || d.queue == [] ==> r == d
    ensures d.current.None? && d.queue != [] ==> r.current == Some(d.queue[0]) && r.queue == d.queue[1..]
  {
    if d.current.Some? || d.queue == [] then d else QueueDoc(d.queue[1..], Some(d.queue[0]))
  }

  /** The workers `processQueue` starts: one for the promoted item, or none. */
  function Dispatched(d: QueueDoc): seq<QueueItem> {
    if d.current.Some? || d.queue == [] then [] else [d.queue[0]]
  }

  /** The queue document after `startDownload`: append, then dispatch if nothing was current. */
  function Admit(d: QueueDoc, item: QueueItem): QueueDoc {
    var appended := QueueDoc(d.queue + [item], d.current);
    if d.current.None? then Dispatch(appended) else appended
  }

  /** The workers `startDownload` starts. */
  function Admitted(d: QueueDoc, item: QueueItem): seq<QueueItem> {
    if d.current.None? then Dispatched(QueueDoc(d.queue + [item], d.current)) else []
  }

  /**
   * Admission is FIFO: the new item goes behind everything pending. A running
   * job is never displaced, and when nothing was running the oldest pending
   * item (not necessarily the new one) is promoted and gets the one worker started.
   */
  lemma AdmitIsFifo(d: QueueDoc, item: QueueItem)
    ensures Pending(Admit(d, item)) == Pending(d) + [item]
    ensures d.current.Some? ==> Admit(d, item) == QueueDoc(d.queue + [item], d.current) && Admitted(d, item) == []
    ensures d.current.None? ==> Admit(d, item).current == Some((d.queue + [item])[0])
                                && Admitted(d, item) == [(d.queue + [item])[0]]
  {
    var appended := QueueDoc(d.queue + [item], d.current);
    assert Pending(appended) == Pending(d) + [item];
  }

  /** A worker is only ever started for the item that has just become current, and only when nothing was current. */
  lemma DispatchStartsOnlyWhenIdle(d: QueueDoc)
    ensures Dispatched(d) != [] ==> d.current.None? && Dispatch(d).current == Some(Dispatched(d)[0])
    ensures |Dispatched(d)| <= 1
  {
  }

  /** `processQueue`. */
  method ProcessQueue(st: Store)
    requires st.Valid()
    modifies st`queue, st`current, st`spawned
    ensures st.Valid()
    ensures st.Doc() == Dispatch(old(st.Doc()))
    ensures st.spawned == old(st.spawned) + Dispatched(old(st.Doc()))
  {
    if st.current.Some? || st.queue == [] {
      return;
    }
    var item := st.queue[0];
    st.queue := st.queue[1..];
    st.current := Some(item);
    st.spawned := st.spawned + [item];
    assert old(st.queue) == [item] + st.queue;
  }

  /** `startDownload`, with the fresh id and the timestamp as inputs. */
  method StartDownload(st: Store, url: string, format: string, id: string, now: string) returns (r: StartReply)
    requires st.Valid()
    modifies st`queue, st`current, st`spawned, st`submitted
    ensures st.Valid()
    ensures r == StartReply(true, id, "Added to queue")
    ensures st.submitted == old(st.submitted) + [NewItem(id, url, format, now)]
    ensures st.Doc() == Admit(old(st.Doc()), NewItem(id, url, format, now))
    ensures st.spawned == old(st.spawned) + Admitted(old(st.Doc()), NewItem(id, url, format, now))
  {
    var item := NewItem(id, url, format, now);
    var wasIdle := st.current.None?;
    st.queue := st.queue + [item];
    st.submitted := st.submitted + [item];
    if wasIdle {
      ProcessQueue(st);
    }
    r := StartReply(true, id, "Added to queue");
  }

  /** The index `array_search` finds for `id` in the ids of the library: the first match. */
  function IndexOfVideo(videos: seq<VideoRecord>, id: string): (r: Option<nat>)
    ensures r.None? <==> forall i :: 0 <= i < |videos| ==> videos[i].id != id
    ensures r.Some? ==> r.value < |videos| && videos[r.value].id == id
    ensures r.Some? ==> forall j :: 0 <= j < r.value ==> videos[j].id != id
  {
    if videos == [] then None
    else if videos[0].id == id then Some(0)
    else match IndexOfVideo(videos[1..], id)
      case None => None
      case Some(k) => Some(k + 1)
  }

  /** The library database and the videos directory together. */
  datatype Library = Library(videos: seq<VideoRecord>, files: seq<DirEntry>)

  /** The effect of `deleteVideo`: the reply and the new library. */
  function DeleteFrom(lib: Library, id: string): (r: (DeleteReply, Library))
    ensures IndexOfVideo(lib.videos, id).None? ==> r == (DeleteReply(false, "Video not found"), lib)
    ensures IndexOfVideo(lib.videos, id).Some? ==> r.0 == DeleteReply(true, "Video deleted")
  {
    match IndexOfVideo(lib.videos, id)
    case None => (DeleteReply(false, "Video not found"), lib)
    case Some(k) =>
      (DeleteReply(true, "Video deleted"),
       Library(lib.videos[..k] + lib.videos[k + 1..], Unlink(lib.files, lib.videos[k].filename)))
  }

  /** Removing the entry at `k` shifts everything after it down by one and keeps the order. */
  lemma RemoveAtShifts(v: seq<VideoRecord>, k: nat)
    requires k < |v|
    ensures |v[..k] + v[k + 1..]| == |v| - 1
    ensures forall i :: 0 <= i < |v| - 1 ==> (v[..k] + v[k + 1..])[i] == if i < k then v[i] else v[i + 1]
  {
  }

  /** Removing a record keeps ids distinct, and removes the only record with its id. */
  lemma RemoveAtKeepsDistinct(v: seq<VideoRecord>, k: nat)
    requires k < |v| && DistinctIds(v)
    ensures DistinctIds(v[..k] + v[k + 1..])
    ensures forall w :: w in v[..k] + v[k + 1..] ==> w.id != v[k].id
  {
    var after := v[..k] + v[k + 1..];
    RemoveAtShifts(v, k);
    forall i: nat, j: nat | i < j < |after| ensures IdOf(after, i) != IdOf(after, j) {
      var i', j' := if i < k then i else i + 1, if j < k then j else j + 1;
      assert after[i] == v[i'] && after[j] == v[j'] && i' < j';
      assert IdOf(v, i') != IdOf(v, j');
    }
    forall w | w in after ensures w.id != v[k].id {
      var i :| 0 <= i < |after| && after[i] == w;
      var i' := if i < k then i else i + 1;
      assert w == v[i'] && i' != k;
      if i' < k {
        assert IdOf(v, i') != IdOf(v, k);
      } else {
        assert IdOf(v, k) != IdOf(v, i');
      }
    }
  }

  /**
   * A successful delete removes exactly one record, the first with that id, and
   * its file; every other record stays, in order; distinct ids stay distinct and
   * the id is then gone from the library.
   */
  lemma DeleteRemovesFirstMatch(lib: Library, id: string)
    requires IndexOfVideo(lib.videos, id).Some?
    ensures var k := IndexOfVideo(lib.videos, id).value;
            var after := DeleteFrom(lib, id).1;
            && |after.videos| == |lib.videos| - 1
            && (forall i :: 0 <= i < |after.videos| ==> after.videos[i] == if i < k then lib.videos[i] else lib.videos[i + 1])
            && (forall e :: e in after.files <==> e in lib.files && e.name != lib.videos[k].filename)
            && (DistinctIds(lib.videos) ==> DistinctIds(after.videos) && forall w :: w in after.videos ==> w.id != id)
  {
    var k := IndexOfVideo(lib.videos, id).value;
    var after := DeleteFrom(lib, id).1;
    assert after.videos == lib.videos[..k] + lib.videos[k + 1..];
    assert after.files == Unlink(lib.files, lib.videos[k].filename);
    RemoveAtShifts(lib.videos, k);
    if DistinctIds(lib.videos) {
      RemoveAtKeepsDistinct(lib.videos, k);
    }
  }

  /** The library as currently stored. */
  function LibraryOf(st: Store): Library
    reads st
  {
    Library(st.videos, st.files)
  }

  /** `deleteVideo`. */
  method DeleteVideo(st: Store, id: string) returns (r: DeleteReply)
    requires st.Valid()
    modifies st`videos, st`files
    ensures st.Valid()
    ensures (r, LibraryOf(st)) == DeleteFrom(old(LibraryOf(st)), id)
  {
    var index := IndexOfVideo(st.videos, id);
    if index.None? {
      return DeleteReply(false, "Video not found");
    }
    var k := index.value;
    DeleteRemovesFirstMatch(LibraryOf(st), id);
    var video := st.videos[k];
    st.files := Unlink(st.files, video.filename);
    st.videos := st.videos[..k] + st.videos[k + 1..];
    r := DeleteReply(true, "Video deleted");
  }

  /** `getProgress`: the stored record, or the idle record when there is none. */
  function GetProgress(stored: Option<Progress>): (p: Progress)
    ensures stored.None? ==> p == Progress(0, Idle, "", None)
    ensures stored.Some? ==> p == stored.value
  {
    stored.GetOr(IdleProgress)
  }

  /** `getDownloadStatus`: a read that changes nothing. */
  method GetDownloadStatus(st: Store) returns (s: DownloadStatus)
    ensures s.current == st.current && s.queue == st.queue
    ensures s.progress == GetProgress(st.progress)
  {
    s := DownloadStatus(st.current, st.queue, GetProgress(st.progress));
  }

  /** The `download` route: POST only, `url` required (PHP-empty rejected), `format` defaulting to mp4. */
  method HandleDownload(st: Store, httpMethod: string, url: Option<string>, format: Option<string>,
                        id: string, now: string) returns (r: RouteReply<StartReply>)
    requires st.Valid()
    modifies st`queue, st`current, st`spawned, st`submitted
    ensures st.Valid()
    ensures httpMethod != "POST" ==> r == Failed("Method not allowed") && unchanged(st)
    ensures httpMethod == "POST" && Php.IsEmpty(url.GetOr("")) ==> r == Failed("URL is required") && unchanged(st)
    ensures httpMethod == "POST" && !Php.IsEmpty(url.GetOr("")) ==>
              var item := NewItem(id, url.value, format.GetOr("mp4"), now);
              && r == Handled(StartReply(true, id, "Added to queue"))
              && st.submitted == old(st.submitted) + [item]
              && st.Doc() == Admit(old(st.Doc()), item)
              && st.spawned == old(st.spawned) + Admitted(old(st.Doc()), item)
  {
    if httpMethod != "POST" {
      return Failed("Method not allowed");
    }
    var u := url.GetOr("");
    var f := format.GetOr("mp4");
    if Php.IsEmpty(u) {
      return Failed("URL is required");
    }
    var reply := StartDownload(st, u, f, id, now);
    r := Handled(reply);
  }

  /** What the `videos` route answers. */
  datatype VideosReply = Listed(videos: seq<VideoRecord>) | Deletion(reply: DeleteReply) | Rejected(error: string) | NoBody

  /** The `videos` route: GET lists the library, DELETE needs a non-empty `id`. */
  method HandleVideos(st: Store, httpMethod: string, id: Option<string>) returns (r: VideosReply)
    requires st.Valid()
    modifies st`videos, st`files
    ensures st.Valid()
    ensures httpMethod == "GET" ==> r == Listed(st.videos) && unchanged(st)
    ensures httpMethod == "DELETE" && Php.IsEmpty(id.GetOr("")) ==> r == Rejected("Video ID is required") && unchanged(st)
    ensures httpMethod == "DELETE" && !Php.IsEmpty(id.GetOr("")) ==>
              (r.Deletion? && (r.reply, LibraryOf(st)) == DeleteFrom(old(LibraryOf(st)), id.value))
    ensures httpMethod != "GET" && httpMethod != "DELETE" ==> r == NoBody && unchanged(st)
  {
    if httpMethod == "GET" {
      return Listed(st.videos);
    } else if httpMethod == "DELETE" {
      var i := id.GetOr("");
      if Php.IsEmpty(i) {
        return Rejected("Video ID is required");
      }
      var reply := DeleteVideo(st, i);
      return Deletion(reply);
    }
    r := NoBody;
  }

  /** The `action` query parameter, as the router's `switch` tells the cases apart. */
  datatype Route = VersionRoute | UpdateRoute | DownloadRoute | StatusRoute | ProcessRoute | VideosRoute | ServeRoute | UnknownRoute

  /** The case the router takes for an action; every name without its own case falls to "Unknown action". */
  function RouteOf(action: string): (r: Route)
    ensures r == UnknownRoute <==> action !in ["version", "update", "download", "status", "process", "videos", "serve"]
  {
    match action
    case "version" => VersionRoute
    case "update" => UpdateRoute
    case "download" => DownloadRoute
    case "status" => StatusRoute
    case "process" => ProcessRoute
    case "videos" => VideosRoute
    case "serve" => ServeRoute
    case _ => UnknownRoute
  }

  /** The browser's cancel request names an action the router has no case for, so it changes nothing and gets the error reply. */
  lemma CancelIsUnknownAction()
    ensures RouteOf("cancel") == UnknownRoute
  {
  }

  /** The log page's requests (GET and DELETE) name the `logs` action, which has no case either. */
  lemma LogsIsUnknownAction()
    ensures RouteOf("logs") == UnknownRoute
  {
  }

  /** The `process` route: run `processQueue` and report success. */
  method HandleProcess(st: Store) returns (success: bool)
    requires st.Valid()
    modifies st`queue, st`current, st`spawned
    ensures st.Valid()
    ensures success
    ensures st.Doc() == Dispatch(old(st.Doc()))
    ensures st.spawned == old(st.spawned) + Dispatched(old(st.Doc()))
  {
    ProcessQueue(st);
    success := true;
  }
}
