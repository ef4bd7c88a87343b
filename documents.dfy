/**
 * The three persisted documents that the API and the download worker share
 * (the queue document, the progress document and the library database), the
 * videos directory, and the values stored in them. Both sides re-read and
 * rewrite whole documents; the model keeps them as fields of one store.
 */
module Documents {
  import opened Wrappers
  import Seqs

  /** A queued download request, as `startDownload` builds it. */
  datatype QueueItem = QueueItem(id: string, url: string, format: string, status: string, createdAt: string)

  /** The `status` values of the progress document. */
  datatype Phase = Idle | Starting | Downloading | Complete | Error

  /** The progress document: percent, status, title and the job id (absent or null when idle). */
  datatype Progress = Progress(percent: int, status: Phase, title: string, id: Option<string>)

  /** What `getProgress` reports when there is no progress document or it is unreadable. */
  const IdleProgress := Progress(0, Idle, "", None)

  /** The `type` of a library record. */
  datatype MediaKind = Video | Audio

  /** A library record, as the worker appends it after a successful download. */
  datatype VideoRecord = VideoRecord(id: string, title: string, filename: string, kind: MediaKind,
                                     format: string, size: nat, createdAt: string)

  /** A file in the videos directory. */
  datatype DirEntry = DirEntry(name: string, size: nat)

  /** The queue document: pending items in FIFO order and the item being downloaded, if any. */
  datatype QueueDoc = QueueDoc(queue: seq<QueueItem>, current: Option<QueueItem>)

  /** Every item not yet finished, in execution order: the current one first, then the queue. */
  function Pending(d: QueueDoc): seq<QueueItem> {
    (if d.current.Some? then [d.current.value] else []) + d.queue
  }

  /** The id of the record at position `i`. */
  function IdOf(videos: seq<VideoRecord>, i: nat): string
    requires i < |videos|
  {
    videos[i].id
  }

  /** No two library records share an id. */
  ghost predicate DistinctIds(videos: seq<VideoRecord>) {
    forall i: nat, j: nat :: i < j < |videos| ==> IdOf(videos, i) != IdOf(videos, j)
  }

  /** The test that keeps every directory entry not called `name`. */
  function NameIsNot(name: string): DirEntry -> bool {
    (e: DirEntry) => e.name != name
  }

  /** `unlink` of one name in the videos directory; a name that is not there is no error. */
  function Unlink(files: seq<DirEntry>, name: string): (r: seq<DirEntry>)
    ensures r == Seqs.Filter(files, NameIsNot(name))
    ensures forall e :: e in r <==> e in files && e.name != name
  {
    forall e ensures e in Seqs.Filter(files, NameIsNot(name)) <==> e in files && e.name != name {
      Seqs.FilterMembership(files, NameIsNot(name), e);
    }
    Seqs.Filter(files, NameIsNot(name))
  }

  /**
   * The shared state. `progress` is None when the progress document does not
   * exist yet. `files` lists the videos directory in the order `glob` reports it.
   * `spawned` records every "start a worker for this item" event, in order.
   */
  class Store {
    var queue: seq<QueueItem>
    var current: Option<QueueItem>
    var progress: Option<Progress>
    var videos: seq<VideoRecord>
    var files: seq<DirEntry>
    var spawned: seq<QueueItem>
    /** Every item ever submitted, in submission order. */
    ghost var submitted: seq<QueueItem>

    /** FIFO: workers are started for submitted items in exactly submission order, and what is not started yet is the queue. */
    ghost predicate Valid()
      reads this
    {
      submitted == spawned + queue && DistinctIds(videos)
    }

    /** The queue document as currently stored. */
    function Doc(): QueueDoc
      reads this
    {
      QueueDoc(queue, current)
    }

    /** The state the API creates on first use: an empty queue, nothing current, an empty library. */
    constructor ()
      ensures Valid()
      ensures queue == [] && current == None && progress == None
      ensures videos == [] && files == [] && spawned == [] && submitted == []
    {
      queue, current, progress := [], None, None;
      videos, files, spawned := [], [], [];
      submitted := [];
    }

    /** `isStillCurrentDownload`: the queue document's current item has this id. */
    predicate IsStillCurrentDownload(id: string)
      reads this
    {
      current.Some? && current.value.id == id
    }

    /** Cancellation by some other actor: replaces or clears `current` and nothing else. */
    method Supersede(replacement: Option<QueueItem>)
      modifies this`current
      ensures current == replacement
    {
      current := replacement;
    }
  }

  /**
   * At most one job passes the liveness check at any time. This holds because
   * `current` is a single optional item; it does not rule out two workers: a
   * worker's `processNextInQueue` can overwrite a `current` that `processQueue`
   * set meanwhile, which starts a second worker and supersedes the first
   * (`Worker.AdvanceOverwritesCurrent`).
   */
  lemma OneLiveJob(st: Store, a: string, b: string)
    requires st.IsStillCurrentDownload(a) && st.IsStillCurrentDownload(b)
    ensures a == b
  {
  }
}
