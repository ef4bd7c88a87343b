/**
 * The pure pieces and the page state of the main page (public/app.js): the
 * queue view assembled from `getQueueStatus`, the library filter, the sort
 * toggle and the guard on the download form.
 */
module AppPage {
  import opened Wrappers
  import opened Documents
  import Seqs
  import Text

  // ----- Queue view -----

  /** The `getQueueStatus` answer as the page receives it; a missing `queue` array is None. */
  datatype QueueStatus = QueueStatus(queue: Option<seq<QueueItem>>, current: Option<QueueItem>, progress: Option<Progress>)

  /** One element of `items` in `renderQueue`: the queue item, its `active` flag and, on the active one, the progress. */
  datatype Entry = Entry(item: QueueItem, active: bool, progress: Option<Progress>)

  /** The queue items a status carries, None read as none. */
  function Queued(s: QueueStatus): seq<QueueItem> {
    s.queue.GetOr([])
  }

  /** The queue items marked inactive, in order. */
  function Inactive(q: seq<QueueItem>): (r: seq<Entry>)
    ensures |r| == |q|
    ensures forall i :: 0 <= i < |q| ==> r[i] == Entry(q[i], false, None)
  {
    seq(|q|, i requires 0 <= i < |q| => Entry(q[i], false, None))
  }

  /** The entry for the current download, if there is one. */
  function Head(s: QueueStatus): seq<Entry> {
    if s.current.Some? then [Entry(s.current.value, true, s.progress)] else []
  }

  /** What `renderQueue` lists. */
  function Entries(s: QueueStatus): seq<Entry> {
    Head(s) + Inactive(Queued(s))
  }

  /** The queue items behind a list of entries. */
  function ItemsOf(es: seq<Entry>): (r: seq<QueueItem>)
    ensures |r| == |es|
    ensures forall i :: 0 <= i < |es| ==> r[i] == es[i].item
  {
    seq(|es|, i requires 0 <= i < |es| => es[i].item)
  }

  /** The item assembly of `renderQueue`: push the current item, then push every queued item. */
  method AssembleQueue(s: QueueStatus) returns (items: seq<Entry>)
    ensures items == Entries(s)
  {
    items := [];
    if s.current.Some? {
      items := items + [Entry(s.current.value, true, s.progress)];
    }
    if s.queue.Some? {
      var q := s.queue.value;
      var head := items;
      var i := 0;
      while i < |q|
        invariant 0 <= i <= |q|
        invariant |items| == |head| + i
        invariant items[..|head|] == head
        invariant forall k :: 0 <= k < i ==> items[|head| + k] == Entry(q[k], false, None)
      {
        items := items + [Entry(q[i], false, None)];
        i := i + 1;
      }
      assert items == head + Inactive(q);
    }
  }

  /**
   * The queue view lists the current item first, marked active and carrying the
   * progress, then every queued item in order, marked inactive: exactly the
   * pending items in execution order, one entry each.
   */
  lemma EntriesShape(s: QueueStatus)
    ensures |Entries(s)| == (if s.current.Some? then 1 else 0) + |Queued(s)|
    ensures ItemsOf(Entries(s)) == Pending(QueueDoc(Queued(s), s.current))
    ensures forall i :: 0 <= i < |Entries(s)| ==> (Entries(s)[i].active <==> i == 0 && s.current.Some?)
    ensures s.current.Some? ==> Entries(s)[0] == Entry(s.current.value, true, s.progress)
  {
    var es := Entries(s);
    var p := Pending(QueueDoc(Queued(s), s.current));
    var off := if s.current.Some? then 1 else 0;
    assert |ItemsOf(es)| == |p|;
    forall i | 0 <= i < |es|
      ensures ItemsOf(es)[i] == p[i]
    {
      if i >= off {
        assert es[i] == Inactive(Queued(s))[i - off];
      }
    }
  }

  /** The `status` string the worker writes for each phase. */
  function PhaseName(p: Phase): string {
    match p
    case Idle => "idle"
    case Starting => "starting"
    case Downloading => "downloading"
    case Complete => "complete"
    case Error => "error"
  }

  /** What one queue row shows: its title, its status label, its percent and whether it has a progress bar. */
  datatype Row = Row(title: string, caption: string, percent: int, bar: bool)

  /** The per-item display of `renderQueue`. */
  function RowOf(e: Entry): Row {
    var progress := if e.active then e.progress else None;
    var percent := if progress.Some? then progress.value.percent else 0;
    var status := if progress.Some? then PhaseName(progress.value.status) else "queued";
    var title := if progress.Some? && progress.value.title != "" then progress.value.title else e.item.url;
    Row(title, if e.active then status else "Queued", percent, e.active)
  }

  /**
   * Every row after the current one reads "Queued" at 0% under the item's url,
   * without a progress bar; the current row shows the progress percent and
   * status, and its title is the progress title unless that is empty, when it
   * is the url.
   */
  lemma QueueRows(s: QueueStatus)
    ensures forall i :: (if s.current.Some? then 1 else 0) <= i < |Entries(s)| ==>
              RowOf(Entries(s)[i]) == Row(Entries(s)[i].item.url, "Queued", 0, false)
    ensures s.current.Some? && s.progress.Some? ==>
              var r := RowOf(Entries(s)[0]);
              r.percent == s.progress.value.percent && r.caption == PhaseName(s.progress.value.status) && r.bar
              && r.title == (if s.progress.value.title == "" then s.current.value.url else s.progress.value.title)
    ensures s.current.Some? && s.progress.None? ==> RowOf(Entries(s)[0]) == Row(s.current.value.url, "queued", 0, true)
  {
    var off := if s.current.Some? then 1 else 0;
    var es := Entries(s);
    forall i | off <= i < |es|
      ensures RowOf(es[i]) == Row(es[i].item.url, "Queued", 0, false)
    {
      assert es[i] == Inactive(Queued(s))[i - off];
    }
  }

  // ----- Library filter -----

  /** A record's `type` as the API sends it. */
  function KindName(k: MediaKind): string {
    match k
    case Video => "video"
    case Audio => "audio"
  }

  /** The `renderLibrary` filter predicate: the lower-cased title contains the lower-cased search, and the type filter is empty or names the record's type. */
  predicate Matches(v: VideoRecord, search: string, typeFilter: string) {
    Text.Contains(Text.Lower(v.title), Text.Lower(search)) && (typeFilter == "" || KindName(v.kind) == typeFilter)
  }

  /** The library rows shown for a search text and a type filter, before sorting. */
  function FilterLibrary(videos: seq<VideoRecord>, search: string, typeFilter: string): (r: seq<VideoRecord>)
    ensures |r| <= |videos|
  {
    Seqs.Filter(videos, (v: VideoRecord) => Matches(v, search, typeFilter))
  }

  /** A record is shown iff it is in the library and matches; the shown rows keep the library's order. */
  lemma FilterLibraryExact(videos: seq<VideoRecord>, search: string, typeFilter: string)
    ensures forall v :: v in FilterLibrary(videos, search, typeFilter) <==> v in videos && Matches(v, search, typeFilter)
    ensures Seqs.IsSubsequence(FilterLibrary(videos, search, typeFilter), videos)
  {
    var p := (v: VideoRecord) => Matches(v, search, typeFilter);
    forall v ensures v in Seqs.Filter(videos, p) <==> v in videos && Matches(v, search, typeFilter) {
      Seqs.FilterMembership(videos, p, v);
    }
    Seqs.FilterIsSubsequence(videos, p);
  }

  /** With no search text and no type filter the whole library is shown. */
  lemma NoFilterShowsAll(videos: seq<VideoRecord>)
    ensures FilterLibrary(videos, "", "") == videos
  {
    var p := (v: VideoRecord) => Matches(v, "", "");
    forall i | 0 <= i < |videos| ensures p(videos[i]) {
      Text.ContainsEmpty(Text.Lower(videos[i].title));
    }
    Seqs.FilterAll(videos, p);
  }

  // ----- Sort toggle -----

  datatype Direction = Asc | Desc

  /** The sort state after a click on the header of `column`. */
  function NextSort(sortColumn: string, sortDirection: Direction, column: string): (string, Direction) {
    if sortColumn == column then (sortColumn, if sortDirection == Asc then Desc else Asc)
    else (column, Desc)
  }

  /** Clicking the sorted column flips the direction and keeps the column; clicking another column sorts by it, descending. */
  lemma NextSortCases(sortColumn: string, sortDirection: Direction, column: string)
    ensures NextSort(sortColumn, sortDirection, column).0 == column
    ensures sortColumn == column ==> NextSort(sortColumn, sortDirection, column).1 != sortDirection
    ensures sortColumn != column ==> NextSort(sortColumn, sortDirection, column).1 == Desc
  {
  }

  /** Two clicks on the same header restore the direction. */
  lemma ClickTwiceRestores(sortColumn: string, sortDirection: Direction)
    ensures var (c, d) := NextSort(sortColumn, sortDirection, sortColumn);
            NextSort(c, d, sortColumn) == (sortColumn, sortDirection)
  {
  }

  /** The module-level `sortColumn`/`sortDirection`. */
  class SortState {
    var sortColumn: string
    var sortDirection: Direction

    /** The state when the page loads: newest first. */
    constructor ()
      ensures sortColumn == "created_at" && sortDirection == Desc
    {
      sortColumn, sortDirection := "created_at", Desc;
    }

    /** The click listener on a sortable header. */
    method Click(column: string)
      modifies this
      ensures (sortColumn, sortDirection) == NextSort(old(sortColumn), old(sortDirection), column)
    {
      if sortColumn == column {
        sortDirection := if sortDirection == Asc then Desc else Asc;
      } else {
        sortColumn := column;
        sortDirection := Desc;
      }
    }
  }

  // ----- Download form -----

  /** The white space and line terminators `String.prototype.trim` removes. */
  predicate IsJsSpace(c: char) {
    c == '\t' || c == '\n' || c == '\U{000B}' || c == '\U{000C}' || c == '\r' || c == ' '
    || c == '\U{00A0}' || c == '\U{1680}' || ('\U{2000}' <= c <= '\U{200A}')
    || c == '\U{2028}' || c == '\U{2029}' || c == '\U{202F}' || c == '\U{205F}'
    || c == '\U{3000}' || c == '\U{FEFF}'
  }

  /** `value.trim()`. */
  function JsTrim(s: string): string {
    Text.Trim(s, IsJsSpace)
  }

  /** What a submission of the download form does. */
  datatype Submission = Rejected | Requested(url: string, format: string)

  /** The submit listener: an empty trimmed URL is refused with a toast; otherwise `startDownload` runs with the trimmed URL. */
  function Submit(input: string, format: string): (r: Submission)
    ensures r.Rejected? <==> JsTrim(input) == ""
  {
    var url := JsTrim(input);
    if url == "" then Rejected else Requested(url, format)
  }

  /** A requested URL is the input with surrounding white space removed: nonempty, trimmed, and trimming it again changes nothing. */
  lemma SubmittedUrlIsTrimmed(input: string, format: string)
    requires Submit(input, format).Requested?
    ensures var url := Submit(input, format).url;
            url != "" && Text.IsTrimmed(url, IsJsSpace) && JsTrim(url) == url && |url| <= |input|
  {
    Text.TrimCharacterized(input, IsJsSpace);
    Text.TrimIdempotent(input, IsJsSpace);
  }

  /** An input of white space only is always refused. */
  lemma BlankInputRejected(input: string, format: string)
    requires forall i :: 0 <= i < |input| ==> IsJsSpace(input[i])
    ensures Submit(input, format) == Rejected
  {
    Text.TrimBlank(input, IsJsSpace);
  }
}
