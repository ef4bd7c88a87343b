/**
 * The background download worker (public/download_worker.php): one run per
 * job. It checks that its job is still the current one at launch, after the
 * metadata probe, on every output line and after the tool exits; it cleans and
 * bounds the title, streams progress, finds the finished file, records it in
 * the library at most once, and then clears `current` and starts the next job.
 */
module Worker {
  import opened Wrappers
  import opened Documents
  import Seqs
  import Text
  import Php
  import Api
  import ProgressLine

  // ----- Title -----

  /** A byte the title filter `[^\w\s\-\.\(\)\[\]]` keeps. */
  predicate IsTitleChar(c: char) {
    Php.IsWordChar(c) || Php.IsSpace(c) || c == '-' || c == '.' || c == '(' || c == ')' || c == '[' || c == ']'
  }

  /** What a cleaned title looks like: at most 100 allowed bytes, nothing `trim` would strip at either end. */
  predicate IsCleanTitle(t: string) {
    |t| <= 100 && (forall i :: 0 <= i < |t| ==> IsTitleChar(t[i])) && Text.IsTrimmed(t, Php.IsTrimChar)
  }

  /** The first at most `n` bytes (`substr($s, 0, n)`). */
  function Prefix(s: string, n: nat): (r: string)
    ensures |r| <= n && r <= s
    ensures |s| <= n ==> r == s
  {
    if |s| <= n then s else s[..n]
  }

  /** Drop disallowed bytes, keep the first 100, trim. */
  function SanitizeTitle(raw: string): string {
    Php.Trim(Prefix(Seqs.Filter(raw, IsTitleChar), 100))
  }

  /** A cleaned title is clean: short, made of allowed bytes only, trimmed. */
  lemma SanitizeIsClean(raw: string)
    ensures IsCleanTitle(SanitizeTitle(raw))
  {
    var kept := Seqs.Filter(raw, IsTitleChar);
    var cut := Prefix(kept, 100);
    Text.TrimCharacterized(cut, Php.IsTrimChar);
    forall c | c in cut ensures IsTitleChar(c) {
      assert c in kept;
      Seqs.FilterMembership(raw, IsTitleChar, c);
    }
  }

  /** Cleaning changes a title exactly when it is not clean already, so cleaning twice is cleaning once. */
  lemma SanitizeFixesCleanTitles(t: string)
    ensures SanitizeTitle(t) == t <==> IsCleanTitle(t)
    ensures SanitizeTitle(SanitizeTitle(t)) == SanitizeTitle(t)
  {
    SanitizeIsClean(t);
    if IsCleanTitle(t) {
      Seqs.FilterAll(t, IsTitleChar);
      Text.TrimCharacterized(t, Php.IsTrimChar);
    }
    var c := SanitizeTitle(t);
    Seqs.FilterAll(c, IsTitleChar);
    Text.TrimCharacterized(c, Php.IsTrimChar);
  }

  /** The job title: the probe's `title` (or "Unknown"), cleaned; `video_<id>` when that is PHP-empty. */
  function JobTitle(probeTitle: Option<string>, id: string): string {
    var cleaned := SanitizeTitle(probeTitle.GetOr("Unknown"));
    if Php.IsEmpty(cleaned) then "video_" + id else cleaned
  }

  /** The job title is never PHP-empty, and it is either the fallback or a clean title. */
  lemma JobTitleShape(probeTitle: Option<string>, id: string)
    ensures !Php.IsEmpty(JobTitle(probeTitle, id))
    ensures JobTitle(probeTitle, id) == "video_" + id || IsCleanTitle(JobTitle(probeTitle, id))
  {
    SanitizeIsClean(probeTitle.GetOr("Unknown"));
  }

  /** A clean title from the probe is used as it is. */
  lemma JobTitleKeepsCleanTitles(t: string, id: string)
    requires IsCleanTitle(t) && !Php.IsEmpty(t)
    ensures JobTitle(Some(t), id) == t
  {
    SanitizeFixesCleanTitles(t);
  }

  /** A probe without a title gives "Unknown". */
  lemma JobTitleWithoutProbeTitle(id: string)
    ensures JobTitle(None, id) == "Unknown"
  {
    UnknownIsClean();
    SanitizeFixesCleanTitles("Unknown");
  }

  lemma UnknownIsClean()
    ensures IsCleanTitle("Unknown")
  {
    var u := "Unknown";
    forall i | 0 <= i < |u| ensures IsTitleChar(u[i]) {
      assert 'a' <= u[i] <= 'z' || 'A' <= u[i] <= 'Z';
    }
  }

  /** A probe title that cleans to nothing, or to "0", falls back to the id. */
  lemma JobTitleFallsBack(raw: string, id: string)
    requires Php.IsEmpty(SanitizeTitle(raw))
    ensures JobTitle(Some(raw), id) == "video_" + id
  {
  }

  // ----- Files -----

  /** A file of this job: its name starts with `<id>_` (the `glob` pattern `<id>_*`). */
  predicate IsJobFile(name: string, id: string) {
    id + "_" <= name
  }

  /** The test that keeps every entry that is not a file of this job. */
  function NotJobFile(id: string): DirEntry -> bool {
    (e: DirEntry) => !IsJobFile(e.name, id)
  }

  /** The test that keeps every entry whose name is not listed. */
  function NameNotIn(names: seq<string>): DirEntry -> bool {
    (e: DirEntry) => e.name !in names
  }

  /** `glob(<videos>/<id>_*)`: the names of this job's files, in directory order. */
  function Glob(files: seq<DirEntry>, id: string): (names: seq<string>)
    ensures forall n :: n in names ==> IsJobFile(n, id) && exists e :: e in files && e.name == n
    ensures forall e :: e in files && IsJobFile(e.name, id) ==> e.name in names
  {
    if files == [] then []
    else (if IsJobFile(files[0].name, id) then [files[0].name] else []) + Glob(files[1..], id)
  }

  /** A temporary file of the tool: the pattern `\.(part|ytdl)$`, where `$` also matches before a final newline. */
  predicate IsArtifact(name: string) {
    Text.HasSuffix(name, ".part") || Text.HasSuffix(name, ".ytdl")
    || Text.HasSuffix(name, ".part\n") || Text.HasSuffix(name, ".ytdl\n")
  }

  function NotArtifact(name: string): bool {
    !IsArtifact(name)
  }

  /** The `array_filter` that drops partial downloads. */
  function FinishedFiles(names: seq<string>): seq<string> {
    Seqs.Filter(names, NotArtifact)
  }

  /** The artifact filter drops every partial-download name, keeps every other, and keeps their order. */
  lemma FinishedFilesExact(names: seq<string>)
    ensures forall n :: n in FinishedFiles(names) <==> n in names && !IsArtifact(n)
    ensures Seqs.IsSubsequence(FinishedFiles(names), names)
  {
    forall n ensures n in FinishedFiles(names) <==> n in names && !IsArtifact(n) {
      Seqs.FilterMembership(names, NotArtifact, n);
    }
    Seqs.FilterIsSubsequence(names, NotArtifact);
  }

  /** `pathinfo($name, PATHINFO_EXTENSION)`: what follows the last dot, or "" when there is no dot. */
  function Extension(name: string): (ext: string)
    ensures '.' !in ext
    ensures '.' !in name ==> ext == ""
    ensures '.' in name ==> |ext| < |name| && name[|name| - |ext| - 1] == '.' && name[|name| - |ext|..] == ext
    decreases |name|
  {
    if '.' !in name then ""
    else if name[|name| - 1] == '.' then ""
    else
      var init := name[..|name| - 1];
      assert '.' in init by {
        var i :| 0 <= i < |name| && name[i] == '.';
        assert init[i] == '.';
      }
      Extension(init) + [name[|name| - 1]]
  }

  /** `filesize` of the named file, 0 when it does not exist. */
  function SizeOf(files: seq<DirEntry>, name: string): (size: nat)
    ensures size != 0 ==> exists e :: e in files && e.name == name && e.size == size
    ensures forall k :: 0 <= k < |files| && files[k].name == name && (forall j :: 0 <= j < k ==> files[j].name != name)
                        ==> size == files[k].size
    ensures (forall e :: e in files ==> e.name != name) ==> size == 0
  {
    if files == [] then 0
    else if files[0].name == name then files[0].size
    else SizeOf(files[1..], name)
  }

  /** The library record written for a finished file. */
  function NewRecord(id: string, title: string, filename: string, size: nat, now: string): (v: VideoRecord)
    ensures v.id == id && v.filename == filename && v.format == Extension(filename)
    ensures v.kind == Audio <==> Extension(filename) == "mp3"
  {
    var ext := Extension(filename);
    VideoRecord(id, title, filename, if ext == "mp3" then Audio else Video, ext, size, now)
  }

  /** The library has a record with this id. */
  predicate HasId(videos: seq<VideoRecord>, id: string) {
    exists i :: 0 <= i < |videos| && videos[i].id == id
  }

  /** The library after finalising: the record is appended only when its id is not there yet. */
  function Record(videos: seq<VideoRecord>, v: VideoRecord): seq<VideoRecord> {
    if HasId(videos, v.id) then videos else videos + [v]
  }

  /**
   * Finalising is idempotent per id: recording any record with the same id a
   * second time changes nothing; afterwards the id is present, and distinct
   * ids stay distinct.
   */
  lemma RecordIdempotent(videos: seq<VideoRecord>, v: VideoRecord)
    ensures forall w: VideoRecord :: w.id == v.id ==> Record(Record(videos, v), w) == Record(videos, v)
    ensures HasId(Record(videos, v), v.id)
    ensures |Record(videos, v)| == |videos| + (if HasId(videos, v.id) then 0 else 1)
    ensures DistinctIds(videos) ==> DistinctIds(Record(videos, v))
  {
    var r := Record(videos, v);
    assert HasId(r, v.id) by {
      if !HasId(videos, v.id) {
        assert r[|videos|].id == v.id;
      }
    }
    if !HasId(videos, v.id) {
      if DistinctIds(videos) {
        forall i: nat, j: nat | i < j < |r| ensures IdOf(r, i) != IdOf(r, j) {
          if j < |videos| {
            assert IdOf(videos, i) != IdOf(videos, j);
          } else {
            assert r[i] == videos[i];
          }
        }
      }
    }
  }

  /** The directory after removing every file of this job (the clean-up loops). */
  function Purged(files: seq<DirEntry>, id: string): (r: seq<DirEntry>)
    ensures forall e :: e in r <==> e in files && !IsJobFile(e.name, id)
    ensures Seqs.IsSubsequence(r, files)
  {
    forall e ensures e in Seqs.Filter(files, NotJobFile(id)) <==> e in files && !IsJobFile(e.name, id) {
      Seqs.FilterMembership(files, NotJobFile(id), e);
    }
    Seqs.FilterIsSubsequence(files, NotJobFile(id));
    Seqs.Filter(files, NotJobFile(id))
  }

  /** The file the worker takes as the download: the first job file that is not a partial download. */
  function FinishedFile(files: seq<DirEntry>, id: string): (r: Option<string>)
    ensures r.Some? ==> IsJobFile(r.value, id) && !IsArtifact(r.value) && exists e :: e in files && e.name == r.value
    ensures r.None? <==> forall e :: e in files && IsJobFile(e.name, id) ==> IsArtifact(e.name)
  {
    var names := Glob(files, id);
    FinishedFilesExact(names);
    var fs := FinishedFiles(names);
    if fs == [] then
      None
    else
      assert fs[0] in fs;
      Some(fs[0])
  }

  /** A job file name is never PHP-falsy, so the truthiness test on it only asks whether there is one. */
  lemma JobFileIsTruthy(name: string, id: string)
    requires IsJobFile(name, id)
    ensures !Php.IsEmpty(name)
  {
    assert name[|id|] == '_';
  }

  /** The run counts as successful: a finished file exists and the tool exited with status 0. */
  predicate Succeeded(files: seq<DirEntry>, id: string, exitCode: int) {
    FinishedFile(files, id).Some? && exitCode == 0
  }

  // ----- Progress records the worker writes -----

  /** Written at launch and when the next job is started. */
  function StartingProgress(id: string): Progress {
    Progress(0, Starting, "Fetching video info...", Some(id))
  }

  /** Written once the title is known. */
  function FirstDownloadProgress(title: string, id: string): Progress {
    Progress(5, Downloading, title, Some(id))
  }

  /** The records written for the percentages of the read loop. */
  function Stored(ws: seq<real>, title: string, id: string): (r: seq<Progress>)
    ensures |r| == |ws|
    ensures forall i :: 0 <= i < |ws| ==> r[i] == Progress(ProgressLine.Round(ws[i]), Downloading, title, Some(id))
  {
    seq(|ws|, i requires 0 <= i < |ws| => Progress(ProgressLine.Round(ws[i]), Downloading, title, Some(id)))
  }

  lemma StoredAppend(ws: seq<real>, w: real, title: string, id: string)
    ensures Stored(ws + [w], title, id) == Stored(ws, title, id) + [Progress(ProgressLine.Round(w), Downloading, title, Some(id))]
  {
  }

  /** The record written when the run succeeded or failed. */
  function FinalProgress(success: bool, title: string, id: string): Progress {
    if success then Progress(100, Complete, title, Some(id)) else Progress(0, Error, "Download failed: " + title, Some(id))
  }

  /**
   * Over a successful run the stored percentage never goes down: 0 at launch,
   * 5 once the title is known, the streamed values, then 100.
   */
  lemma SuccessfulRunNeverGoesBack(lines: seq<string>, title: string, id: string)
    ensures var w := [StartingProgress(id), FirstDownloadProgress(title, id)]
                     + StreamWrites(lines, |lines|, title, id)
                     + [FinalProgress(true, title, id)];
            forall i, j :: 0 <= i < j < |w| ==> w[i].percent <= w[j].percent
  {
    var ps := ProgressLine.Parsed(lines)[..|lines|];
    var ws := ProgressLine.WritesAfter(ps, 5.0);
    var mid := Stored(ws, title, id);
    ProgressLine.StoredPercentsMonotone(ps);
    var r := ProgressLine.Rounded(ws);
    assert forall i :: 0 <= i < |mid| ==> mid[i].percent == r[i];
    var w := [StartingProgress(id), FirstDownloadProgress(title, id)] + mid + [FinalProgress(true, title, id)];
    assert w[0].percent == 0 && w[1].percent == 5 && w[|w| - 1].percent == 100;
    assert forall k :: 2 <= k < |w| - 1 ==> w[k] == mid[k - 2];
    forall i, j | 0 <= i < j < |w| ensures w[i].percent <= w[j].percent {
      if 2 <= i && j < |w| - 1 {
        assert r[i - 2] <= r[j - 2];
      } else if 2 <= i {
        assert r[i - 2] <= 95;
      } else if 2 <= j < |w| - 1 {
        assert 5 <= r[j - 2];
      }
    }
  }

  // ----- Queue after a job -----

  /** The queue document after `processNextInQueue`: the head becomes current; `current` is not consulted. */
  function Advance(d: QueueDoc): (r: QueueDoc)
    ensures d.queue == [] ==> r == d
    ensures d.queue != [] ==> r.current == Some(d.queue[0]) && r.queue == d.queue[1..]
  {
    if d.queue == [] then d else QueueDoc(d.queue[1..], Some(d.queue[0]))
  }

  /** The worker `processNextInQueue` starts: one for the new head, or none. */
  function Advanced(d: QueueDoc): seq<QueueItem> {
    if d.queue == [] then [] else [d.queue[0]]
  }

  /** With `current` cleared, as the worker leaves it, starting the next job is exactly the API's dispatch. */
  lemma AdvanceAgreesWithDispatch(q: seq<QueueItem>)
    ensures Advance(QueueDoc(q, None)) == Api.Dispatch(QueueDoc(q, None))
    ensures Advanced(QueueDoc(q, None)) == Api.Dispatched(QueueDoc(q, None))
  {
  }

  /** Unlike the API's dispatch, `processNextInQueue` replaces a `current` that someone set meanwhile. */
  lemma AdvanceOverwritesCurrent(d: QueueDoc)
    requires d.current.Some? && d.queue != []
    ensures Advance(d).current != d.current || d.queue[0] == d.current.value
    ensures Api.Dispatch(d) == d
  {
  }

  // ----- The run -----

  /** Where the worker checks that its job is still current. */
  datatype CheckPoint = AtLaunch | AfterProbe | OnLine(index: nat) | AfterExit

  /** What the download process does: the lines `fgets` returns, its exit status, and the files it leaves. */
  datatype Subprocess = Subprocess(lines: seq<string>, exitCode: int, produced: seq<DirEntry>)

  /** How a run ends: too few arguments (status 1), superseded at a check (status 0), or finished. */
  datatype WorkerExit = BadArguments | Superseded(at: CheckPoint) | Finished(success: bool)

  /** `current` after another actor may have rewritten it just before check `cp`. */
  function CurrentAfter(cur: Option<QueueItem>, cp: CheckPoint, interrupts: map<CheckPoint, Option<QueueItem>>): Option<QueueItem> {
    if cp in interrupts then interrupts[cp] else cur
  }

  /** `current` holds job `id`. */
  predicate IsJob(cur: Option<QueueItem>, id: string) {
    cur.Some? && cur.value.id == id
  }

  /** No rewrite before check `cp` takes `current` away from job `id`. */
  predicate KeptAt(interrupts: map<CheckPoint, Option<QueueItem>>, cp: CheckPoint, id: string) {
    cp !in interrupts || (interrupts[cp].Some? && interrupts[cp].value.id == id)
  }

  /** `isStillCurrentDownload`, after applying this check point's outside rewrite, if any. */
  method CheckLiveness(st: Store, id: string, cp: CheckPoint, interrupts: map<CheckPoint, Option<QueueItem>>)
    returns (live: bool)
    modifies st`current
    ensures st.current == CurrentAfter(old(st.current), cp, interrupts)
    ensures live == st.IsStillCurrentDownload(id)
    ensures old(st.IsStillCurrentDownload(id)) ==> (live <==> KeptAt(interrupts, cp, id))
  {
    if cp in interrupts {
      st.Supersede(interrupts[cp]);
    }
    live := st.IsStillCurrentDownload(id);
  }

  /** The `glob` + `unlink` clean-up loop. */
  method RemoveJobFiles(st: Store, id: string)
    modifies st`files
    ensures st.files == Purged(old(st.files), id)
  {
    var matches := Glob(st.files, id);
    ghost var original := st.files;
    Seqs.FilterAll(original, NameNotIn([]));
    var i := 0;
    while i < |matches|
      invariant 0 <= i <= |matches|
      invariant st.files == Seqs.Filter(original, NameNotIn(matches[..i]))
    {
      assert matches[..i + 1] == matches[..i] + [matches[i]];
      Seqs.FilterTwice(original, NameNotIn(matches[..i]), NameIsNot(matches[i]), NameNotIn(matches[..i + 1]));
      st.files := Unlink(st.files, matches[i]);
      i := i + 1;
    }
    assert matches[..i] == matches;
    Seqs.FilterCongruent(original, NameNotIn(matches), NotJobFile(id));
  }

  /** The duplicate check: does any library record have this id? */
  method AlreadyRecorded(videos: seq<VideoRecord>, id: string) returns (found: bool)
    ensures found == HasId(videos, id)
  {
    found := false;
    var i := 0;
    while i < |videos|
      invariant 0 <= i <= |videos|
      invariant forall j :: 0 <= j < i ==> videos[j].id != id
    {
      if videos[i].id == id {
        found := true;
        return;
      }
      i := i + 1;
    }
  }

  /** The records the read loop writes for the first `n` lines. */
  function StreamWrites(lines: seq<string>, n: nat, title: string, id: string): seq<Progress>
    requires n <= |lines|
  {
    Stored(ProgressLine.WritesAfter(ProgressLine.Parsed(lines)[..n], 5.0), title, id)
  }

  /** `$lastPercent` after the first `n` lines. */
  function LastPercent(lines: seq<string>, n: nat): real
    requires n <= |lines|
  {
    ProgressLine.LastAfter(ProgressLine.Parsed(lines)[..n], 5.0)
  }

  /** Handling line `i`, whose step is `w`, extends `$lastPercent` and the records by that step. */
  lemma ReadOneMore(lines: seq<string>, i: nat, title: string, id: string, w: Option<real>)
    requires i < |lines|
    requires w == ProgressLine.Step(LastPercent(lines, i), ProgressLine.ParseProgress(lines[i]))
    ensures w.Some? ==> LastPercent(lines, i + 1) == w.value
    ensures w.None? ==> LastPercent(lines, i + 1) == LastPercent(lines, i)
    ensures w.Some? ==> StreamWrites(lines, i + 1, title, id)
                        == StreamWrites(lines, i, title, id) + [Progress(ProgressLine.Round(w.value), Downloading, title, Some(id))]
    ensures w.None? ==> StreamWrites(lines, i + 1, title, id) == StreamWrites(lines, i, title, id)
  {
    var ps := ProgressLine.Parsed(lines);
    assert ps[..i + 1][..i] == ps[..i];
    assert ps[..i + 1][i] == ps[i];
    if w.Some? {
      StoredAppend(ProgressLine.WritesAfter(ps[..i], 5.0), w.value, title, id);
    }
  }

  /** The body of the read loop for line `i`, once the liveness check has passed: save a record if the line advances the percentage. */
  method HandleLine(st: Store, lines: seq<string>, i: nat, title: string, id: string,
                    last: real, writes: seq<Progress>, ghost before: Option<Progress>)
    returns (last': real, writes': seq<Progress>)
    requires i < |lines|
    requires last == LastPercent(lines, i) && writes == StreamWrites(lines, i, title, id)
    requires st.progress == if writes == [] then before else Some(writes[|writes| - 1])
    modifies st`progress
    ensures last' == LastPercent(lines, i + 1) && writes' == StreamWrites(lines, i + 1, title, id)
    ensures st.progress == if writes' == [] then before else Some(writes'[|writes'| - 1])
  {
    last', writes' := last, writes;
    var w := ProgressLine.Step(last, ProgressLine.ParseProgress(lines[i]));
    ReadOneMore(lines, i, title, id, w);
    if w.Some? {
      var p := Progress(ProgressLine.Round(w.value), Downloading, title, Some(id));
      last' := w.value;
      st.progress := Some(p);
      writes' := writes + [p];
    }
  }

  /** The read loop: one liveness check per line, a progress write whenever the mapped percentage rises. */
  method StreamProgress(st: Store, id: string, title: string, lines: seq<string>,
                        interrupts: map<CheckPoint, Option<QueueItem>>)
    returns (stoppedAt: Option<nat>, writes: seq<Progress>)
    requires st.IsStillCurrentDownload(id)
    modifies st`current, st`progress
    ensures stoppedAt.None? <==> forall j :: 0 <= j < |lines| ==> KeptAt(interrupts, OnLine(j), id)
    ensures stoppedAt.Some? ==> var k := stoppedAt.value;
              && k < |lines| && !KeptAt(interrupts, OnLine(k), id)
              && (forall j :: 0 <= j < k ==> KeptAt(interrupts, OnLine(j), id))
              && st.current == interrupts[OnLine(k)]
              && writes == StreamWrites(lines, k, title, id)
    ensures stoppedAt.None? ==> st.IsStillCurrentDownload(id) && writes == StreamWrites(lines, |lines|, title, id)
    ensures st.progress == if writes == [] then old(st.progress) else Some(writes[|writes| - 1])
  {
    var last := 5.0;
    writes := [];
    var i := 0;
    while i < |lines|
      invariant 0 <= i <= |lines|
      invariant forall j :: 0 <= j < i ==> KeptAt(interrupts, OnLine(j), id)
      invariant st.IsStillCurrentDownload(id)
      invariant last == LastPercent(lines, i)
      invariant writes == StreamWrites(lines, i, title, id)
      invariant st.progress == if writes == [] then old(st.progress) else Some(writes[|writes| - 1])
    {
      var live := CheckLiveness(st, id, OnLine(i), interrupts);
      if !live {
        stoppedAt := Some(i);
        return;
      }
      last, writes := HandleLine(st, lines, i, title, id, last, writes, old(st.progress));
      i := i + 1;
    }
    stoppedAt := None;
  }

  /** After the exit check: record the finished file (once), or report the failure and clean up. */
  method Finalise(st: Store, id: string, title: string, exitCode: int, now: string)
    returns (success: bool, written: Progress)
    requires st.Valid()
    modifies st`progress, st`videos, st`files
    ensures st.Valid()
    ensures success == Succeeded(old(st.files), id, exitCode)
    ensures written == FinalProgress(success, title, id) && st.progress == Some(written)
    ensures success ==> var f := FinishedFile(old(st.files), id).value;
                        && st.videos == Record(old(st.videos), NewRecord(id, title, f, SizeOf(old(st.files), f), now))
                        && st.files == old(st.files)
    ensures !success ==> st.videos == old(st.videos) && st.files == Purged(old(st.files), id)
  {
    var downloaded := FinishedFile(st.files, id);
    if downloaded.Some? {
      JobFileIsTruthy(downloaded.value, id);
    }
    if downloaded.Some? && !Php.IsEmpty(downloaded.value) && exitCode == 0 {
      success := true;
      written := Progress(100, Complete, title, Some(id));
      st.progress := Some(written);
      var f := downloaded.value;
      var recorded := AlreadyRecorded(st.videos, id);
      var rec := NewRecord(id, title, f, SizeOf(st.files, f), now);
      RecordIdempotent(st.videos, rec);
      if !recorded {
        st.videos := st.videos + [rec];
      }
    } else {
      success := false;
      written := Progress(0, Error, "Download failed: " + title, Some(id));
      st.progress := Some(written);
      RemoveJobFiles(st, id);
    }
  }

  /** `clearProgress`: the progress document becomes the idle record with a null id. No path of the worker calls it. */
  method ClearProgress(st: Store)
    modifies st`progress
    ensures st.progress == Some(Progress(0, Idle, "", None))
    ensures Api.GetProgress(st.progress) == Api.GetProgress(None)
  {
    st.progress := Some(IdleProgress);
  }

  /** The worker's last queue rewrite before `processNextInQueue`: `current` becomes null. */
  method ClearCurrent(st: Store)
    requires st.Valid()
    modifies st`current
    ensures st.Valid() && st.current == None
  {
    st.current := None;
  }

  /** `processNextInQueue`: promote the head of the queue, reset progress for it and start its worker. */
  method ProcessNextInQueue(st: Store) returns (written: seq<Progress>)
    requires st.Valid()
    modifies st`queue, st`current, st`spawned, st`progress
    ensures st.Valid()
    ensures st.Doc() == Advance(old(st.Doc()))
    ensures st.spawned == old(st.spawned) + Advanced(old(st.Doc()))
    ensures written == if old(st.queue) == [] then [] else [StartingProgress(old(st.queue)[0].id)]
    ensures st.progress == if written == [] then old(st.progress) else Some(written[0])
  {
    if st.queue == [] {
      return [];
    }
    var item := st.queue[0];
    st.queue := st.queue[1..];
    st.current := Some(item);
    st.progress := Some(StartingProgress(item.id));
    st.spawned := st.spawned + [item];
    assert old(st.queue) == [item] + st.queue;
    written := [StartingProgress(item.id)];
  }

  /** The job's files once the tool has run. */
  function AfterTool(files: seq<DirEntry>, run: Subprocess): seq<DirEntry> {
    files + run.produced
  }

  /** The end of a run that was not superseded: finalise, clear `current`, start the next job. */
  method Conclude(st: Store, id: string, title: string, exitCode: int, now: string)
    returns (success: bool, writes: seq<Progress>)
    requires st.Valid()
    modifies st`queue, st`current, st`spawned, st`progress, st`videos, st`files
    ensures st.Valid()
    ensures success == Succeeded(old(st.files), id, exitCode)
    ensures st.Doc() == Advance(QueueDoc(old(st.queue), None))
    ensures st.spawned == old(st.spawned) + Advanced(QueueDoc(old(st.queue), None))
    ensures writes == [FinalProgress(success, title, id)]
                      + (if old(st.queue) == [] then [] else [StartingProgress(old(st.queue)[0].id)])
    ensures st.progress == Some(writes[|writes| - 1])
    ensures success ==> var f := FinishedFile(old(st.files), id).value;
                        && st.videos == Record(old(st.videos), NewRecord(id, title, f, SizeOf(old(st.files), f), now))
                        && st.files == old(st.files)
    ensures !success ==> st.videos == old(st.videos) && st.files == Purged(old(st.files), id)
  {
    var final;
    success, final := Finalise(st, id, title, exitCode, now);
    ClearCurrent(st);
    var next := ProcessNextInQueue(st);
    writes := [final] + next;
  }

  /** From starting the download process to the end of the run. */
  method Download(st: Store, id: string, title: string, run: Subprocess,
                  interrupts: map<CheckPoint, Option<QueueItem>>, now: string)
    returns (exit: WorkerExit, writes: seq<Progress>)
    requires st.Valid() && st.IsStillCurrentDownload(id)
    modifies st`queue, st`current, st`spawned, st`progress, st`videos, st`files
    ensures st.Valid()
    ensures exit.Superseded? || exit.Finished?
    ensures st.progress == if writes == [] then old(st.progress) else Some(writes[|writes| - 1])
    ensures exit.Superseded? ==> && st.queue == old(st.queue) && st.spawned == old(st.spawned)
                                 && st.videos == old(st.videos)
                                 && exit.at in interrupts && st.current == interrupts[exit.at]
                                 && st.files == Purged(AfterTool(old(st.files), run), id)
                                 && (exit.at.OnLine? || exit.at == AfterExit)
    ensures exit.Superseded? && exit.at.OnLine? ==>
              && exit.at.index < |run.lines|
              && (forall j :: 0 <= j < exit.at.index ==> KeptAt(interrupts, OnLine(j), id))
              && writes == StreamWrites(run.lines, exit.at.index, title, id)
    ensures exit == Superseded(AfterExit) ==>
              && (forall j :: 0 <= j < |run.lines| ==> KeptAt(interrupts, OnLine(j), id))
              && writes == StreamWrites(run.lines, |run.lines|, title, id)
    ensures exit.Finished? ==>
              && KeptAt(interrupts, AfterExit, id)
              && (forall j :: 0 <= j < |run.lines| ==> KeptAt(interrupts, OnLine(j), id))
              && exit.success == Succeeded(AfterTool(old(st.files), run), id, run.exitCode)
              && st.Doc() == Advance(QueueDoc(old(st.queue), None))
              && st.spawned == old(st.spawned) + Advanced(QueueDoc(old(st.queue), None))
              && writes == StreamWrites(run.lines, |run.lines|, title, id)
                           + ([FinalProgress(exit.success, title, id)]
                              + (if old(st.queue) == [] then [] else [StartingProgress(old(st.queue)[0].id)]))
    ensures exit.Finished? && exit.success ==>
              var files := AfterTool(old(st.files), run);
              var f := FinishedFile(files, id).value;
              && st.videos == Record(old(st.videos), NewRecord(id, title, f, SizeOf(files, f), now))
              && st.files == files
    ensures exit.Finished? && !exit.success ==>
              st.videos == old(st.videos) && st.files == Purged(AfterTool(old(st.files), run), id)
  {
    st.files := st.files + run.produced;
    var stoppedAt;
    stoppedAt, writes := StreamProgress(st, id, title, run.lines, interrupts);
    assert st.files == AfterTool(old(st.files), run) && st.queue == old(st.queue) && st.videos == old(st.videos)
           && st.spawned == old(st.spawned) && st.Valid();
    if stoppedAt.Some? {
      RemoveJobFiles(st, id);
      return Superseded(OnLine(stoppedAt.value)), writes;
    }
    var live := CheckLiveness(st, id, AfterExit, interrupts);
    if !live {
      RemoveJobFiles(st, id);
      return Superseded(AfterExit), writes;
    }
    var success, rest := Conclude(st, id, title, run.exitCode, now);
    writes := writes + rest;
    exit := Finished(success);
  }

  /** The two checks before the download starts, with the "starting" record written between them. */
  method Launch(st: Store, id: string, interrupts: map<CheckPoint, Option<QueueItem>>)
    returns (stop: Option<CheckPoint>, writes: seq<Progress>)
    requires st.Valid()
    modifies st`current, st`progress
    ensures st.Valid()
    ensures stop == None || stop == Some(AtLaunch) || stop == Some(AfterProbe)
    ensures stop == Some(AtLaunch) <==> !IsJob(CurrentAfter(old(st.current), AtLaunch, interrupts), id)
    ensures stop == Some(AtLaunch) ==> writes == [] && st.progress == old(st.progress)
    ensures stop != Some(AtLaunch) ==> writes == [StartingProgress(id)] && st.progress == Some(StartingProgress(id))
    ensures stop == None <==> IsJob(CurrentAfter(old(st.current), AtLaunch, interrupts), id) && KeptAt(interrupts, AfterProbe, id)
    ensures stop.Some? ==> st.current == CurrentAfter(old(st.current), stop.value, interrupts)
    ensures stop == Some(AfterProbe) ==> AfterProbe in interrupts
    ensures stop == None ==> st.IsStillCurrentDownload(id)
  {
    writes := [];
    var live := CheckLiveness(st, id, AtLaunch, interrupts);
    if !live {
      return Some(AtLaunch), [];
    }
    st.progress := Some(StartingProgress(id));
    writes := [StartingProgress(id)];
    live := CheckLiveness(st, id, AfterProbe, interrupts);
    if !live {
      return Some(AfterProbe), writes;
    }
    stop := None;
  }

  /** With the title known: write the first "downloading" record, then download. */
  method Proceed(st: Store, id: string, title: string, run: Subprocess,
                 interrupts: map<CheckPoint, Option<QueueItem>>, now: string)
    returns (exit: WorkerExit, writes: seq<Progress>)
    requires st.Valid() && st.IsStillCurrentDownload(id)
    modifies st`queue, st`current, st`spawned, st`progress, st`videos, st`files
    ensures st.Valid()
    ensures exit.Superseded? || exit.Finished?
    ensures writes != [] && writes[0] == FirstDownloadProgress(title, id) && st.progress == Some(writes[|writes| - 1])
    ensures exit.Superseded? ==> && st.queue == old(st.queue) && st.spawned == old(st.spawned)
                                 && st.videos == old(st.videos)
                                 && exit.at in interrupts && st.current == interrupts[exit.at]
                                 && st.files == Purged(AfterTool(old(st.files), run), id)
                                 && (exit.at.OnLine? || exit.at == AfterExit)
    ensures exit.Superseded? && exit.at.OnLine? ==>
              && exit.at.index < |run.lines|
              && (forall j :: 0 <= j < exit.at.index ==> KeptAt(interrupts, OnLine(j), id))
              && writes == [FirstDownloadProgress(title, id)] + StreamWrites(run.lines, exit.at.index, title, id)
    ensures exit == Superseded(AfterExit) ==>
              && (forall j :: 0 <= j < |run.lines| ==> KeptAt(interrupts, OnLine(j), id))
              && writes == [FirstDownloadProgress(title, id)] + StreamWrites(run.lines, |run.lines|, title, id)
    ensures exit.Finished? ==>
              && KeptAt(interrupts, AfterExit, id)
              && (forall j :: 0 <= j < |run.lines| ==> KeptAt(interrupts, OnLine(j), id))
              && exit.success == Succeeded(AfterTool(old(st.files), run), id, run.exitCode)
              && st.Doc() == Advance(QueueDoc(old(st.queue), None))
              && st.spawned == old(st.spawned) + Advanced(QueueDoc(old(st.queue), None))
              && writes == [FirstDownloadProgress(title, id)]
                           + (StreamWrites(run.lines, |run.lines|, title, id)
                              + ([FinalProgress(exit.success, title, id)]
                                 + (if old(st.queue) == [] then [] else [StartingProgress(old(st.queue)[0].id)])))
    ensures exit.Finished? && exit.success ==>
              var files := AfterTool(old(st.files), run);
              var f := FinishedFile(files, id).value;
              && st.videos == Record(old(st.videos), NewRecord(id, title, f, SizeOf(files, f), now))
              && st.files == files
    ensures exit.Finished? && !exit.success ==>
              st.videos == old(st.videos) && st.files == Purged(AfterTool(old(st.files), run), id)
  {
    var p := FirstDownloadProgress(title, id);
    st.progress := Some(p);
    var rest;
    exit, rest := Download(st, id, title, run, interrupts, now);
    writes := [p] + rest;
  }

  /**
   * One run for job `id`: the probe's title, the download process, outside
   * rewrites of `current` and the clock are inputs. `writes` lists every
   * progress record saved, in order.
   */
  method RunJob(st: Store, id: string, probeTitle: Option<string>, run: Subprocess,
                interrupts: map<CheckPoint, Option<QueueItem>>, now: string)
    returns (exit: WorkerExit, writes: seq<Progress>)
    requires st.Valid()
    modifies st`queue, st`current, st`spawned, st`progress, st`videos, st`files
    ensures st.Valid()
    ensures exit.Superseded? || exit.Finished?
    ensures st.progress == if writes == [] then old(st.progress) else Some(writes[|writes| - 1])
    ensures exit.Superseded? ==> && st.queue == old(st.queue) && st.spawned == old(st.spawned)
                                 && st.videos == old(st.videos)
                                 && st.current == CurrentAfter(old(st.current), exit.at, interrupts)
                                 && (exit.at != AtLaunch ==> exit.at in interrupts)
    ensures exit == Superseded(AtLaunch) <==> !IsJob(CurrentAfter(old(st.current), AtLaunch, interrupts), id)
    ensures exit == Superseded(AtLaunch) ==> writes == [] && st.files == old(st.files)
    ensures exit == Superseded(AfterProbe) ==> writes == [StartingProgress(id)] && st.files == old(st.files)
    ensures exit.Superseded? && exit.at.OnLine? ==>
              && exit.at.index < |run.lines|
              && (forall j :: 0 <= j < exit.at.index ==> KeptAt(interrupts, OnLine(j), id))
              && writes == [StartingProgress(id)]
                           + ([FirstDownloadProgress(JobTitle(probeTitle, id), id)]
                              + StreamWrites(run.lines, exit.at.index, JobTitle(probeTitle, id), id))
              && st.files == Purged(AfterTool(old(st.files), run), id)
    ensures exit == Superseded(AfterExit) ==>
              && (forall j :: 0 <= j < |run.lines| ==> KeptAt(interrupts, OnLine(j), id))
              && writes == [StartingProgress(id)]
                           + ([FirstDownloadProgress(JobTitle(probeTitle, id), id)]
                              + StreamWrites(run.lines, |run.lines|, JobTitle(probeTitle, id), id))
              && st.files == Purged(AfterTool(old(st.files), run), id)
    ensures exit.Finished? ==>
              && KeptAt(interrupts, AfterProbe, id) && KeptAt(interrupts, AfterExit, id)
              && (forall j :: 0 <= j < |run.lines| ==> KeptAt(interrupts, OnLine(j), id))
              && exit.success == Succeeded(AfterTool(old(st.files), run), id, run.exitCode)
              && st.Doc() == Advance(QueueDoc(old(st.queue), None))
              && st.spawned == old(st.spawned) + Advanced(QueueDoc(old(st.queue), None))
              && writes == [StartingProgress(id)]
                           + ([FirstDownloadProgress(JobTitle(probeTitle, id), id)]
                              + (StreamWrites(run.lines, |run.lines|, JobTitle(probeTitle, id), id)
                                 + ([FinalProgress(exit.success, JobTitle(probeTitle, id), id)]
                                    + (if old(st.queue) == [] then [] else [StartingProgress(old(st.queue)[0].id)]))))
    ensures exit.Finished? && exit.success ==>
              var files := AfterTool(old(st.files), run);
              var f := FinishedFile(files, id).value;
              && st.videos == Record(old(st.videos), NewRecord(id, JobTitle(probeTitle, id), f, SizeOf(files, f), now))
              && st.files == files
    ensures exit.Finished? && !exit.success ==>
              st.videos == old(st.videos) && st.files == Purged(AfterTool(old(st.files), run), id)
  {
    var stop;
    stop, writes := Launch(st, id, interrupts);
    if stop.Some? {
      return Superseded(stop.value), writes;
    }
    assert st.files == old(st.files) && st.queue == old(st.queue) && st.videos == old(st.videos)
           && st.spawned == old(st.spawned);
    var rest;
    exit, rest := Proceed(st, id, JobTitle(probeTitle, id), run, interrupts, now);
    writes := writes + rest;
  }

  /**
   * `download_worker.php <id> <url> <format>`: fewer than three arguments end
   * the run with status 1 before anything is read or written; otherwise the run
   * is the job of the first argument, with the outcomes `RunJob` states.
   */
  method RunWorker(st: Store, args: seq<string>, probeTitle: Option<string>, run: Subprocess,
                   interrupts: map<CheckPoint, Option<QueueItem>>, now: string)
    returns (exit: WorkerExit, writes: seq<Progress>)
    requires st.Valid()
    modifies st`queue, st`current, st`spawned, st`progress, st`videos, st`files
    ensures st.Valid()
    ensures exit == BadArguments <==> |args| < 3
    ensures exit == BadArguments ==> writes == [] && unchanged(st)
    ensures st.progress == if writes == [] then old(st.progress) else Some(writes[|writes| - 1])
    ensures |args| >= 3 ==> (exit == Superseded(AtLaunch) <==> !IsJob(CurrentAfter(old(st.current), AtLaunch, interrupts), args[0]))
    ensures exit.Superseded? ==> && st.queue == old(st.queue) && st.spawned == old(st.spawned)
                                 && st.videos == old(st.videos)
                                 && st.current == CurrentAfter(old(st.current), exit.at, interrupts)
                                 && (exit.at != AtLaunch ==> exit.at in interrupts)
    ensures exit == Superseded(AtLaunch) ==> writes == [] && st.files == old(st.files)
    ensures exit == Superseded(AfterProbe) ==> writes == [StartingProgress(args[0])] && st.files == old(st.files)
    ensures exit.Superseded? && exit.at.OnLine? ==>
              var id, title := args[0], JobTitle(probeTitle, args[0]);
              && exit.at.index < |run.lines|
              && (forall j :: 0 <= j < exit.at.index ==> KeptAt(interrupts, OnLine(j), id))
              && writes == [StartingProgress(id)]
                           + ([FirstDownloadProgress(title, id)] + StreamWrites(run.lines, exit.at.index, title, id))
              && st.files == Purged(AfterTool(old(st.files), run), id)
    ensures exit == Superseded(AfterExit) ==>
              var id, title := args[0], JobTitle(probeTitle, args[0]);
              && (forall j :: 0 <= j < |run.lines| ==> KeptAt(interrupts, OnLine(j), id))
              && writes == [StartingProgress(id)]
                           + ([FirstDownloadProgress(title, id)] + StreamWrites(run.lines, |run.lines|, title, id))
              && st.files == Purged(AfterTool(old(st.files), run), id)
    ensures exit.Finished? ==>
              var id, title := args[0], JobTitle(probeTitle, args[0]);
              && KeptAt(interrupts, AfterProbe, id) && KeptAt(interrupts, AfterExit, id)
              && (forall j :: 0 <= j < |run.lines| ==> KeptAt(interrupts, OnLine(j), id))
              && exit.success == Succeeded(AfterTool(old(st.files), run), id, run.exitCode)
              && st.Doc() == Advance(QueueDoc(old(st.queue), None))
              && st.spawned == old(st.spawned) + Advanced(QueueDoc(old(st.queue), None))
              && writes == [StartingProgress(id)]
                           + ([FirstDownloadProgress(title, id)]
                              + (StreamWrites(run.lines, |run.lines|, title, id)
                                 + ([FinalProgress(exit.success, title, id)]
                                    + (if old(st.queue) == [] then [] else [StartingProgress(old(st.queue)[0].id)]))))
    ensures exit.Finished? && exit.success ==>
              var files := AfterTool(old(st.files), run);
              var f := FinishedFile(files, args[0]).value;
              && st.videos == Record(old(st.videos), NewRecord(args[0], JobTitle(probeTitle, args[0]), f, SizeOf(files, f), now))
              && st.files == files
    ensures exit.Finished? && !exit.success ==>
              st.videos == old(st.videos) && st.files == Purged(AfterTool(old(st.files), run), args[0])
  {
    if |args| < 3 {
      return BadArguments, [];
    }
    exit, writes := RunJob(st, args[0], probeTitle, run, interrupts, now);
  }
}
