/** Runs of the write-ahead log through crashes and restarts, and the proof that
    no acknowledged entry is ever lost, reordered or invented. */
module WalDurability {
  import opened Bytes
  import opened Options
  import opened WalCodec
  import opened WalNames
  import opened WalReplay
  import opened Wal

  // ---------- Runs ----------

  /** An acknowledged append; a crash during an append, before anything happened
      or after any rotation with `written` bytes of the record on disk; a clean
      stop. After a stop the log is opened again, perhaps with another limit. */
  datatype Event =
    | Write(e: Entry)
    | Crash(e: Entry, begun: bool, written: nat, limit: int)
    | Restart(limit: int)

  ghost function Reopen(crc: Checksum, files: Files, limit: int): Option<WalState> {
    Recover(crc, files, ListFiles(files.Keys), limit)
  }

  /** What a crash during an append leaves on disk. */
  ghost function CrashFiles(crc: Checksum, w: WalState, e: Entry, begun: bool, written: nat): Files
    requires Open(w)
  {
    var bs := Encoding(crc, e);
    if !begun then w.files
    else
      match MakeRoom(w, |bs|)
      case None => w.files
      case Some(w1) => WriteActive(w1, if written <= |bs| then bs[..written] else bs).files
  }

  ghost function Happen(crc: Checksum, w: WalState, ev: Event): Option<WalState>
    requires Open(w)
  {
    match ev
    case Write(e) => AppendEntry(crc, w, e)
    case Crash(e, begun, written, limit) => Reopen(crc, CrashFiles(crc, w, e, begun, written), limit)
    case Restart(limit) => Reopen(crc, w.files, limit)
  }

  /** The log after a run that starts with opening an empty directory; nothing
      if some step reported an error. */
  ghost function RunLog(crc: Checksum, limit: int, run: seq<Event>): Option<WalState> {
    if run == [] then Reopen(crc, map[], limit)
    else
      var w := RunLog(crc, limit, run[..|run| - 1]);
      if w.Some? && Open(w.value) then Happen(crc, w.value, run[|run| - 1]) else None
  }

  /** The promise: acknowledged entries in order, and an entry whose write was
      interrupted exactly when all its bytes had reached the disk. */
  function Promised(crc: Checksum, run: seq<Event>): seq<Entry> {
    if run == [] then []
    else
      var before := Promised(crc, run[..|run| - 1]);
      match run[|run| - 1]
      case Write(e) => before + [e]
      case Crash(e, begun, written, _) => if begun && written >= |Encoding(crc, e)| then before + [e] else before
      case Restart(_) => before
  }

  /** Every payload length fits its 64-bit field. */
  ghost predicate Possible(run: seq<Event>) {
    forall i :: 0 <= i < |run| ==> run[i].Restart? || Writable(run[i].e)
  }

  /** The event leaves the header of a record over the limit on disk. */
  predicate Oversized(ev: Event) {
    match ev
    case Write(e) => !Fits(e)
    case Crash(e, begun, written, _) => begun && written >= HEADER_SIZE && !Fits(e)
    case Restart(_) => false
  }

  ghost predicate NoneOversized(run: seq<Event>) {
    forall i :: 0 <= i < |run| ==> !Oversized(run[i])
  }

  // ---------- The contents behind the files ----------

  /** `parts[i]` are the entries in segment `i + 1`. */
  function Joined(parts: seq<seq<Entry>>): seq<Entry> {
    if parts == [] then [] else Joined(parts[..|parts| - 1]) + parts[|parts| - 1]
  }

  ghost predicate PartsFit(parts: seq<seq<Entry>>) {
    forall i :: 0 <= i < |parts| ==> AllFit(parts[i])
  }

  ghost predicate PartsWritable(parts: seq<seq<Entry>>) {
    forall i :: 0 <= i < |parts| ==> AllWritable(parts[i])
  }

  function FilesOf(crc: Checksum, parts: seq<seq<Entry>>): Files {
    if parts == [] then map[]
    else FilesOf(crc, parts[..|parts| - 1])[SegmentName(|parts|) := EncodeAll(crc, parts[|parts| - 1])]
  }

  function ClosedOf(crc: Checksum, parts: seq<seq<Entry>>): seq<Segment> {
    if parts == [] then []
    else ClosedOf(crc, parts[..|parts| - 1]) +
         [Segment(|parts|, SegmentName(|parts|), |EncodeAll(crc, parts[|parts| - 1])|, false)]
  }

  function SegmentsOf(crc: Checksum, parts: seq<seq<Entry>>): seq<Segment>
    requires parts != []
  {
    ClosedOf(crc, parts[..|parts| - 1]) +
    [Segment(|parts|, SegmentName(|parts|), |EncodeAll(crc, parts[|parts| - 1])|, true)]
  }

  /** An open log holding exactly `parts`. */
  ghost predicate Holds(crc: Checksum, w: WalState, parts: seq<seq<Entry>>) {
    && parts != [] && |parts| < TEN_16 && PartsWritable(parts)
    && w.files == FilesOf(crc, parts)
    && w.segments == SegmentsOf(crc, parts)
    && w.lastIndex == MaxIndex(Joined(parts))
  }

  // ---------- File names of a run ----------

  function NamesTo(n: nat): (names: seq<string>)
    ensures |names| == n && forall i :: 0 <= i < n ==> names[i] == SegmentName(i + 1)
  {
    if n == 0 then [] else NamesTo(n - 1) + [SegmentName(n)]
  }

  lemma HoldsMeans(crc: Checksum, w: WalState, parts: seq<seq<Entry>>)
    requires Holds(crc, w, parts)
    ensures parts != [] && |parts| < TEN_16 && PartsWritable(parts) && w.files == FilesOf(crc, parts)
  {
  }

  lemma {:induction false} FileNames(crc: Checksum, parts: seq<seq<Entry>>, name: string)
    requires |parts| < TEN_16
    ensures name in FilesOf(crc, parts) <==> name in NamesTo(|parts|)
  {
    hide SegmentName;
    if parts != [] {
      FileNames(crc, parts[..|parts| - 1], name);
    }
  }

  lemma NamesListed(n: nat, files: set<string>)
    requires n < TEN_16 && forall name :: name in files <==> name in NamesTo(n)
    ensures ListFiles(files) == NamesTo(n)
  {
    forall i, j | 0 <= i < j < n ensures Less(NamesTo(n)[i], NamesTo(n)[j]) {
      NameOrder(i + 1, j + 1);
    }
    forall name | name in NamesTo(n) ensures IsSegment(name) {
    }
    FilesListed(files);
    ListingUnique(ListFiles(files), NamesTo(n), files);
  }

  lemma {:induction false} FreshName(crc: Checksum, parts: seq<seq<Entry>>, id: nat)
    requires |parts| < id < TEN_16
    ensures SegmentName(id) !in FilesOf(crc, parts)
  {
    if parts != [] {
      NamesDiffer(|parts|, id);
      FreshName(crc, parts[..|parts| - 1], id);
    }
  }

  lemma Untouched(files: Files, name: string, content: seq<Byte>, other: string)
    requires other in files && other != name
    ensures other in files[name := content] && files[name := content][other] == files[other]
  {
  }

  lemma {:induction false} FileAt(crc: Checksum, parts: seq<seq<Entry>>, i: nat)
    requires i < |parts| < TEN_16
    ensures SegmentName(i + 1) in FilesOf(crc, parts)
    ensures FilesOf(crc, parts)[SegmentName(i + 1)] == EncodeAll(crc, parts[i])
  {
    hide SegmentName;
    var last := |parts| - 1;
    var files := FilesOf(crc, parts[..last]);
    if i < last {
      FileAt(crc, parts[..last], i);
      NamesDiffer(i + 1, |parts|);
      Untouched(files, SegmentName(|parts|), EncodeAll(crc, parts[last]), SegmentName(i + 1));
    }
  }

  // ---------- Recovery finds the contents again ----------

  /** Files of a log stopped while its last segment held `parts`' last records
      and the bytes `tail`. */
  function StoppedFiles(crc: Checksum, parts: seq<seq<Entry>>, tail: seq<Byte>): Files
    requires parts != []
  {
    var last := |parts| - 1;
    FilesOf(crc, parts[..last])[SegmentName(|parts|) := EncodeAll(crc, parts[last]) + tail]
  }

  ghost predicate FileHolds(crc: Checksum, files: Files, parts: seq<seq<Entry>>, i: nat)
    requires i < |parts|
  {
    SegmentName(i + 1) in files && files[SegmentName(i + 1)] == EncodeAll(crc, parts[i])
  }

  lemma PartReads(crc: Checksum, files: Files, parts: seq<seq<Entry>>, i: nat)
    requires i < |parts| < TEN_16 && PartsFit(parts) && FileHolds(crc, files, parts, i)
    ensures var name := SegmentName(i + 1);
      && name in files && |files[name]| == |EncodeAll(crc, parts[i])|
      && SegmentId(name) == Some(i + 1)
      && Replay(crc, files[name]) == Replayed(parts[i], |EncodeAll(crc, parts[i])|, false)
  {
    hide SegmentName, SegmentId, Replay, EncodeAll, Decode;
    NameRoundTrip(i + 1);
    EmptyTail(crc);
    ReplayRecords(crc, parts[i], []);
    assert EncodeAll(crc, parts[i]) + [] == EncodeAll(crc, parts[i]);
  }

  /** One more segment whose name and contents read back as expected. */
  lemma NextReads(crc: Checksum, files: Files, names: seq<string>, parts: seq<seq<Entry>>, n: nat)
    requires n < |names| && n < |parts| && Readable(crc, files, names[..n])
    requires EntriesIn(crc, files, names[..n]) == Joined(parts[..n])
    requires names[n] in files && SegmentId(names[n]) == Some(n + 1)
    requires !Replay(crc, files[names[n]]).failed && Replay(crc, files[names[n]]).entries == parts[n]
    ensures Readable(crc, files, names[..n + 1])
    ensures EntriesIn(crc, files, names[..n + 1]) == Joined(parts[..n + 1])
    ensures ClosedSegments(crc, files, names[..n + 1]) ==
            ClosedSegments(crc, files, names[..n]) + [Segment(n + 1, names[n], |files[names[n]]|, false)]
  {
    hide Replay, SegmentId, Readable, ClosedSegments, EntriesIn;
    OneMoreSegment(crc, files, names, n);
    assert parts[..n + 1][..n] == parts[..n];
  }

  ghost predicate ReadsBack(crc: Checksum, files: Files, parts: seq<seq<Entry>>, n: nat)
    requires n <= |parts|
  {
    && Readable(crc, files, NamesTo(n))
    && EntriesIn(crc, files, NamesTo(n)) == Joined(parts[..n])
    && ClosedSegments(crc, files, NamesTo(n)) == ClosedOf(crc, parts[..n])
  }

  lemma NamesStep(n: nat)
    requires n > 0
    ensures NamesTo(n)[..n - 1] == NamesTo(n - 1) && NamesTo(n)[..n] == NamesTo(n)
  {
  }

  lemma NextReadsBack(crc: Checksum, files: Files, parts: seq<seq<Entry>>, n: nat)
    requires n < |parts| < TEN_16 && PartsFit(parts) && ReadsBack(crc, files, parts, n)
    requires FileHolds(crc, files, parts, n)
    ensures ReadsBack(crc, files, parts, n + 1)
  {
    hide SegmentName;
    PartReads(crc, files, parts, n);
    NamesStep(n + 1);
    NextReads(crc, files, NamesTo(n + 1), parts, n);
    assert ClosedOf(crc, parts[..n + 1]) ==
           ClosedOf(crc, parts[..n]) + [Segment(n + 1, SegmentName(n + 1), |EncodeAll(crc, parts[n])|, false)] by {
      assert parts[..n + 1][..n] == parts[..n];
    }
  }

  /** The first `n` segments replay to their parts. */
  lemma {:induction false} ClosedReplay(crc: Checksum, parts: seq<seq<Entry>>, files: Files, n: nat)
    requires n <= |parts| < TEN_16 && PartsFit(parts)
    requires forall i {:trigger FileHolds(crc, files, parts, i)} :: 0 <= i < n ==> FileHolds(crc, files, parts, i)
    ensures ReadsBack(crc, files, parts, n)
  {
    hide SegmentName;
    if n > 0 {
      ClosedReplay(crc, parts, files, n - 1);
      assert FileHolds(crc, files, parts, n - 1);
      NextReadsBack(crc, files, parts, n - 1);
    }
  }

  lemma StoppedHolds(crc: Checksum, parts: seq<seq<Entry>>, tail: seq<Byte>, i: nat)
    requires i + 1 < |parts| < TEN_16
    ensures FileHolds(crc, StoppedFiles(crc, parts, tail), parts, i)
  {
    hide SegmentName, EncodeAll;
    FileAt(crc, parts[..|parts| - 1], i);
    NamesDiffer(i + 1, |parts|);
  }

  lemma StoppedNames(crc: Checksum, parts: seq<seq<Entry>>, tail: seq<Byte>)
    requires parts != [] && |parts| < TEN_16
    ensures ListFiles(StoppedFiles(crc, parts, tail).Keys) == NamesTo(|parts|)
  {
    var last := |parts| - 1;
    forall name ensures name in StoppedFiles(crc, parts, tail).Keys <==> name in NamesTo(|parts|) {
      FileNames(crc, parts[..last], name);
    }
    NamesListed(|parts|, StoppedFiles(crc, parts, tail).Keys);
  }

  /** The contents with one more segment, piece by piece. */
  lemma OneMorePart(crc: Checksum, closed: seq<seq<Entry>>, now: seq<Entry>)
    ensures var parts, n := closed + [now], |closed| + 1;
      && FilesOf(crc, parts) == FilesOf(crc, closed)[SegmentName(n) := EncodeAll(crc, now)]
      && SegmentsOf(crc, parts) == ClosedOf(crc, closed) + [Segment(n, SegmentName(n), |EncodeAll(crc, now)|, true)]
      && ClosedOf(crc, parts) == ClosedOf(crc, closed) + [Segment(n, SegmentName(n), |EncodeAll(crc, now)|, false)]
      && Joined(parts) == Joined(closed) + now
  {
    assert (closed + [now])[..|closed|] == closed;
  }

  lemma HoldsParts(crc: Checksum, w: WalState, closed: seq<seq<Entry>>, now: seq<Entry>)
    requires |closed| + 1 < TEN_16 && PartsWritable(closed) && AllWritable(now)
    requires var n := |closed| + 1;
      && w.files == FilesOf(crc, closed)[SegmentName(n) := EncodeAll(crc, now)]
      && w.segments == ClosedOf(crc, closed) + [Segment(n, SegmentName(n), |EncodeAll(crc, now)|, true)]
      && w.lastIndex == MaxIndex(Joined(closed) + now)
    ensures Holds(crc, w, closed + [now])
  {
    OneMorePart(crc, closed, now);
  }

  /** A directory that holds `closed` and, in its last segment, `now` followed by
      bytes that are no record. */
  ghost predicate Stopped(crc: Checksum, closed: seq<seq<Entry>>, now: seq<Entry>, files: Files, name: string) {
    && |closed| + 1 < TEN_16 && PartsFit(closed) && AllFit(now)
    && name == SegmentName(|closed| + 1) && SegmentId(name) == Some(|closed| + 1)
    && ListFiles(files.Keys) == NamesTo(|closed| + 1)
    && ReadsBack(crc, files, closed, |closed|)
    && name in files
    && EncodeAll(crc, now) <= files[name]
    && Replay(crc, files[name]) == Replayed(now, |EncodeAll(crc, now)|, false)
  }

  lemma RecoveredState(crc: Checksum, closed: seq<seq<Entry>>, now: seq<Entry>, files: Files, name: string, limit: int)
    requires Stopped(crc, closed, now, files, name)
    ensures Reopen(crc, files, limit) ==
      Some(WalState(files[name := EncodeAll(crc, now)],
                    ClosedOf(crc, closed) + [Segment(|closed| + 1, name, |EncodeAll(crc, now)|, true)],
                    MaxIndex(Joined(closed) + now), limit))
  {
    var n, names := |closed|, NamesTo(|closed| + 1);
    NamesStep(n + 1);
    assert closed[..n] == closed;
    OneMoreSegment(crc, files, names, n);
    assert files[name][..|EncodeAll(crc, now)|] == EncodeAll(crc, now);
  }

  lemma Overwritten(files: Files, name: string, a: seq<Byte>, b: seq<Byte>)
    ensures files[name := a][name := b] == files[name := b]
  {
  }

  lemma RecoveredHolds(crc: Checksum, closed: seq<seq<Entry>>, now: seq<Entry>, files: Files, name: string, content: seq<Byte>, limit: int)
    requires Stopped(crc, closed, now, files, name) && files == FilesOf(crc, closed)[name := content]
    ensures var r := Reopen(crc, files, limit);
      r.Some? && Holds(crc, r.value, closed + [now]) && r.value.limit == limit
  {
    hide SegmentName, Recover;
    RecoveredState(crc, closed, now, files, name, limit);
    Overwritten(FilesOf(crc, closed), name, content, EncodeAll(crc, now));
    HoldsParts(crc, Reopen(crc, files, limit).value, closed, now);
  }

  lemma StoppedReads(crc: Checksum, parts: seq<seq<Entry>>, tail: seq<Byte>)
    requires parts != [] && |parts| < TEN_16 && PartsFit(parts)
    ensures ReadsBack(crc, StoppedFiles(crc, parts, tail), parts[..|parts| - 1], |parts| - 1)
  {
    var last, files := |parts| - 1, StoppedFiles(crc, parts, tail);
    forall i: nat | i < last ensures FileHolds(crc, files, parts[..last], i) {
      StoppedHolds(crc, parts, tail, i);
      assert FileHolds(crc, files, parts, i);
    }
    ClosedReplay(crc, parts[..last], files, last);
  }

  lemma StoppedAfterCrash(crc: Checksum, parts: seq<seq<Entry>>, e: Entry, j: nat)
    requires parts != [] && |parts| < TEN_16 && PartsFit(parts) && j <= |Encoding(crc, e)|
    requires Writable(e) && (Fits(e) || j < HEADER_SIZE)
    ensures var last, bs := |parts| - 1, Encoding(crc, e);
      Stopped(crc, parts[..last], if j == |bs| then parts[last] + [e] else parts[last],
              StoppedFiles(crc, parts, bs[..j]), SegmentName(|parts|))
  {
    hide SegmentName, Replay, Encoding, EncodeAll, FilesOf;
    var last, bs := |parts| - 1, Encoding(crc, e);
    StoppedNames(crc, parts, bs[..j]);
    StoppedReads(crc, parts, bs[..j]);
    ReplayAfterCrash(crc, parts[last], e, j);
    EncodeOne(crc, parts[last], e);
    NameRoundTrip(|parts|);
    assert bs[..|bs|] == bs;
  }

  /** A directory with a segment that does not replay cannot be opened. */
  lemma ReopenFails(crc: Checksum, files: Files, names: seq<string>, i: nat, limit: int)
    requires ListFiles(files.Keys) == names && i < |names|
    requires names[i] in files && Replay(crc, files[names[i]]).failed
    ensures Reopen(crc, files, limit) == None
  {
  }

  lemma StoppedOversized(crc: Checksum, parts: seq<seq<Entry>>, tail: seq<Byte>, limit: int)
    requires parts != [] && |parts| < TEN_16 && PartsWritable(parts) && !PartsFit(parts)
    ensures Reopen(crc, StoppedFiles(crc, parts, tail), limit) == None
  {
    hide SegmentName, Replay, EncodeAll, FilesOf, Recover;
    var i :| 0 <= i < |parts| && !AllFit(parts[i]);
    var files := StoppedFiles(crc, parts, tail);
    StoppedNames(crc, parts, tail);
    if i + 1 < |parts| {
      StoppedHolds(crc, parts, tail, i);
      ReplayOversized(crc, parts[i], []);
      assert EncodeAll(crc, parts[i]) + [] == EncodeAll(crc, parts[i]);
    } else {
      ReplayOversized(crc, parts[i], tail);
    }
    ReopenFails(crc, files, NamesTo(|parts|), i, limit);
  }

  lemma CrashOversized(crc: Checksum, parts: seq<seq<Entry>>, e: Entry, j: nat, limit: int)
    requires parts != [] && |parts| < TEN_16 && PartsFit(parts) && j <= |Encoding(crc, e)|
    requires Writable(e) && !Fits(e) && j >= HEADER_SIZE
    ensures Reopen(crc, StoppedFiles(crc, parts, Encoding(crc, e)[..j]), limit) == None
  {
    hide SegmentName, Replay, Encoding, EncodeAll, FilesOf, Recover;
    var last, tail := |parts| - 1, Encoding(crc, e)[..j];
    StoppedNames(crc, parts, tail);
    ReplayAfterCrash(crc, parts[last], e, j);
    ReopenFails(crc, StoppedFiles(crc, parts, tail), NamesTo(|parts|), last, limit);
  }

  lemma RecoveredAfterCrash(crc: Checksum, parts: seq<seq<Entry>>, e: Entry, j: nat, limit: int)
    requires parts != [] && |parts| < TEN_16 && PartsFit(parts) && j <= |Encoding(crc, e)|
    requires Writable(e) && (Fits(e) || j < HEADER_SIZE)
    ensures var last := |parts| - 1;
      var r := Reopen(crc, StoppedFiles(crc, parts, Encoding(crc, e)[..j]), limit);
      && r.Some? && r.value.limit == limit
      && Holds(crc, r.value, parts[..last] + [if j == |Encoding(crc, e)| then parts[last] + [e] else parts[last]])
  {
    hide SegmentName, Reopen, Stopped, FilesOf, Encoding, EncodeAll, Holds;
    var last, bs := |parts| - 1, Encoding(crc, e);
    StoppedAfterCrash(crc, parts, e, j);
    RecoveredHolds(crc, parts[..last], if j == |bs| then parts[last] + [e] else parts[last],
                   StoppedFiles(crc, parts, bs[..j]), SegmentName(|parts|), EncodeAll(crc, parts[last]) + bs[..j], limit);
  }

  /** Reopening after any interrupted write works if and only if no record over
      the limit has its header on disk; it then holds what was complete, and
      cuts the file back to it. */
  lemma ReopenStopped(crc: Checksum, parts: seq<seq<Entry>>, e: Entry, j: nat, limit: int)
    requires parts != [] && |parts| < TEN_16 && PartsWritable(parts) && Writable(e) && j <= |Encoding(crc, e)|
    ensures var last := |parts| - 1;
      var r := Reopen(crc, StoppedFiles(crc, parts, Encoding(crc, e)[..j]), limit);
      && (r.Some? <==> PartsFit(parts) && (Fits(e) || j < HEADER_SIZE))
      && (r.Some? ==>
            && r.value.limit == limit
            && Holds(crc, r.value, parts[..last] + [if j == |Encoding(crc, e)| then parts[last] + [e] else parts[last]]))
  {
    hide Reopen, StoppedFiles, Encoding, Holds;
    if !PartsFit(parts) {
      StoppedOversized(crc, parts, Encoding(crc, e)[..j], limit);
    } else if Fits(e) || j < HEADER_SIZE {
      RecoveredAfterCrash(crc, parts, e, j, limit);
    } else {
      CrashOversized(crc, parts, e, j, limit);
    }
  }

  // ---------- Appending ----------

  lemma ActiveSegment(crc: Checksum, w: WalState, parts: seq<seq<Entry>>)
    requires Holds(crc, w, parts)
    ensures Open(w)
    ensures Active(w) == Segment(|parts|, SegmentName(|parts|), |EncodeAll(crc, parts[|parts| - 1])|, true)
    ensures w.segments[..|w.segments| - 1] == ClosedOf(crc, parts[..|parts| - 1])
    ensures w.files[Active(w).name] == EncodeAll(crc, parts[|parts| - 1])
  {
    hide SegmentName;
    FileAt(crc, parts, |parts| - 1);
  }

  lemma RotateShape(w: WalState, closed: seq<Segment>, a: Segment, name: string)
    requires w.segments == closed + [a] && a.name in w.files
    requires name == SegmentName(a.id + 1) && name !in w.files
    ensures Open(w)
    ensures Rotate(w) == Some(w.(files := w.files[name := []],
                                 segments := closed + [a.(open := false)] + [Segment(a.id + 1, name, 0, true)]))
  {
  }

  lemma WriteShape(w: WalState, closed: seq<Segment>, a: Segment, bs: seq<Byte>)
    requires w.segments == closed + [a] && a.name in w.files
    ensures Open(w)
    ensures WriteActive(w, bs) == w.(files := w.files[a.name := w.files[a.name] + bs],
                                     segments := closed + [a.(size := a.size + |bs|)])
  {
  }

  lemma ClosedSplit(crc: Checksum, parts: seq<seq<Entry>>)
    requires parts != []
    ensures ClosedOf(crc, parts) ==
      ClosedOf(crc, parts[..|parts| - 1]) + [Segment(|parts|, SegmentName(|parts|), |EncodeAll(crc, parts[|parts| - 1])|, false)]
  {
  }

  lemma {:induction false} ClosedNames(crc: Checksum, parts: seq<seq<Entry>>)
    ensures SegmentNames(ClosedOf(crc, parts)) == NamesTo(|parts|)
  {
    if parts != [] {
      ClosedNames(crc, parts[..|parts| - 1]);
      ClosedSplit(crc, parts);
    }
  }

  lemma SegmentNamesAre(crc: Checksum, parts: seq<seq<Entry>>)
    requires parts != []
    ensures SegmentNames(SegmentsOf(crc, parts)) == NamesTo(|parts|)
  {
    ClosedNames(crc, parts[..|parts| - 1]);
  }

  lemma RotatedState(crc: Checksum, w: WalState, parts: seq<seq<Entry>>)
    requires Holds(crc, w, parts) && |parts| + 1 < TEN_16
    ensures Open(w)
    ensures var n := |parts| + 1;
      Rotate(w) == Some(w.(files := FilesOf(crc, parts)[SegmentName(n) := []],
                           segments := ClosedOf(crc, parts) + [Segment(n, SegmentName(n), 0, true)]))
  {
    hide SegmentName;
    ActiveSegment(crc, w, parts);
    FreshName(crc, parts, |parts| + 1);
    ClosedSplit(crc, parts);
    RotateShape(w, ClosedOf(crc, parts[..|parts| - 1]), Active(w), SegmentName(|parts| + 1));
  }

  lemma RotateHolds(crc: Checksum, w: WalState, parts: seq<seq<Entry>>)
    requires Holds(crc, w, parts) && |parts| + 1 < TEN_16
    ensures Open(w) && Rotate(w).Some?
    ensures Holds(crc, Rotate(w).value, parts + [[]]) && Rotate(w).value.limit == w.limit
  {
    RotatedState(crc, w, parts);
    var w' := Rotate(w).value;
    assert EncodeAll(crc, []) == [];
    assert Joined(parts) + [] == Joined(parts);
    HoldsParts(crc, w', parts, []);
  }

  /** The parts after making room for `n` bytes. */
  function Roomed(crc: Checksum, parts: seq<seq<Entry>>, limit: int, n: nat): seq<seq<Entry>>
    requires parts != []
  {
    if |EncodeAll(crc, parts[|parts| - 1])| + n > limit then parts + [[]] else parts
  }

  lemma RoomHolds(crc: Checksum, w: WalState, parts: seq<seq<Entry>>, n: nat)
    requires Holds(crc, w, parts) && |parts| + 1 < TEN_16
    ensures Open(w) && MakeRoom(w, n).Some?
    ensures Holds(crc, MakeRoom(w, n).value, Roomed(crc, parts, w.limit, n)) && MakeRoom(w, n).value.limit == w.limit
  {
    ActiveSegment(crc, w, parts);
    RotateHolds(crc, w, parts);
  }

  lemma WriteFiles(crc: Checksum, parts: seq<seq<Entry>>, bs: seq<Byte>)
    requires parts != []
    ensures FilesOf(crc, parts)[SegmentName(|parts|) := EncodeAll(crc, parts[|parts| - 1]) + bs] == StoppedFiles(crc, parts, bs)
  {
    var last := |parts| - 1;
    Overwritten(FilesOf(crc, parts[..last]), SegmentName(|parts|), EncodeAll(crc, parts[last]), EncodeAll(crc, parts[last]) + bs);
  }

  /** The state after writing `bs` behind the records of the last part. */
  lemma WriteState(crc: Checksum, w: WalState, parts: seq<seq<Entry>>, bs: seq<Byte>)
    requires Holds(crc, w, parts)
    ensures Open(w)
    ensures var last, n := |parts| - 1, |parts|;
      WriteActive(w, bs) ==
        w.(files := StoppedFiles(crc, parts, bs),
           segments := ClosedOf(crc, parts[..last]) + [Segment(n, SegmentName(n), |EncodeAll(crc, parts[last]) + bs|, true)])
  {
    hide SegmentName;
    ActiveSegment(crc, w, parts);
    var last := |parts| - 1;
    WriteShape(w, ClosedOf(crc, parts[..last]), Active(w), bs);
    WriteFiles(crc, parts, bs);
  }

  /** The last part with one more entry. */
  function Extended(parts: seq<seq<Entry>>, e: Entry): seq<seq<Entry>>
    requires parts != []
  {
    parts[..|parts| - 1] + [parts[|parts| - 1] + [e]]
  }

  lemma JoinedExtended(parts: seq<seq<Entry>>, e: Entry)
    requires parts != []
    ensures Joined(Extended(parts, e)) == Joined(parts) + [e]
  {
    var last := |parts| - 1;
    assert Extended(parts, e)[..last] == parts[..last];
  }

  lemma RaisedIndex(parts: seq<seq<Entry>>, e: Entry)
    requires parts != []
    ensures MaxIndex(Joined(Extended(parts, e))) ==
            if e.index > MaxIndex(Joined(parts)) then e.index else MaxIndex(Joined(parts))
  {
    JoinedExtended(parts, e);
    MaxIndexAppend(Joined(parts), [e]);
    assert MaxIndex([e]) == e.index;
  }

  /** The log after writing a whole record, with the index it may raise. */
  function Written(crc: Checksum, w: WalState, e: Entry): WalState
    requires Open(w)
  {
    var w2 := WriteActive(w, Encoding(crc, e));
    if e.index > w2.lastIndex then w2.(lastIndex := e.index) else w2
  }

  lemma WriteHolds(crc: Checksum, w: WalState, parts: seq<seq<Entry>>, e: Entry)
    requires Holds(crc, w, parts) && Writable(e)
    ensures Open(w)
    ensures Holds(crc, Written(crc, w, e), Extended(parts, e))
  {
    hide SegmentName, EncodeAll, Encoding, WriteActive, MaxIndex, Joined;
    var last := |parts| - 1;
    WriteState(crc, w, parts, Encoding(crc, e));
    EncodeOne(crc, parts[last], e);
    RaisedIndex(parts, e);
    OneMorePart(crc, parts[..last], parts[last] + [e]);
    HoldsParts(crc, Written(crc, w, e), parts[..last], parts[last] + [e]);
  }

  lemma AppendHolds(crc: Checksum, w: WalState, parts: seq<seq<Entry>>, e: Entry)
    requires Holds(crc, w, parts) && Writable(e) && |parts| + 1 < TEN_16
    ensures Open(w) && AppendEntry(crc, w, e).Some?
    ensures var room := Roomed(crc, parts, w.limit, |Encoding(crc, e)|);
      Holds(crc, AppendEntry(crc, w, e).value, Extended(room, e))
    ensures AppendEntry(crc, w, e).value.limit == w.limit
  {
    hide SegmentName, Holds, Encoding, EncodeAll, MakeRoom, Open;
    HoldsMeans(crc, w, parts);
    var n := |Encoding(crc, e)|;
    RoomHolds(crc, w, parts, n);
    var w1 := MakeRoom(w, n).value;
    WriteHolds(crc, w1, Roomed(crc, parts, w.limit, n), e);
    assert AppendEntry(crc, w, e) == Some(Written(crc, w1, e));
  }

  // ---------- Whole runs ----------

  /** A segment with two records or more is within the limit. */
  ghost predicate SizesOk(crc: Checksum, parts: seq<seq<Entry>>, limit: int) {
    forall i {:trigger parts[i]} :: 0 <= i < |parts| && |parts[i]| >= 2 ==> |EncodeAll(crc, parts[i])| <= limit
  }

  lemma ExtendedSizes(crc: Checksum, parts: seq<seq<Entry>>, limit: int, e: Entry)
    requires parts != [] && SizesOk(crc, parts, limit)
    ensures var room := Roomed(crc, parts, limit, |Encoding(crc, e)|);
      SizesOk(crc, room, limit) && SizesOk(crc, Extended(room, e), limit)
  {
    var room := Roomed(crc, parts, limit, |Encoding(crc, e)|);
    var last := |room| - 1;
    EncodeOne(crc, room[last], e);
    forall i | 0 <= i < |room| && |Extended(room, e)[i]| >= 2
      ensures |EncodeAll(crc, Extended(room, e)[i])| <= limit
    {
      if i < last {
        assert Extended(room, e)[i] == room[i] == parts[i];
      }
    }
  }

  lemma JoinedRoomed(crc: Checksum, parts: seq<seq<Entry>>, limit: int, n: nat)
    requires parts != []
    ensures Joined(Roomed(crc, parts, limit, n)) == Joined(parts)
  {
    assert (parts + [[]])[..|parts|] == parts;
    assert Joined(parts) + [] == Joined(parts);
  }

  lemma CrashedFiles(crc: Checksum, w: WalState, parts: seq<seq<Entry>>, e: Entry, written: nat)
    requires Holds(crc, w, parts) && |parts| + 1 < TEN_16
    ensures Open(w)
    ensures var bs := Encoding(crc, e);
      CrashFiles(crc, w, e, true, written) ==
      StoppedFiles(crc, Roomed(crc, parts, w.limit, |bs|), bs[..if written <= |bs| then written else |bs|])
  {
    hide SegmentName, FilesOf, EncodeAll, Encoding, WriteActive, MakeRoom, Open, Holds, StoppedFiles;
    HoldsMeans(crc, w, parts);
    var bs := Encoding(crc, e);
    RoomHolds(crc, w, parts, |bs|);
    assert bs[..|bs|] == bs;
    WriteState(crc, MakeRoom(w, |bs|).value, Roomed(crc, parts, w.limit, |bs|), bs[..if written <= |bs| then written else |bs|]);
  }

  lemma RoomedFits(crc: Checksum, parts: seq<seq<Entry>>, limit: int, n: nat)
    requires parts != [] && |parts| + 1 < TEN_16 && PartsWritable(parts)
    ensures var room := Roomed(crc, parts, limit, n);
      && PartsWritable(room) && |room| < TEN_16 && room == room[..|room| - 1] + [room[|room| - 1]]
      && (PartsFit(room) <==> PartsFit(parts))
  {
    var room := Roomed(crc, parts, limit, n);
    if PartsFit(room) {
      forall i | 0 <= i < |parts| ensures AllFit(parts[i]) {
        assert room[i] == parts[i];
      }
    }
  }

  /** A crash at any byte of a write leaves a directory that reopens, if and only
      if no record over the limit has its header on disk. */
  lemma CrashHolds(crc: Checksum, w: WalState, parts: seq<seq<Entry>>, e: Entry, written: nat, limit: int)
    requires Holds(crc, w, parts) && Writable(e) && |parts| + 1 < TEN_16
    ensures Open(w)
    ensures var room := Roomed(crc, parts, w.limit, |Encoding(crc, e)|);
      var r := Reopen(crc, CrashFiles(crc, w, e, true, written), limit);
      && (r.Some? <==> PartsFit(parts) && (Fits(e) || written < HEADER_SIZE))
      && (r.Some? ==>
            r.value.limit == limit && Holds(crc, r.value, if written >= |Encoding(crc, e)| then Extended(room, e) else room))
  {
    hide Reopen, CrashFiles, StoppedFiles, Encoding, Holds, SegmentName;
    var n := |Encoding(crc, e)|;
    CrashedFiles(crc, w, parts, e, written);
    HoldsMeans(crc, w, parts);
    RoomedFits(crc, parts, w.limit, n);
    ReopenStopped(crc, Roomed(crc, parts, w.limit, n), e, if written <= n then written else n, limit);
  }

  lemma StoppedCleanly(crc: Checksum, parts: seq<seq<Entry>>, tail: seq<Byte>)
    requires parts != [] && tail == []
    ensures StoppedFiles(crc, parts, tail) == FilesOf(crc, parts)
  {
    assert EncodeAll(crc, parts[|parts| - 1]) + tail == EncodeAll(crc, parts[|parts| - 1]);
  }

  lemma RestartHolds(crc: Checksum, w: WalState, parts: seq<seq<Entry>>, limit: int)
    requires Holds(crc, w, parts)
    ensures var r := Reopen(crc, w.files, limit);
      && (r.Some? <==> PartsFit(parts))
      && (r.Some? ==> Holds(crc, r.value, parts) && r.value.limit == limit)
  {
    hide SegmentName, Reopen, FilesOf, StoppedFiles, Encoding, Holds;
    HoldsMeans(crc, w, parts);
    var last := |parts| - 1;
    assert Writable(Entry(0, []));
    var e :| Writable(e);
    StoppedCleanly(crc, parts, Encoding(crc, e)[..0]);
    ReopenStopped(crc, parts, e, 0, limit);
    assert parts == parts[..last] + [parts[last]];
  }

  lemma FirstOpen(crc: Checksum, limit: int)
    ensures var r := Reopen(crc, map[], limit);
      r.Some? && Holds(crc, r.value, [[]]) && r.value.limit == limit && Joined([[]]) == [] && PartsFit([[]])
  {
    var none: Files := map[];
    assert none.Keys == {};
    assert Readable(crc, none, []);
    var nothing: seq<seq<Entry>> := [];
    assert EncodeAll(crc, []) == [] && Joined(nothing) + [] == [];
    HoldsParts(crc, Reopen(crc, none, limit).value, nothing, []);
    assert nothing + [[]] == [[]];
    OneMorePart(crc, nothing, []);
  }

  lemma ExtendedFits(parts: seq<seq<Entry>>, e: Entry)
    requires parts != []
    ensures PartsFit(Extended(parts, e)) <==> PartsFit(parts) && Fits(e)
  {
    var last, more := |parts| - 1, Extended(parts, e);
    assert AllFit(parts[last] + [e]) <==> AllFit(parts[last]) && Fits(e) by {
      if AllFit(parts[last] + [e]) {
        assert forall i :: 0 <= i < |parts[last]| ==> (parts[last] + [e])[i] == parts[last][i];
        assert (parts[last] + [e])[|parts[last]|] == e;
      }
    }
    assert forall i :: 0 <= i < last ==> more[i] == parts[i];
    assert more[last] == parts[last] + [e];
  }

  lemma NotBegun(crc: Checksum, w: WalState, ev: Event)
    requires Open(w) && (ev.Restart? || (ev.Crash? && !ev.begun))
    ensures Happen(crc, w, ev) == Reopen(crc, w.files, ev.limit)
  {
  }

  /** What one event makes of the contents. Only opening again can fail, and does
      if and only if a record over the limit is in its way. */
  lemma EventHolds(crc: Checksum, w: WalState, parts: seq<seq<Entry>>, ev: Event) returns (parts': seq<seq<Entry>>)
    requires Holds(crc, w, parts) && |parts| + 1 < TEN_16
    requires ev.Restart? || Writable(ev.e)
    ensures Open(w)
    ensures Happen(crc, w, ev).Some? <==> ev.Write? || (PartsFit(parts) && !Oversized(ev))
    ensures Happen(crc, w, ev).Some? ==>
      var w' := Happen(crc, w, ev).value;
      && Holds(crc, w', parts') && |parts'| <= |parts| + 1
      && w'.limit == (if ev.Write? then w.limit else ev.limit)
      && (PartsFit(parts') <==> PartsFit(parts) && !Oversized(ev))
    ensures Joined(parts') ==
      if ev.Write? || (ev.Crash? && ev.begun && ev.written >= |Encoding(crc, ev.e)|) then Joined(parts) + [ev.e] else Joined(parts)
    ensures SizesOk(crc, parts, w.limit) ==> SizesOk(crc, parts', w.limit)
  {
    hide Reopen, SegmentName, Holds, Encoding, EncodeAll, AppendEntry, CrashFiles, Joined, PartsFit;
    HoldsMeans(crc, w, parts);
    ActiveSegment(crc, w, parts);
    if ev.Restart? || (ev.Crash? && !ev.begun) {
      parts' := parts;
      RestartHolds(crc, w, parts, ev.limit);
      NotBegun(crc, w, ev);
    } else {
      var room := Roomed(crc, parts, w.limit, |Encoding(crc, ev.e)|);
      JoinedRoomed(crc, parts, w.limit, |Encoding(crc, ev.e)|);
      JoinedExtended(room, ev.e);
      RoomedFits(crc, parts, w.limit, |Encoding(crc, ev.e)|);
      ExtendedFits(room, ev.e);
      if SizesOk(crc, parts, w.limit) {
        ExtendedSizes(crc, parts, w.limit, ev.e);
      }
      if ev.Write? {
        parts' := Extended(room, ev.e);
        AppendHolds(crc, w, parts, ev.e);
      } else {
        parts' := if ev.written >= |Encoding(crc, ev.e)| then Extended(room, ev.e) else room;
        CrashHolds(crc, w, parts, ev.e, ev.written, ev.limit);
      }
    }
  }

  /** The limit in force after a run, and whether it was the same throughout. */
  ghost predicate FixedLimit(run: seq<Event>, limit: int) {
    forall i :: 0 <= i < |run| ==> run[i].Write? || run[i].limit == limit
  }

  /** Before every event, the id of the segment a rotation would create is below
      10^16, so that sorting the file names sorts the ids. */
  ghost predicate IdsWithin(crc: Checksum, limit: int, run: seq<Event>) {
    forall k {:trigger run[..k]} :: 0 <= k < |run| && RunLog(crc, limit, run[..k]).Some? ==>
      |RunLog(crc, limit, run[..k]).value.segments| + 1 < TEN_16
  }

  lemma IdsWithinBefore(crc: Checksum, limit: int, run: seq<Event>, n: nat)
    requires IdsWithin(crc, limit, run) && n <= |run|
    ensures IdsWithin(crc, limit, run[..n])
  {
    forall k | 0 <= k < n && RunLog(crc, limit, run[..n][..k]).Some?
      ensures |RunLog(crc, limit, run[..n][..k]).value.segments| + 1 < TEN_16
    {
      assert run[..n][..k] == run[..k];
    }
  }

  lemma SegmentCount(crc: Checksum, w: WalState, parts: seq<seq<Entry>>)
    requires Holds(crc, w, parts)
    ensures |w.segments| == |parts|
  {
    hide SegmentName;
    ClosedNames(crc, parts[..|parts| - 1]);
  }

  lemma RunStep(crc: Checksum, limit: int, run: seq<Event>)
    requires run != [] && RunLog(crc, limit, run[..|run| - 1]).Some? && Open(RunLog(crc, limit, run[..|run| - 1]).value)
    ensures RunLog(crc, limit, run) == Happen(crc, RunLog(crc, limit, run[..|run| - 1]).value, run[|run| - 1])
  {
  }

  lemma PromiseStep(crc: Checksum, run: seq<Event>)
    requires run != []
    ensures var ev, before := run[|run| - 1], Promised(crc, run[..|run| - 1]);
      Promised(crc, run) ==
      if ev.Write? || (ev.Crash? && ev.begun && ev.written >= |Encoding(crc, ev.e)|) then before + [ev.e] else before
  {
  }

  lemma OversizedStep(run: seq<Event>)
    requires run != []
    ensures NoneOversized(run) <==> NoneOversized(run[..|run| - 1]) && !Oversized(run[|run| - 1])
  {
    hide Oversized;
    assert run == run[..|run| - 1] + [run[|run| - 1]];
  }

  /** Unless the log could not be opened again, its files are those of what was
      promised; and nothing in them is over the limit if and only if no event was. */
  lemma {:induction false} RunHolds(crc: Checksum, limit: int, run: seq<Event>) returns (parts: seq<seq<Entry>>)
    requires Possible(run) && IdsWithin(crc, limit, run)
    ensures NoneOversized(run) <==> RunLog(crc, limit, run).Some? && PartsFit(parts)
    ensures RunLog(crc, limit, run).Some? ==>
      && Holds(crc, RunLog(crc, limit, run).value, parts) && |parts| <= |run| + 1
      && Joined(parts) == Promised(crc, run)
      && (FixedLimit(run, limit) ==> RunLog(crc, limit, run).value.limit == limit && SizesOk(crc, parts, limit))
  {
    hide Happen, Reopen, Encoding, EncodeAll, Holds, PartsFit, Joined, Oversized, Open;
    if run == [] {
      FirstOpen(crc, limit);
      parts := [[]];
    } else {
      var before, ev := run[..|run| - 1], run[|run| - 1];
      IdsWithinBefore(crc, limit, run, |run| - 1);
      OversizedStep(run);
      parts := RunHolds(crc, limit, before);
      if RunLog(crc, limit, before).Some? {
        var w := RunLog(crc, limit, before).value;
        SegmentCount(crc, w, parts);
        var parts0 := parts;
        parts := EventHolds(crc, w, parts0, ev);
        RunStep(crc, limit, run);
        PromiseStep(crc, run);
      }
    }
  }

  /** A run of fewer than 10^16 events, less one, never gets near the bound. */
  lemma {:induction false} ShortRuns(crc: Checksum, limit: int, run: seq<Event>)
    requires Possible(run) && |run| < TEN_16 - 1
    ensures IdsWithin(crc, limit, run)
    decreases |run|
  {
    hide RunLog, Holds, Promised, Joined, NoneOversized, PartsFit;
    forall k | 0 <= k < |run| && RunLog(crc, limit, run[..k]).Some?
      ensures |RunLog(crc, limit, run[..k]).value.segments| + 1 < TEN_16
    {
      ShortRuns(crc, limit, run[..k]);
      var parts := RunHolds(crc, limit, run[..k]);
      SegmentCount(crc, RunLog(crc, limit, run[..k]).value, parts);
    }
  }

  /** Reading gives every entry, or nothing if one of them is over the limit. */
  lemma ReadBack(crc: Checksum, w: WalState, parts: seq<seq<Entry>>)
    requires Holds(crc, w, parts)
    ensures ReadAll(crc, w) == if PartsFit(parts) then Some(Joined(parts)) else None
  {
    hide SegmentName, Replay, EncodeAll, FilesOf;
    SegmentNamesAre(crc, parts);
    forall i: nat | i < |parts| ensures FileHolds(crc, w.files, parts, i) {
      FileAt(crc, parts, i);
    }
    if PartsFit(parts) {
      ClosedReplay(crc, parts, w.files, |parts|);
      assert parts[..|parts|] == parts;
    } else {
      var i: nat :| i < |parts| && !AllFit(parts[i]);
      assert FileHolds(crc, w.files, parts, i);
      ReplayOversized(crc, parts[i], []);
      assert EncodeAll(crc, parts[i]) + [] == EncodeAll(crc, parts[i]);
      assert NamesTo(|parts|)[i] == SegmentName(i + 1);
    }
  }

  /** Durability: after a run of appends, rotations, restarts and crashes at any
      byte, every step has succeeded and reading gives exactly the promised
      entries in order, if and only if no event put the header of a record over
      the limit on disk. `LastIndex` is the greatest promised index in any case;
      with a record over the limit nothing can be read at all. */
  lemma Durability(crc: Checksum, limit: int, run: seq<Event>)
    requires Possible(run) && IdsWithin(crc, limit, run)
    ensures var w := RunLog(crc, limit, run);
      && (NoneOversized(run) <==> w.Some? && ReadAll(crc, w.value) == Some(Promised(crc, run)))
      && (w.Some? ==> Open(w.value) && w.value.lastIndex == MaxIndex(Promised(crc, run)))
      && (w.Some? && !NoneOversized(run) ==> ReadAll(crc, w.value) == None)
  {
    hide RunLog, NoneOversized, Promised, ReadAll, PartsFit, EncodeAll, SegmentName;
    var parts := RunHolds(crc, limit, run);
    if RunLog(crc, limit, run).Some? {
      var w := RunLog(crc, limit, run).value;
      ActiveSegment(crc, w, parts);
      ReadBack(crc, w, parts);
    }
  }

  lemma OversizedWrite(crc: Checksum, w: WalState, parts: seq<seq<Entry>>, e: Entry, limit: int)
    requires Holds(crc, w, parts) && |parts| + 1 < TEN_16 && Writable(e) && !Fits(e)
    ensures Open(w) && AppendEntry(crc, w, e).Some?
    ensures var w' := AppendEntry(crc, w, e).value;
      Open(w') && ReadAll(crc, w') == None && Reopen(crc, w'.files, limit) == None
  {
    hide ReadAll, Holds, SizesOk, Joined, Reopen, PartsFit, AppendEntry, Open;
    var parts' := EventHolds(crc, w, parts, Write(e));
    var w' := AppendEntry(crc, w, e).value;
    ActiveSegment(crc, w', parts');
    ReadBack(crc, w', parts');
    RestartHolds(crc, w', parts', limit);
  }

  /** An append over the limit is acknowledged, but from then on nothing can be
      read and the log cannot be opened again. */
  lemma OversizedLost(crc: Checksum, limit: int, run: seq<Event>, e: Entry, limit': int)
    requires Possible(run) && NoneOversized(run) && Writable(e) && !Fits(e)
    requires IdsWithin(crc, limit, run + [Write(e)])
    ensures var w := RunLog(crc, limit, run + [Write(e)]);
      w.Some? && ReadAll(crc, w.value) == None
    ensures RunLog(crc, limit, run + [Write(e), Restart(limit')]) == None
  {
    hide ReadAll, Promised, Holds, SizesOk, Joined, Reopen, PartsFit, AppendEntry, RunLog, Open, NoneOversized;
    var one, two := run + [Write(e)], run + [Write(e), Restart(limit')];
    assert two[..|two| - 1] == one && one[..|one| - 1] == run;
    IdsWithinBefore(crc, limit, one, |run|);
    var parts := RunHolds(crc, limit, run);
    var w := RunLog(crc, limit, run).value;
    SegmentCount(crc, w, parts);
    OversizedWrite(crc, w, parts, e, limit');
    RunStep(crc, limit, one);
    RunStep(crc, limit, two);
  }

  /** Such a run: one append of 128 MiB of data, and opening the log again. */
  lemma OversizedExample(crc: Checksum, limit: int)
    ensures var run := [Write(Entry(1, seq(MAX_PAYLOAD, _ => 0)))];
      && Possible(run) && IdsWithin(crc, limit, run)
      && RunLog(crc, limit, run).Some? && ReadAll(crc, RunLog(crc, limit, run).value) == None
      && RunLog(crc, limit, run + [Restart(limit)]) == None
  {
    hide RunLog, ReadAll, Promised;
    var e := Entry(1, seq(MAX_PAYLOAD, _ => 0));
    var none: seq<Event> := [];
    ShortRuns(crc, limit, [Write(e)]);
    assert none + [Write(e), Restart(limit)] == [Write(e)] + [Restart(limit)] == [Write(e), Restart(limit)];
    assert none + [Write(e)] == [Write(e)];
    OversizedLost(crc, limit, none, e, limit);
  }

  lemma OneRecord(crc: Checksum, es: seq<Entry>)
    requires |es| <= 1
    ensures EncodeAll(crc, es) == if es == [] then [] else Encoding(crc, es[0])
  {
    hide Encoding;
    if es != [] {
      assert es[1..] == [];
      assert Encoding(crc, es[0]) + [] == Encoding(crc, es[0]);
    }
  }

  /** Segment sizes: in a run with one limit, a file that exceeds it is exactly
      one record (or, with a negative limit, empty). */
  lemma SegmentSizes(crc: Checksum, limit: int, run: seq<Event>, name: string)
    requires Possible(run) && IdsWithin(crc, limit, run) && FixedLimit(run, limit)
    requires RunLog(crc, limit, run).Some?
    ensures var files := RunLog(crc, limit, run).value.files;
      name in files && |files[name]| > limit ==>
        (exists e :: files[name] == Encoding(crc, e)) || (limit < 0 && files[name] == [])
  {
    hide RunLog, SegmentName, Encoding;
    var parts := RunHolds(crc, limit, run);
    var files := RunLog(crc, limit, run).value.files;
    if name in files && |files[name]| > limit {
      FileNames(crc, parts, name);
      var i :| 0 <= i < |parts| && NamesTo(|parts|)[i] == name;
      FileAt(crc, parts, i);
      OneRecord(crc, parts[i]);
    }
  }

  lemma NoRecords(crc: Checksum)
    ensures EncodeAll(crc, []) == []
  {
  }

  /** `w'` has the record in a new segment if it does not fit behind the bytes of
      the last file, and behind them otherwise. */
  ghost predicate Appended(crc: Checksum, w: WalState, w': WalState, e: Entry)
    requires Open(w) && Open(w')
  {
    var last := w.files[Active(w).name];
    var full := |last| + 20 + |e.data| > w.limit;
    && |w'.segments| == |w.segments| + (if full then 1 else 0)
    && w'.files[Active(w').name] == (if full then [] else last) + Encoding(crc, e)
  }

  lemma AppendedExactly(crc: Checksum, w: WalState, parts: seq<seq<Entry>>, e: Entry)
    requires Holds(crc, w, parts) && Writable(e) && |parts| + 1 < TEN_16
    ensures Open(w) && AppendEntry(crc, w, e).Some? && Open(AppendEntry(crc, w, e).value)
    ensures Appended(crc, w, AppendEntry(crc, w, e).value, e)
  {
    hide Holds, EncodeAll, Encoding, AppendEntry, SegmentName;
    HoldsMeans(crc, w, parts);
    SegmentCount(crc, w, parts);
    ActiveSegment(crc, w, parts);
    AppendHolds(crc, w, parts, e);
    var room, w' := Roomed(crc, parts, w.limit, |Encoding(crc, e)|), AppendEntry(crc, w, e).value;
    SegmentCount(crc, w', Extended(room, e));
    ActiveSegment(crc, w', Extended(room, e));
    EncodeOne(crc, room[|room| - 1], e);
    NoRecords(crc);
  }

  /** An append after any run starts a new segment if and only if the record does
      not fit behind the bytes of the last file; it goes behind them otherwise. */
  lemma RotatesExactly(crc: Checksum, limit: int, run: seq<Event>, e: Entry, w: WalState)
    requires Possible(run) && Writable(e) && IdsWithin(crc, limit, run + [Write(e)]) && RunLog(crc, limit, run) == Some(w)
    ensures var r := RunLog(crc, limit, run + [Write(e)]);
      Open(w) && r.Some? && Open(r.value) && Appended(crc, w, r.value, e)
  {
    hide RunLog, Holds, NoneOversized, PartsFit, SizesOk, Joined, EncodeAll, Encoding, AppendEntry, Promised, Appended, Open;
    var one := run + [Write(e)];
    assert one[..|one| - 1] == run;
    IdsWithinBefore(crc, limit, one, |run|);
    var parts := RunHolds(crc, limit, run);
    SegmentCount(crc, w, parts);
    AppendedExactly(crc, w, parts, e);
    RunStep(crc, limit, one);
  }

  // ---------- Opening twice ----------

  lemma {:induction false} SameContents(crc: Checksum, files: Files, files': Files, names: seq<string>)
    requires Readable(crc, files, names)
    requires forall i :: 0 <= i < |names| ==> names[i] in files' && files'[names[i]] == files[names[i]]
    ensures Readable(crc, files', names)
    ensures ClosedSegments(crc, files', names) == ClosedSegments(crc, files, names)
    ensures EntriesIn(crc, files', names) == EntriesIn(crc, files, names)
  {
    hide Replay, SegmentId;
    if names != [] {
      SameContents(crc, files, files', names[..|names| - 1]);
    }
  }

  /** What replay kept of a file replays to the same. */
  lemma KeptReplays(crc: Checksum, bs: seq<Byte>)
    requires !Replay(crc, bs).failed
    ensures var r := Replay(crc, bs); r.valid <= |bs| && Replay(crc, bs[..r.valid]) == r
  {
    hide Replay, Encoding;
    assert Writable(Entry(0, []));
    var e :| Writable(e);
    RecoveryIdempotent(crc, bs, e);
  }

  lemma FirstListed(files: Files)
    requires ListFiles(files.Keys) == []
    ensures ListFiles(files[SegmentName(1) := []].Keys) == [SegmentName(1)]
  {
    hide Numeral;
    var name := SegmentName(1);
    var keys := files[name := []].Keys;
    FilesListed(files.Keys);
    FilesListed(keys);
    assert keys == files.Keys + {name} && IsSegment(name);
    forall n ensures n in [name] <==> n in keys && IsSegment(n) {
      assert n in files.Keys && IsSegment(n) ==> n in ListFiles(files.Keys);
    }
    ListingUnique([name], ListFiles(keys), keys);
  }

  lemma RecoveredLast(crc: Checksum, files: Files, names: seq<string>, limit: int)
    requires names != [] && Readable(crc, files, names)
    ensures var n := |names| - 1; var last := names[n]; var valid := Replay(crc, files[last]).valid;
      && valid <= |files[last]| && Readable(crc, files, names[..n])
      && Recover(crc, files, names, limit) ==
         Some(WalState(files[last := files[last][..valid]],
                       ClosedSegments(crc, files, names[..n]) + [Segment(SegmentId(last).value, last, valid, true)],
                       MaxIndex(EntriesIn(crc, files, names)), limit))
  {
    hide Replay, SegmentId;
    ReplayCanonical(crc, files[names[|names| - 1]]);
  }

  lemma FirstReopens(crc: Checksum, files: Files, limit: int)
    requires ListFiles(files.Keys) == []
    ensures var w := WalState(files[SegmentName(1) := []], [Segment(1, SegmentName(1), 0, true)], 0, limit);
      Reopen(crc, w.files, limit) == Some(w)
  {
    hide SegmentName, SegmentId, Recover, ListFiles;
    var name := SegmentName(1);
    var files' := files[name := []];
    NameRoundTrip(1);
    EmptyTail(crc);
    FirstListed(files);
    assert Readable(crc, files', [name]);
    RecoveredLast(crc, files', [name], limit);
    var none: seq<string> := [];
    assert [name][..0] == none;
    assert Replay(crc, []) == Replayed([], 0, false);
    assert EntriesIn(crc, files', [name]) == EntriesIn(crc, files', none) + [] == [];
    assert ClosedSegments(crc, files', [name][..0]) + [Segment(1, name, 0, true)] == [Segment(1, name, 0, true)];
    assert files'[name := files'[name][..0]] == files';
  }

  /** Cutting the last file to what replay kept leaves everything readable. */
  lemma CutContents(crc: Checksum, files: Files, names: seq<string>, kept: seq<Byte>)
    requires Listing(names, files.Keys) && names != [] && Readable(crc, files, names)
    requires Replay(crc, kept) == Replay(crc, files[names[|names| - 1]])
    ensures var n := |names| - 1; var files' := files[names[n] := kept];
      && files'.Keys == files.Keys && Readable(crc, files', names)
      && Readable(crc, files, names[..n]) && Readable(crc, files', names[..n])
      && ClosedSegments(crc, files', names[..n]) == ClosedSegments(crc, files, names[..n])
      && EntriesIn(crc, files', names) == EntriesIn(crc, files, names)
  {
    hide Replay, SegmentId, ClosedSegments;
    var n := |names| - 1;
    var last := names[n];
    var files' := files[last := kept];
    forall i | 0 <= i < n ensures names[..n][i] in files' && files'[names[..n][i]] == files[names[..n][i]] {
      assert Less(names[i], last);
      LessTotal(names[i], last);
    }
    assert Readable(crc, files, names[..n]);
    SameContents(crc, files, files', names[..n]);
    forall i | 0 <= i < |names|
      ensures names[i] in files' && SegmentId(names[i]).Some? && !Replay(crc, files'[names[i]]).failed
    {
      assert i < n ==> names[i] == names[..n][i];
    }
  }

  lemma InFiles(crc: Checksum, files: Files, names: seq<string>, i: nat)
    requires Readable(crc, files, names) && i < |names|
    ensures names[i] in files && !Replay(crc, files[names[i]]).failed
  {
  }

  lemma LastCutReopens(crc: Checksum, files: Files, names: seq<string>, kept: seq<Byte>, limit: int)
    requires Listing(names, files.Keys) && names != [] && Readable(crc, files, names)
    requires var last := names[|names| - 1];
      && Replay(crc, files[last]).valid <= |files[last]| && kept == files[last][..Replay(crc, files[last]).valid]
      && Replay(crc, kept) == Replay(crc, files[last])
    ensures var r := Recover(crc, files, names, limit);
      && r.Some? && r.value.files.Keys == files.Keys
      && Recover(crc, r.value.files, names, limit) == r
  {
    hide Replay, SegmentId, Recover, ClosedSegments, EntriesIn, Readable, Listing;
    var last := names[|names| - 1];
    assert last in files by { InFiles(crc, files, names, |names| - 1); }
    CutContents(crc, files, names, kept);
    RecoveredLast(crc, files, names, limit);
    RecoveredLast(crc, files[last := kept], names, limit);
    assert kept[..|kept|] == kept;
    Overwritten(files, last, kept, kept);
  }

  /** Recovery is idempotent on whole directories: a log that opened opens again
      to the same state and changes nothing. */
  lemma ReopenIdempotent(crc: Checksum, files: Files, limit: int)
    requires Reopen(crc, files, limit).Some?
    ensures var w := Reopen(crc, files, limit).value;
      Reopen(crc, w.files, limit) == Some(w)
  {
    hide SegmentName, SegmentId, Replay, ListFiles, ClosedSegments, EntriesIn;
    var names := ListFiles(files.Keys);
    if names == [] {
      FirstReopens(crc, files, limit);
    } else {
      var last := names[|names| - 1];
      InFiles(crc, files, names, |names| - 1);
      KeptReplays(crc, files[last]);
      FilesListed(files.Keys);
      LastCutReopens(crc, files, names, files[last][..Replay(crc, files[last]).valid], limit);
    }
  }

  // ---------- Opening any directory ----------

  /** A directory cannot be opened if and only if the name of a segment file is
      no number or its contents report an error. */
  lemma RecoveryFailsIff(crc: Checksum, files: Files, limit: int)
    ensures Reopen(crc, files, limit) == None <==>
      exists name :: name in files && IsSegment(name) && (SegmentId(name) == None || Replay(crc, files[name]).failed)
  {
    hide SegmentName, SegmentId, Replay, ListFiles, IsSegment;
    var names := ListFiles(files.Keys);
    FilesListed(files.Keys);
    if Readable(crc, files, names) {
      forall name | name in files && IsSegment(name) ensures SegmentId(name) != None && !Replay(crc, files[name]).failed {
        assert name in names;
        var i :| 0 <= i < |names| && names[i] == name;
      }
    } else {
      var i :| 0 <= i < |names| && !(names[i] in files && SegmentId(names[i]).Some? && !Replay(crc, files[names[i]]).failed);
      assert names[i] in names;
    }
  }

  lemma {:induction false} ClosedSegmentsAre(crc: Checksum, files: Files, names: seq<string>)
    requires Readable(crc, files, names)
    ensures var closed := ClosedSegments(crc, files, names);
      && |closed| == |names|
      && forall i :: 0 <= i < |names| ==>
           closed[i] == Segment(SegmentId(names[i]).value, names[i], |files[names[i]]|, false)
  {
    hide SegmentId, Replay;
    if names != [] {
      ClosedSegmentsAre(crc, files, names[..|names| - 1]);
    }
  }

  lemma RecoveredFiles(crc: Checksum, files: Files, names: seq<string>, limit: int)
    requires Listing(names, files.Keys) && names != [] && Readable(crc, files, names)
    ensures var r, n := Recover(crc, files, names, limit), |names| - 1;
      && r.Some? && r.value.limit == limit && names[n] in files && r.value.files.Keys == files.Keys
      && |r.value.segments| == |names|
      && r.value.files == files[names[n] := EncodeAll(crc, Replay(crc, files[names[n]]).entries)]
      && r.value.lastIndex == MaxIndex(EntriesIn(crc, files, names))
      && (forall i :: 0 <= i <= n ==>
            && names[i] in r.value.files && SegmentId(names[i]).Some?
            && r.value.segments[i] == Segment(SegmentId(names[i]).value, names[i], |r.value.files[names[i]]|, i == n))
  {
    hide SegmentId, Replay, EncodeAll, EntriesIn, Recover, ClosedSegments;
    var n, last := |names| - 1, names[|names| - 1];
    ReplayCanonical(crc, files[last]);
    RecoveredLast(crc, files, names, limit);
    ClosedSegmentsAre(crc, files, names[..n]);
    forall i | 0 <= i < n ensures names[i] != last {
      assert Less(names[i], last);
      LessTotal(names[i], last);
    }
  }

  lemma RecoveredReads(crc: Checksum, files: Files, names: seq<string>, w: WalState)
    requires Listing(names, files.Keys) && names != [] && Readable(crc, files, names)
    requires |w.segments| == |names| && forall i :: 0 <= i < |names| ==> w.segments[i].name == names[i]
    requires w.files == files[names[|names| - 1] := EncodeAll(crc, Replay(crc, files[names[|names| - 1]]).entries)]
    ensures ReadAll(crc, w) == Some(EntriesIn(crc, files, names))
  {
    hide SegmentId, Replay, EncodeAll, EntriesIn, ClosedSegments;
    var last := names[|names| - 1];
    KeptReplays(crc, files[last]);
    ReplayCanonical(crc, files[last]);
    CutContents(crc, files, names, EncodeAll(crc, Replay(crc, files[last]).entries));
    assert SegmentNames(w.segments) == names;
  }

  /** Opening any directory that has segments and can be opened: the segments are
      its segment files in string order with the ids their names give and the
      sizes their files have, the last one open; only that file may change, to
      the records that replay found in it; the entries read back are those that
      replay found in all files, and the last index is their greatest. */
  lemma RecoveryExact(crc: Checksum, files: Files, limit: int)
    requires Reopen(crc, files, limit).Some? && ListFiles(files.Keys) != []
    ensures var w, names := Reopen(crc, files, limit).value, ListFiles(files.Keys);
      var n := |names| - 1;
      && w.limit == limit && |w.segments| == |names| && w.files.Keys == files.Keys
      && (forall i :: 0 <= i <= n ==>
            && names[i] in w.files && SegmentId(names[i]).Some?
            && w.segments[i] == Segment(SegmentId(names[i]).value, names[i], |w.files[names[i]]|, i == n))
      && (forall name :: name in files && name != names[n] ==> w.files[name] == files[name])
      && w.files[names[n]] == EncodeAll(crc, Replay(crc, files[names[n]]).entries)
      && w.lastIndex == MaxIndex(EntriesIn(crc, files, names))
      && ReadAll(crc, w) == Some(EntriesIn(crc, files, names))
  {
    hide SegmentName, SegmentId, Replay, ListFiles, EncodeAll, EntriesIn, ReadAll, Listing;
    var names := ListFiles(files.Keys);
    FilesListed(files.Keys);
    RecoveredFiles(crc, files, names, limit);
    RecoveredReads(crc, files, names, Reopen(crc, files, limit).value);
  }
}
