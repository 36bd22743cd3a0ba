/** The write-ahead log: rolling segments, appends, and recovery by replay and
    truncation, as functions on the files and as an object that performs them. */
module Wal {
  import opened Bytes
  import opened Options
  import opened WalCodec
  import opened WalNames
  import opened WalReplay

  /** `open` is set for the active segment only. */
  datatype Segment = Segment(id: nat, name: string, size: nat, open: bool)

  type Files = map<string, seq<Byte>>

  datatype WalState = WalState(files: Files, segments: seq<Segment>, lastIndex: nat, limit: int)

  function MaxIndex(es: seq<Entry>): nat {
    if es == [] then 0
    else
      var rest := MaxIndex(es[..|es| - 1]);
      if es[|es| - 1].index > rest then es[|es| - 1].index else rest
  }

  lemma {:induction false} MaxIndexIs(es: seq<Entry>)
    ensures forall i :: 0 <= i < |es| ==> es[i].index <= MaxIndex(es)
    ensures if es == [] then MaxIndex(es) == 0 else exists i :: 0 <= i < |es| && es[i].index == MaxIndex(es)
  {
    if es != [] {
      var last := |es| - 1;
      MaxIndexIs(es[..last]);
      forall i | 0 <= i < |es| ensures es[i].index <= MaxIndex(es) {
        assert i < last ==> es[i] == es[..last][i];
      }
      if es[last].index <= MaxIndex(es[..last]) && last > 0 {
        var i :| 0 <= i < last && es[..last][i].index == MaxIndex(es[..last]);
        assert es[i].index == MaxIndex(es);
      } else {
        assert es[last].index == MaxIndex(es);
      }
    }
  }

  lemma {:induction false} MaxIndexAppend(a: seq<Entry>, b: seq<Entry>)
    ensures MaxIndex(a + b) == if MaxIndex(a) > MaxIndex(b) then MaxIndex(a) else MaxIndex(b)
  {
    if b == [] {
      assert a + b == a;
    } else {
      MaxIndexAppend(a, b[..|b| - 1]);
      assert (a + b)[..|a + b| - 1] == a + b[..|b| - 1];
    }
  }

  // ---------- Appending ----------

  predicate Open(w: WalState) {
    w.segments != [] && w.segments[|w.segments| - 1].name in w.files
  }

  function Active(w: WalState): Segment
    requires Open(w)
  {
    w.segments[|w.segments| - 1]
  }

  /** The log with its active segment closed, which a rotation does first. */
  function Retired(w: WalState): WalState
    requires Open(w)
  {
    w.(segments := w.segments[..|w.segments| - 1] + [Active(w).(open := false)])
  }

  /** Closes the active segment and creates the next; fails if its file exists. */
  function Rotate(w: WalState): Option<WalState>
    requires Open(w)
  {
    var id := Active(w).id + 1;
    var name := SegmentName(id);
    if name in w.files then None
    else
      var last := |w.segments| - 1;
      Some(w.(files := w.files[name := []],
              segments := w.segments[..last] + [Active(w).(open := false)] + [Segment(id, name, 0, true)]))
  }

  /** The log with room for `n` more bytes in its active segment, or a new one;
      nothing if it cannot be written, because the next file exists already or
      because the active segment was closed by a rotation that failed. */
  function MakeRoom(w: WalState, n: nat): (r: Option<WalState>)
    requires Open(w)
    ensures r.Some? ==> Open(r.value)
  {
    if Active(w).size + n > w.limit then Rotate(w) else if Active(w).open then Some(w) else None
  }

  function WriteActive(w: WalState, bs: seq<Byte>): WalState
    requires Open(w)
  {
    var a, last := Active(w), |w.segments| - 1;
    w.(files := w.files[a.name := w.files[a.name] + bs],
       segments := w.segments[..last] + [a.(size := a.size + |bs|)])
  }

  function AppendEntry(crc: Checksum, w: WalState, e: Entry): Option<WalState>
    requires Open(w)
  {
    var bs := Encoding(crc, e);
    match MakeRoom(w, |bs|)
    case None => None
    case Some(w1) =>
      var w2 := WriteActive(w1, bs);
      Some(if e.index > w2.lastIndex then w2.(lastIndex := e.index) else w2)
  }

  /** What an append that reports an error leaves behind. */
  function Refused(crc: Checksum, w: WalState, e: Entry): WalState
    requires Open(w)
  {
    if Active(w).size + |Encoding(crc, e)| > w.limit then Retired(w) else w
  }

  /** An append is refused if and only if it needs a new segment whose file
      exists already, or needs none and a failed rotation closed the active one.
      It then leaves files and last index alone, and in the first case closes the
      active segment. */
  lemma RefusedIff(crc: Checksum, w: WalState, e: Entry)
    requires Open(w)
    ensures var last := |w.segments| - 1;
      var a, full := w.segments[last], w.segments[last].size + 20 + |e.data| > w.limit;
      && (AppendEntry(crc, w, e) == None <==> if full then SegmentName(a.id + 1) in w.files else !a.open)
      && Refused(crc, w, e) == w.(segments := if full then w.segments[last := a.(open := false)] else w.segments)
  {
    hide Encoding, SegmentName;
    var last := |w.segments| - 1;
    assert w.segments[..last] + [w.segments[last].(open := false)] == w.segments[last := w.segments[last].(open := false)];
  }

  // ---------- Reading and recovering ----------

  /** Every name parses and its file replays without an error. */
  ghost predicate Readable(crc: Checksum, files: Files, names: seq<string>) {
    forall i {:trigger names[i]} :: 0 <= i < |names| ==>
      && names[i] in files && SegmentId(names[i]).Some?
      && !Replay(crc, files[names[i]]).failed
  }

  function EntriesIn(crc: Checksum, files: Files, names: seq<string>): seq<Entry>
    requires forall i :: 0 <= i < |names| ==> names[i] in files
  {
    if names == [] then []
    else EntriesIn(crc, files, names[..|names| - 1]) + Replay(crc, files[names[|names| - 1]]).entries
  }

  /** Segments before the active one, with the size their file has. */
  ghost function ClosedSegments(crc: Checksum, files: Files, names: seq<string>): seq<Segment>
    requires Readable(crc, files, names)
  {
    if names == [] then []
    else
      var name := names[|names| - 1];
      assert SegmentId(name).Some? && name in files;
      ClosedSegments(crc, files, names[..|names| - 1]) + [Segment(SegmentId(name).value, name, |files[name]|, false)]
  }

  /** Opening a directory whose segments, in string order, are `names`. */
  ghost function Recover(crc: Checksum, files: Files, names: seq<string>, limit: int): Option<WalState> {
    if !Readable(crc, files, names) then None
    else if names == [] then
      Some(WalState(files[SegmentName(1) := []], [Segment(1, SegmentName(1), 0, true)], 0, limit))
    else
      var last := names[|names| - 1];
      assert last in files && SegmentId(last).Some?;
      ReplayCanonical(crc, files[last]);
      var valid := Replay(crc, files[last]).valid;
      Some(WalState(files[last := files[last][..valid]],
                    ClosedSegments(crc, files, names[..|names| - 1]) + [Segment(SegmentId(last).value, last, valid, true)],
                    MaxIndex(EntriesIn(crc, files, names)), limit))
  }

  function SegmentNames(segments: seq<Segment>): (names: seq<string>)
    ensures |names| == |segments| && forall i :: 0 <= i < |names| ==> names[i] == segments[i].name
  {
    if segments == [] then [] else SegmentNames(segments[..|segments| - 1]) + [segments[|segments| - 1].name]
  }

  /** All entries of all segments in order; nothing if a file is missing or
      reports an error. */
  ghost function ReadAll(crc: Checksum, w: WalState): Option<seq<Entry>> {
    var names := SegmentNames(w.segments);
    if forall i :: 0 <= i < |names| ==> names[i] in w.files && !Replay(crc, w.files[names[i]]).failed
    then Some(EntriesIn(crc, w.files, names))
    else None
  }

  /** The segment files of a directory in string order. */
  ghost function ListFiles(files: set<string>): seq<string>
    decreases |files|
  {
    if files == {} then []
    else
      var name :| name in files;
      var rest := ListFiles(files - {name});
      if IsSegment(name) then InsertName(rest, name) else rest
  }

  lemma {:induction false} FilesListed(files: set<string>)
    ensures Listing(ListFiles(files), files)
    decreases |files|
  {
    if files != {} {
      var name :| name in files && ListFiles(files) ==
        (if IsSegment(name) then InsertName(ListFiles(files - {name}), name) else ListFiles(files - {name}));
      FilesListed(files - {name});
      assert files == (files - {name}) + {name};
      if IsSegment(name) {
        InsertListed(ListFiles(files - {name}), files - {name}, name);
      }
    }
  }

  lemma OneMoreFile(crc: Checksum, files: Files, names: seq<string>, i: nat)
    requires i < |names| && forall j :: 0 <= j <= i ==> names[j] in files
    ensures EntriesIn(crc, files, names[..i + 1]) == EntriesIn(crc, files, names[..i]) + Replay(crc, files[names[i]]).entries
  {
    var some := names[..i + 1];
    assert some[..|some| - 1] == names[..i];
  }

  /** What reading one more segment adds. */
  lemma OneMoreSegment(crc: Checksum, files: Files, names: seq<string>, i: nat)
    requires i < |names| && Readable(crc, files, names[..i])
    requires names[i] in files && SegmentId(names[i]).Some? && !Replay(crc, files[names[i]]).failed
    ensures Readable(crc, files, names[..i + 1])
    ensures var r := Replay(crc, files[names[i]]);
      && ClosedSegments(crc, files, names[..i + 1]) ==
         ClosedSegments(crc, files, names[..i]) + [Segment(SegmentId(names[i]).value, names[i], |files[names[i]]|, false)]
      && EntriesIn(crc, files, names[..i + 1]) == EntriesIn(crc, files, names[..i]) + r.entries
      && MaxIndex(EntriesIn(crc, files, names[..i + 1])) ==
         (var m := MaxIndex(EntriesIn(crc, files, names[..i])); if MaxIndex(r.entries) > m then MaxIndex(r.entries) else m)
  {
    hide Replay, SegmentId, MaxIndex;
    var some := names[..i + 1];
    assert some[..|some| - 1] == names[..i];
    forall j | 0 <= j < |some|
      ensures some[j] in files && SegmentId(some[j]).Some? && !Replay(crc, files[some[j]]).failed
    {
      if j < i {
        assert some[j] == names[..i][j];
      }
    }
    MaxIndexAppend(EntriesIn(crc, files, names[..i]), Replay(crc, files[names[i]]).entries);
  }

  // ---------- The object ----------

  /** A directory of files that outlives the process. */
  class Directory {
    var files: Files
  }

  class Log {
    const crc: Checksum
    const dir: Directory
    const limit: int
    var segments: seq<Segment>
    var lastIndex: nat

    ghost function State(): WalState
      reads this, dir
    {
      WalState(dir.files, segments, lastIndex, limit)
    }

    constructor (crc: Checksum, dir: Directory, limit: int)
      ensures this.crc == crc && this.dir == dir && this.limit == limit && segments == [] && lastIndex == 0
    {
      this.crc, this.dir, this.limit := crc, dir, limit;
      segments, lastIndex := [], 0;
    }

    method ListSegments() returns (names: seq<string>)
      ensures names == ListFiles(dir.files.Keys)
    {
      names := [];
      var left := dir.files.Keys;
      while left != {}
        invariant left <= dir.files.Keys && Listing(names, dir.files.Keys - left)
        decreases left
      {
        var name :| name in left;
        assert dir.files.Keys - (left - {name}) == (dir.files.Keys - left) + {name};
        if IsSegment(name) {
          InsertListed(names, dir.files.Keys - left, name);
          names := InsertName(names, name);
        }
        left := left - {name};
      }
      assert dir.files.Keys - left == dir.files.Keys;
      FilesListed(dir.files.Keys);
      ListingUnique(names, ListFiles(dir.files.Keys), dir.files.Keys);
    }

    /** The id and the replayed contents of one segment file, unless either is bad. */
    method ReadSegment(name: string) returns (r: Option<(nat, Replayed)>)
      requires name in dir.files
      ensures r.Some? <==> SegmentId(name).Some? && !Replay(crc, dir.files[name]).failed
      ensures r.Some? ==> r.value == (SegmentId(name).value, Replay(crc, dir.files[name]))
    {
      var id := SegmentId(name);
      if id.None? { return None; }
      var part := ReplayFile(crc, dir.files[name]);
      if part.failed { return None; }
      return Some((id.value, part));
    }

    /** Truncates the last segment to its valid part and makes it the active one. */
    method OpenForWrite(name: string, id: nat, valid: nat)
      requires name in dir.files && valid <= |dir.files[name]|
      modifies this, dir
      ensures dir.files == old(dir.files)[name := old(dir.files)[name][..valid]]
      ensures segments == old(segments) + [Segment(id, name, valid, true)] && lastIndex == old(lastIndex)
    {
      dir.files := dir.files[name := dir.files[name][..valid]];
      segments := segments + [Segment(id, name, valid, true)];
    }

    method HighestIndex(es: seq<Entry>, start: nat) returns (top: nat)
      ensures top == if MaxIndex(es) > start then MaxIndex(es) else start
    {
      top := start;
      for i := 0 to |es|
        invariant top == if MaxIndex(es[..i]) > start then MaxIndex(es[..i]) else start
      {
        assert es[..i + 1][..i] == es[..i];
        if es[i].index > top {
          top := es[i].index;
        }
      }
      assert es[..|es|] == es;
    }

    /** Replays every segment in order and truncates the last to its valid part. */
    method RecoverFiles() returns (ok: bool)
      requires segments == [] && lastIndex == 0
      modifies this, dir
      ensures var r := Recover(crc, old(dir.files), ListFiles(old(dir.files.Keys)), limit);
        ok == r.Some? && (ok ==> State() == r.value) && (!ok ==> dir.files == old(dir.files))
    {
      ghost var files := dir.files;
      var names := ListSegments();
      var i := 0;
      while i < |names|
        invariant 0 <= i <= |names| && (i < |names| || names == [])
        invariant dir.files == files && Readable(crc, files, names[..i])
        invariant segments == ClosedSegments(crc, files, names[..i])
        invariant lastIndex == MaxIndex(EntriesIn(crc, files, names[..i]))
      {
        var name := names[i];
        assert name in dir.files by {
          FilesListed(dir.files.Keys);
          assert name in names;
        }
        var r := ReadSegment(name);
        if r.None? { return false; }
        OneMoreSegment(crc, files, names, i);
        var (id, part) := r.value;
        lastIndex := HighestIndex(part.entries, lastIndex);
        if i == |names| - 1 {
          assert names[..i + 1] == names;
          ReplayCanonical(crc, dir.files[name]);
          OpenForWrite(name, id, part.valid);
          return true;
        }
        segments := segments + [Segment(id, name, |dir.files[name]|, false)];
        i := i + 1;
      }
      segments := [Segment(1, SegmentName(1), 0, true)];
      dir.files := dir.files[SegmentName(1) := []];
      return true;
    }

    method RotateSegment() returns (ok: bool)
      requires Open(State())
      modifies this, dir
      ensures ok == Rotate(old(State())).Some?
      ensures State() == if ok then Rotate(old(State())).value else Retired(old(State()))
    {
      var last := |segments| - 1;
      var id := segments[last].id + 1;
      var name := SegmentName(id);
      segments := segments[..last] + [segments[last].(open := false)];
      if name in dir.files { return false; }
      segments := segments + [Segment(id, name, 0, true)];
      dir.files := dir.files[name := []];
      return true;
    }

    /** Writes behind the active segment's contents. */
    method WriteBytes(bs: seq<Byte>)
      requires Open(State())
      modifies this`segments, dir
      ensures State() == WriteActive(old(State()), bs)
    {
      var last := |segments| - 1;
      var a := segments[last];
      segments := segments[..last] + [a.(size := a.size + |bs|)];
      dir.files := dir.files[a.name := dir.files[a.name] + bs];
    }

    /** Encodes, rotates if the record does not fit, writes and syncs. */
    method Append(e: Entry) returns (ok: bool)
      requires Open(State())
      modifies this, dir
      ensures ok == AppendEntry(crc, old(State()), e).Some?
      ensures State() == if ok then AppendEntry(crc, old(State()), e).value else Refused(crc, old(State()), e)
    {
      hide Encoding, SegmentName, WriteActive;
      var w := new Writer();
      Encode(crc, e, w);
      var bs := w.out;
      assert bs == Encoding(crc, e);
      if segments[|segments| - 1].size + |bs| > limit {
        var rotated := RotateSegment();
        if !rotated { return false; }
      }
      if !segments[|segments| - 1].open { return false; }
      WriteBytes(bs);
      if e.index > lastIndex {
        lastIndex := e.index;
      }
      return true;
    }

    /** Reads every segment again from its file. */
    method ReadEntries() returns (r: Option<seq<Entry>>)
      ensures r == ReadAll(crc, State())
    {
      hide Replay;
      var all := [];
      ghost var files, names := dir.files, SegmentNames(segments);
      for i := 0 to |segments|
        invariant forall j :: 0 <= j < i ==> names[j] in files && !Replay(crc, files[names[j]]).failed
        invariant all == EntriesIn(crc, files, names[..i])
      {
        assert names[i] == segments[i].name;
        if segments[i].name !in dir.files { return None; }
        var part := ReplayFile(crc, dir.files[segments[i].name]);
        if part.failed { return None; }
        OneMoreFile(crc, files, names, i);
        all := all + part.entries;
      }
      assert names[..|names|] == names;
      return Some(all);
    }
  }
}
