/** Replaying the bytes of one segment, and the step-by-step writing and reading
    of records behind it. */
module WalReplay {
  import opened Bytes
  import opened WalCodec

  /** The entries read, the offset after the last of them, and whether reading
      stopped at something that is an error rather than an end. */
  datatype Replayed = Replayed(entries: seq<Entry>, valid: nat, failed: bool)

  function Replay(crc: Checksum, bs: seq<Byte>): Replayed
    decreases |bs|
  {
    match Decode(crc, bs)
    case Decoded(e, n) =>
      var more := Replay(crc, bs[n..]);
      Replayed([e] + more.entries, n + more.valid, more.failed)
    case TooLarge => Replayed([], 0, true)
    case TooSmall => Replayed([], 0, true)
    case _ => Replayed([], 0, false)
  }

  // ---------- Replay is canonical ----------

  lemma KeptPrefix(crc: Checksum, bs: seq<Byte>, e: Entry, n: nat, more: Replayed)
    requires n <= |bs| && more.valid <= |bs| - n
    requires bs[..n] == Encoding(crc, e) && bs[n..][..more.valid] == EncodeAll(crc, more.entries)
    ensures bs[..n + more.valid] == EncodeAll(crc, [e] + more.entries)
  {
    assert bs[..n + more.valid] == bs[..n] + bs[n..][..more.valid];
    assert ([e] + more.entries)[1..] == more.entries;
  }

  /** Whatever the bytes, the part that replay keeps is the encoding of what it
      returns. */
  lemma {:induction false} ReplayCanonical(crc: Checksum, bs: seq<Byte>)
    ensures var r := Replay(crc, bs);
      && AllFit(r.entries)
      && r.valid <= |bs| && bs[..r.valid] == EncodeAll(crc, r.entries)
    decreases |bs|
  {
    match Decode(crc, bs) {
      case Decoded(e, n) =>
        DecodeIsInverse(crc, bs);
        ReplayCanonical(crc, bs[n..]);
        KeptPrefix(crc, bs, e, n, Replay(crc, bs[n..]));
      case _ =>
    }
  }

  lemma ReplayFirst(crc: Checksum, e: Entry, rest: seq<Byte>)
    requires Fits(e)
    ensures var more := Replay(crc, rest);
      Replay(crc, Encoding(crc, e) + rest) ==
      Replayed([e] + more.entries, |Encoding(crc, e)| + more.valid, more.failed)
  {
    RoundTrip(crc, e, rest);
    assert (Encoding(crc, e) + rest)[|Encoding(crc, e)|..] == rest;
  }

  lemma Associative(a: seq<Byte>, b: seq<Byte>, c: seq<Byte>)
    ensures a + b + c == a + (b + c)
  {
  }

  /** Records followed by a tail that starts with no good record replay to
      exactly those records; it is an error if the tail's length field is bad. */
  lemma {:induction false} ReplayRecords(crc: Checksum, es: seq<Entry>, tail: seq<Byte>)
    requires AllFit(es) && !Decode(crc, tail).Decoded?
    ensures Replay(crc, EncodeAll(crc, es) + tail) ==
            Replayed(es, |EncodeAll(crc, es)|, Decode(crc, tail).TooLarge? || Decode(crc, tail).TooSmall?)
  {
    hide Decode, Encoding;
    if es == [] {
      assert EncodeAll(crc, es) + tail == tail;
    } else {
      Associative(Encoding(crc, es[0]), EncodeAll(crc, es[1..]), tail);
      ReplayFirst(crc, es[0], EncodeAll(crc, es[1..]) + tail);
      ReplayRecords(crc, es[1..], tail);
      assert [es[0]] + es[1..] == es;
    }
  }

  /** One record over the limit makes everything behind it unreadable. */
  lemma {:induction false} ReplayOversized(crc: Checksum, es: seq<Entry>, tail: seq<Byte>)
    requires AllWritable(es) && !AllFit(es)
    ensures Replay(crc, EncodeAll(crc, es) + tail).failed
  {
    hide Decode, Encoding;
    Associative(Encoding(crc, es[0]), EncodeAll(crc, es[1..]), tail);
    if Fits(es[0]) {
      ReplayFirst(crc, es[0], EncodeAll(crc, es[1..]) + tail);
      ReplayOversized(crc, es[1..], tail);
    } else {
      RoundTrip(crc, es[0], EncodeAll(crc, es[1..]) + tail);
    }
  }

  lemma EmptyTail(crc: Checksum)
    ensures Decode(crc, []) == EndOfFile
  {
  }

  /** A crash in the middle of a write: the bytes that reached the file are a
      prefix of the record. The record counts if and only if all of it did, and
      it does no harm if and only if it is within the limit or its header is
      incomplete. */
  lemma ReplayAfterCrash(crc: Checksum, es: seq<Entry>, e: Entry, j: nat)
    requires AllFit(es) && Writable(e) && j <= |Encoding(crc, e)|
    ensures Replay(crc, EncodeAll(crc, es) + Encoding(crc, e)[..j]) ==
            if !Fits(e) && j >= HEADER_SIZE then Replayed(es, |EncodeAll(crc, es)|, true)
            else if j == |Encoding(crc, e)| then Replayed(es + [e], |EncodeAll(crc, es)| + j, false)
            else Replayed(es, |EncodeAll(crc, es)|, false)
  {
    hide Decode, Encoding, Replay;
    var enc := Encoding(crc, e);
    if j < |enc| {
      CutRecord(crc, e, j);
      ReplayRecords(crc, es, enc[..j]);
    } else {
      assert enc[..j] == enc == enc + [];
      RoundTrip(crc, e, []);
      if Fits(e) {
        EncodeOne(crc, es, e);
        EmptyTail(crc);
        ReplayRecords(crc, es + [e], []);
        assert EncodeAll(crc, es + [e]) + [] == EncodeAll(crc, es) + enc[..j];
      } else {
        ReplayRecords(crc, es, enc);
      }
    }
  }

  /** Recovery is idempotent: replaying what it kept changes nothing, and the
      next record written after it adds exactly that entry if it is within the
      limit, and makes replay fail if it is not. */
  lemma RecoveryIdempotent(crc: Checksum, bs: seq<Byte>, e: Entry)
    requires !Replay(crc, bs).failed && Writable(e)
    ensures var r := Replay(crc, bs);
      && r.valid <= |bs|
      && Replay(crc, bs[..r.valid]) == r
      && Replay(crc, bs[..r.valid] + Encoding(crc, e)) ==
         if Fits(e) then Replayed(r.entries + [e], r.valid + |Encoding(crc, e)|, false)
         else Replayed(r.entries, r.valid, true)
  {
    hide Replay, Encoding, EncodeAll;
    var r := Replay(crc, bs);
    ReplayCanonical(crc, bs);
    ReplayAfterCrash(crc, r.entries, e, 0);
    ReplayAfterCrash(crc, r.entries, e, |Encoding(crc, e)|);
    assert Encoding(crc, e)[..|Encoding(crc, e)|] == Encoding(crc, e);
    assert EncodeAll(crc, r.entries) + Encoding(crc, e)[..0] == bs[..r.valid];
  }

  // ---------- Writing and reading step by step ----------

  class Writer {
    var out: seq<Byte>

    constructor ()
      ensures out == []
    {
      out := [];
    }

    method Write(buffer: array<Byte>)
      modifies this
      ensures out == old(out) + buffer[..]
    {
      out := out + buffer[..];
    }
  }

  /** Fills `width` bytes of the buffer with a little-endian number. */
  method PutNumber(buffer: array<Byte>, at: nat, width: nat, n: nat)
    requires at + width <= buffer.Length
    modifies buffer
    ensures buffer[at..at + width] == LittleEndian(n, width)
    ensures buffer[..at] == old(buffer[..at]) && buffer[at + width..] == old(buffer[at + width..])
  {
    var left := n;
    ghost var before := buffer[..];
    for i := 0 to width
      invariant buffer[..at] == before[..at] && buffer[at + width..] == before[at + width..]
      invariant buffer[at..at + i] + LittleEndian(left, width - i) == LittleEndian(n, width)
    {
      buffer[at + i] := left % 256;
      assert buffer[at..at + i + 1] == buffer[at..at + i] + [left % 256];
      assert LittleEndian(left, width - i) == [left % 256] + LittleEndian(left / 256, width - i - 1);
      left := left / 256;
    }
  }

  method CopyInto(buffer: array<Byte>, at: nat, data: seq<Byte>)
    requires at + |data| == buffer.Length
    modifies buffer
    ensures buffer[..] == old(buffer[..at]) + data
  {
    ghost var before := buffer[..at];
    for i := 0 to |data|
      invariant buffer[..at] == before && buffer[at..at + i] == data[..i]
    {
      buffer[at + i] := data[i];
      assert buffer[at..at + i + 1] == buffer[at..at + i] + [data[i]];
    }
    assert buffer[..] == buffer[..at] + buffer[at..];
  }

  method BuildPayload(e: Entry) returns (payload: array<Byte>)
    ensures fresh(payload) && payload[..] == Payload(e)
  {
    payload := new Byte[INDEX_SIZE + |e.data|];
    PutNumber(payload, 0, INDEX_SIZE, e.index);
    assert payload[..INDEX_SIZE] == payload[0..0 + INDEX_SIZE];
    CopyInto(payload, INDEX_SIZE, e.data);
  }

  method BuildHeader(len: nat, sum: Word32) returns (header: array<Byte>)
    ensures fresh(header) && header[..] == LittleEndian(len, LEN_SIZE) + LittleEndian(sum, CRC_SIZE)
  {
    header := new Byte[HEADER_SIZE];
    PutNumber(header, 0, LEN_SIZE, len);
    assert header[..LEN_SIZE] == header[0..0 + LEN_SIZE] == LittleEndian(len, LEN_SIZE);
    PutNumber(header, LEN_SIZE, CRC_SIZE, sum);
    assert header[..] == header[..LEN_SIZE] + header[LEN_SIZE..LEN_SIZE + CRC_SIZE];
  }

  /** Writes one record to `w`. */
  method Encode(crc: Checksum, e: Entry, w: Writer)
    modifies w
    ensures w.out == old(w.out) + Encoding(crc, e)
  {
    var payload := BuildPayload(e);
    var sum := crc(payload[..]);
    var header := BuildHeader(payload.Length, sum);
    ghost var before, head, body := w.out, header[..], payload[..];
    assert head + body == Encoding(crc, e);
    w.Write(header);
    w.Write(payload);
    assert w.out == before + head + body;
    Associative(before, head, body);
  }

  datatype ReadResult = Full(bytes: seq<Byte>) | NothingLeft | CutShort

  class Reader {
    const data: seq<Byte>
    var pos: nat

    ghost predicate Valid()
      reads this
    {
      pos <= |data|
    }

    ghost function Rest(): seq<Byte>
      requires Valid()
      reads this
    {
      data[pos..]
    }

    constructor (data: seq<Byte>)
      ensures this.data == data && pos == 0 && Valid()
    {
      this.data, pos := data, 0;
    }

    /** Reads exactly `n` bytes, or says why not. */
    method ReadFull(n: nat) returns (r: ReadResult)
      requires Valid()
      modifies this
      ensures Valid()
      ensures |old(Rest())| >= n ==> r == Full(old(Rest())[..n]) && pos == old(pos) + n
      ensures |old(Rest())| < n ==> r == if old(Rest()) == [] then NothingLeft else CutShort
    {
      if |data| - pos >= n {
        r := Full(data[pos..pos + n]);
        pos := pos + n;
      } else if pos == |data| {
        r := NothingLeft;
      } else {
        r := CutShort;
        pos := |data|;
      }
    }
  }

  /** Reads one record from `r`. */
  method DecodeFrom(crc: Checksum, r: Reader) returns (result: DecodeResult)
    requires r.Valid()
    modifies r
    ensures r.Valid()
    ensures result == Decode(crc, old(r.Rest()))
    ensures result.Decoded? ==> r.pos == old(r.pos) + result.consumed
  {
    ghost var bs := r.Rest();
    var header := r.ReadFull(HEADER_SIZE);
    if header == NothingLeft { return EndOfFile; }
    if header == CutShort { return Truncated; }
    var len := FromLittleEndian(header.bytes[..LEN_SIZE]);
    var stored := FromLittleEndian(header.bytes[LEN_SIZE..]);
    assert header.bytes[..LEN_SIZE] == bs[..LEN_SIZE] && header.bytes[LEN_SIZE..] == bs[LEN_SIZE..HEADER_SIZE];
    if len > MAX_PAYLOAD { return TooLarge; }
    if len < INDEX_SIZE { return TooSmall; }
    assert r.Rest() == bs[HEADER_SIZE..];
    var payload := r.ReadFull(len);
    if !payload.Full? { return Truncated; }
    assert payload.bytes == bs[HEADER_SIZE..HEADER_SIZE + len];
    if crc(payload.bytes) != stored { return BadChecksum; }
    WordSize(payload.bytes[..INDEX_SIZE]);
    return Decoded(Entry(FromLittleEndian(payload.bytes[..INDEX_SIZE]), payload.bytes[INDEX_SIZE..]), HEADER_SIZE + len);
  }

  /** What has been read up to `offset` is the beginning of the whole replay. */
  ghost predicate SoFar(crc: Checksum, data: seq<Byte>, entries: seq<Entry>, offset: nat) {
    && offset <= |data|
    && var more := Replay(crc, data[offset..]);
    Replay(crc, data) == Replayed(entries + more.entries, offset + more.valid, more.failed)
  }

  lemma ReadOn(crc: Checksum, data: seq<Byte>, entries: seq<Entry>, offset: nat)
    requires SoFar(crc, data, entries, offset) && Decode(crc, data[offset..]).Decoded?
    ensures var Decoded(e, n) := Decode(crc, data[offset..]);
      n == EncodedSize(|e.data|) && SoFar(crc, data, entries + [e], offset + n)
  {
    hide Decode, Encoding;
    var rest := data[offset..];
    var Decoded(e, n) := Decode(crc, rest);
    DecodeIsInverse(crc, rest);
    assert data[offset + n..] == rest[n..];
    var more := Replay(crc, rest[n..]);
    assert entries + ([e] + more.entries) == entries + [e] + more.entries;
  }

  lemma ReadEnd(crc: Checksum, data: seq<Byte>, entries: seq<Entry>, offset: nat)
    requires SoFar(crc, data, entries, offset) && !Decode(crc, data[offset..]).Decoded?
    ensures var d := Decode(crc, data[offset..]);
      Replay(crc, data) == Replayed(entries, offset, d.TooLarge? || d.TooSmall?)
  {
    hide Decode;
  }

  /** Reads records until the first that is missing, cut short or corrupt. */
  method ReplayFile(crc: Checksum, data: seq<Byte>) returns (result: Replayed)
    ensures result == Replay(crc, data)
  {
    hide Decode, Encoding, Replay;
    var r := new Reader(data);
    var entries, offset := [], 0;
    assert SoFar(crc, data, entries, offset) by {
      assert data[0..] == data;
    }
    while true
      invariant r.data == data && r.pos == offset <= |data| && SoFar(crc, data, entries, offset)
      decreases |data| - offset
    {
      var d := DecodeFrom(crc, r);
      match d {
        case Decoded(e, n) =>
          ReadOn(crc, data, entries, offset);
          offset := offset + EncodedSize(|e.data|);
          entries := entries + [e];
        case _ =>
          ReadEnd(crc, data, entries, offset);
          return Replayed(entries, offset, d.TooLarge? || d.TooSmall?);
      }
    }
  }
}
