/** The record codec of the write-ahead log. The checksum is any function of the
    payload; nothing here depends on which. */
module WalCodec {
  import opened Bytes

  type Checksum = seq<Byte> -> Word32

  const LEN_SIZE: nat := 8
  const CRC_SIZE: nat := 4
  const INDEX_SIZE: nat := 8
  const HEADER_SIZE: nat := LEN_SIZE + CRC_SIZE
  const MAX_PAYLOAD: nat := 128 * 1024 * 1024

  datatype Entry = Entry(index: Word64, data: seq<Byte>)

  /** The payload length fits the limit that decoding enforces. */
  predicate Fits(e: Entry) {
    INDEX_SIZE + |e.data| <= MAX_PAYLOAD
  }

  /** The payload length fits its field, as the length of any byte slice does. */
  predicate Writable(e: Entry) {
    INDEX_SIZE + |e.data| < 0x1_0000_0000_0000_0000
  }

  function Payload(e: Entry): (bs: seq<Byte>)
    ensures |bs| == INDEX_SIZE + |e.data|
  {
    LittleEndian(e.index, INDEX_SIZE) + e.data
  }

  function Encoding(crc: Checksum, e: Entry): (bs: seq<Byte>)
    ensures |bs| == HEADER_SIZE + INDEX_SIZE + |e.data|
  {
    LittleEndian(|Payload(e)|, LEN_SIZE) + LittleEndian(crc(Payload(e)), CRC_SIZE) + Payload(e)
  }

  function EncodedSize(dataLen: nat): nat {
    HEADER_SIZE + INDEX_SIZE + dataLen
  }

  datatype DecodeResult =
    | Decoded(entry: Entry, consumed: nat)
    | EndOfFile
    | Truncated
    | TooLarge
    | TooSmall
    | BadChecksum

  lemma WordSize(bs: seq<Byte>)
    requires |bs| == INDEX_SIZE
    ensures FromLittleEndian(bs) < 0x1_0000_0000_0000_0000
  {
    WrittenRead(bs);
    Widths();
  }

  function Decode(crc: Checksum, bs: seq<Byte>): (r: DecodeResult)
    ensures r.Decoded? ==> HEADER_SIZE < r.consumed <= |bs|
  {
    if |bs| == 0 then EndOfFile
    else if |bs| < HEADER_SIZE then Truncated
    else
      var len := FromLittleEndian(bs[..LEN_SIZE]);
      var stored := FromLittleEndian(bs[LEN_SIZE..HEADER_SIZE]);
      if len > MAX_PAYLOAD then TooLarge
      else if len < INDEX_SIZE then TooSmall
      else if |bs| - HEADER_SIZE < len then Truncated
      else
        var payload := bs[HEADER_SIZE..HEADER_SIZE + len];
        if crc(payload) != stored then BadChecksum
        else
          WordSize(payload[..INDEX_SIZE]);
          Decoded(Entry(FromLittleEndian(payload[..INDEX_SIZE]), payload[INDEX_SIZE..]), HEADER_SIZE + len)
  }

  // ---------- The two inverses ----------

  /** The fields of a record, wherever it is followed by something else. */
  lemma EncodingFields(crc: Checksum, e: Entry, bs: seq<Byte>)
    requires |Encoding(crc, e)| >= HEADER_SIZE
    requires |bs| >= HEADER_SIZE && bs[..HEADER_SIZE] == Encoding(crc, e)[..HEADER_SIZE]
    requires Writable(e)
    ensures FromLittleEndian(bs[..LEN_SIZE]) == INDEX_SIZE + |e.data|
    ensures FromLittleEndian(bs[LEN_SIZE..HEADER_SIZE]) == crc(Payload(e))
  {
    Widths();
    var enc := Encoding(crc, e);
    assert bs[..LEN_SIZE] == bs[..HEADER_SIZE][..LEN_SIZE] == enc[..LEN_SIZE] == LittleEndian(|Payload(e)|, LEN_SIZE);
    assert bs[LEN_SIZE..HEADER_SIZE] == bs[..HEADER_SIZE][LEN_SIZE..] == enc[LEN_SIZE..HEADER_SIZE] == LittleEndian(crc(Payload(e)), CRC_SIZE);
    ReadWritten(|Payload(e)|, LEN_SIZE);
    ReadWritten(crc(Payload(e)), CRC_SIZE);
  }

  lemma PayloadFields(e: Entry)
    ensures FromLittleEndian(Payload(e)[..INDEX_SIZE]) == e.index && Payload(e)[INDEX_SIZE..] == e.data
  {
    Widths();
    assert Payload(e)[..INDEX_SIZE] == LittleEndian(e.index, INDEX_SIZE);
    ReadWritten(e.index, INDEX_SIZE);
  }

  /** What decoding makes of any bytes, by the length and checksum in front. */
  lemma DecodeOutcome(crc: Checksum, len: Word64, sum: Word32, rest: seq<Byte>)
    ensures Decode(crc, LittleEndian(len, 8) + LittleEndian(sum, 4) + rest) ==
      if len > 134_217_728 then TooLarge
      else if len < 8 then TooSmall
      else if |rest| < len then Truncated
      else if crc(rest[..len]) != sum then BadChecksum
      else Decoded(Entry((WordSize(rest[..8]); FromLittleEndian(rest[..8])), rest[8..len]), 12 + len)
  {
    var bs := LittleEndian(len, 8) + LittleEndian(sum, 4) + rest;
    Widths();
    assert bs[..8] == LittleEndian(len, 8) && bs[8..12] == LittleEndian(sum, 4);
    ReadWritten(len, 8);
    ReadWritten(sum, 4);
    if 8 <= len <= |rest| {
      assert bs[12..12 + len] == rest[..len];
      assert rest[..len][..8] == rest[..8] && rest[..len][8..] == rest[8..len];
    }
  }

  /** Fewer bytes than a header are a cut record, none at all the end. */
  lemma DecodeShort(crc: Checksum, bs: seq<Byte>)
    requires |bs| < 12
    ensures Decode(crc, bs) == if bs == [] then EndOfFile else Truncated
  {
  }

  /** Decoding an encoding followed by any bytes gives the entry back and leaves
      those bytes, if and only if the payload is within the limit. */
  lemma RoundTrip(crc: Checksum, e: Entry, rest: seq<Byte>)
    requires Writable(e)
    ensures Decode(crc, Encoding(crc, e) + rest) ==
            if Fits(e) then Decoded(e, |Encoding(crc, e)|) else TooLarge
  {
    var enc := Encoding(crc, e);
    var bs := enc + rest;
    assert bs[..HEADER_SIZE] == enc[..HEADER_SIZE];
    EncodingFields(crc, e, bs);
    assert bs[HEADER_SIZE..HEADER_SIZE + |Payload(e)|] == Payload(e);
    PayloadFields(e);
  }

  /** A successful decode consumed exactly the encoding of its result. */
  lemma DecodeIsInverse(crc: Checksum, bs: seq<Byte>)
    requires Decode(crc, bs).Decoded?
    ensures var Decoded(e, n) := Decode(crc, bs);
      Fits(e) && n == EncodedSize(|e.data|) && bs[..n] == Encoding(crc, e)
  {
    hide LittleEndian, FromLittleEndian;
    var Decoded(e, n) := Decode(crc, bs);
    var len := FromLittleEndian(bs[..LEN_SIZE]);
    var payload := bs[HEADER_SIZE..HEADER_SIZE + len];
    WrittenRead(bs[..LEN_SIZE]);
    WrittenRead(bs[LEN_SIZE..HEADER_SIZE]);
    WrittenRead(payload[..INDEX_SIZE]);
    assert payload == payload[..INDEX_SIZE] + payload[INDEX_SIZE..] == Payload(e);
    assert bs[..n] == bs[..HEADER_SIZE] + payload;
    assert bs[..HEADER_SIZE] == bs[..LEN_SIZE] + bs[LEN_SIZE..HEADER_SIZE];
  }

  /** Records are prefix-free: two encodings that start the same bytes are the same. */
  lemma PrefixFree(crc: Checksum, e: Entry, rest: seq<Byte>, e': Entry, rest': seq<Byte>)
    requires Writable(e) && Writable(e') && Encoding(crc, e) + rest == Encoding(crc, e') + rest'
    ensures e == e' && rest == rest'
  {
    var bs, n := Encoding(crc, e) + rest, |Encoding(crc, e)|;
    assert bs[..HEADER_SIZE] == Encoding(crc, e)[..HEADER_SIZE] == Encoding(crc, e')[..HEADER_SIZE];
    EncodingFields(crc, e, bs);
    EncodingFields(crc, e', bs);
    assert Payload(e) == bs[HEADER_SIZE..n] == Payload(e');
    PayloadFields(e);
    PayloadFields(e');
    assert rest == bs[n..] == rest';
  }

  /** A record cut at any byte is recognised as cut short, unless enough is left
      of it to see that it is over the limit. */
  lemma CutRecord(crc: Checksum, e: Entry, j: nat)
    requires Writable(e) && j < |Encoding(crc, e)|
    ensures Decode(crc, Encoding(crc, e)[..j]) ==
            if j == 0 then EndOfFile else if j < HEADER_SIZE || Fits(e) then Truncated else TooLarge
  {
    var bs := Encoding(crc, e)[..j];
    if j >= HEADER_SIZE {
      assert bs[..HEADER_SIZE] == Encoding(crc, e)[..HEADER_SIZE];
      EncodingFields(crc, e, bs);
    }
  }

  // ---------- Sequences of records ----------

  function EncodeAll(crc: Checksum, es: seq<Entry>): seq<Byte> {
    if es == [] then [] else Encoding(crc, es[0]) + EncodeAll(crc, es[1..])
  }

  ghost predicate AllFit(es: seq<Entry>) {
    forall i :: 0 <= i < |es| ==> Fits(es[i])
  }

  ghost predicate AllWritable(es: seq<Entry>) {
    forall i :: 0 <= i < |es| ==> Writable(es[i])
  }

  lemma {:induction false} EncodeAppend(crc: Checksum, es: seq<Entry>, more: seq<Entry>)
    ensures EncodeAll(crc, es + more) == EncodeAll(crc, es) + EncodeAll(crc, more)
  {
    if es == [] {
      assert es + more == more;
      assert EncodeAll(crc, es) == [];
    } else {
      EncodeAppend(crc, es[1..], more);
      var first, rest, last := Encoding(crc, es[0]), EncodeAll(crc, es[1..]), EncodeAll(crc, more);
      assert (es + more)[1..] == es[1..] + more && (es + more)[0] == es[0];
      assert first + (rest + last) == (first + rest) + last;
    }
  }

  lemma EncodeOne(crc: Checksum, es: seq<Entry>, e: Entry)
    ensures EncodeAll(crc, es + [e]) == EncodeAll(crc, es) + Encoding(crc, e)
  {
    EncodeAppend(crc, es, [e]);
    assert EncodeAll(crc, [e]) == Encoding(crc, e) + EncodeAll(crc, []);
  }

  /** A concatenation of records has one parse. */
  lemma {:induction false} UniqueParse(crc: Checksum, es: seq<Entry>, es': seq<Entry>)
    requires AllWritable(es) && AllWritable(es') && EncodeAll(crc, es) == EncodeAll(crc, es')
    ensures es == es'
  {
    if es != [] && es' != [] {
      PrefixFree(crc, es[0], EncodeAll(crc, es[1..]), es'[0], EncodeAll(crc, es'[1..]));
      UniqueParse(crc, es[1..], es'[1..]);
    }
  }
}
