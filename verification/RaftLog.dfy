/** The in-memory log with a compacted prefix: its operations on values, the
    mutable object that performs them, and the proof that compaction is
    invisible above the snapshot. */
module RaftLog {
  import opened RaftTypes

  datatype TermResult = Found(term: nat) | Compacted | NotFound
  {
    /** The source returns term 0 next to an error. */
    function OrZero(): nat {
      if Found? then term else 0
    }
  }

  /** Entries up to `snapIndex` have been discarded; `entries` holds the rest. */
  datatype Log = Log(entries: seq<Entry>, snapIndex: nat, snapTerm: nat)
  {
    /** Uncompacted and without gaps. */
    ghost predicate Plain() {
      && snapIndex == 0 && snapTerm == 0
      && forall i :: 0 <= i < |entries| ==> entries[i].index == i + 1
    }

    function LastIndex(): nat {
      if |entries| == 0 then snapIndex else entries[|entries| - 1].index
    }

    function LastTerm(): nat {
      if |entries| == 0 then snapTerm else entries[|entries| - 1].term
    }

    function Term(index: nat): TermResult {
      if index == 0 then Found(0)
      else if index == snapIndex then Found(snapTerm)
      else if index < snapIndex then Compacted
      else
        var offset := index - snapIndex - 1;
        if offset >= |entries| then NotFound else Found(entries[offset].term)
    }

    function Append(es: seq<Entry>): Log {
      this.(entries := entries + es)
    }

    function TruncateAfter(index: nat): Log {
      if index <= snapIndex then this.(entries := [])
      else
        var offset := index - snapIndex - 1;
        if offset < |entries| then this.(entries := entries[..offset]) else this
    }

    function Slice(from: nat, to: nat): seq<Entry> {
      if from >= to || from <= snapIndex || |entries| == 0 then []
      else
        var fromOff := from - snapIndex - 1;
        var toOff := to - snapIndex - 1;
        if fromOff >= |entries| then []
        else entries[fromOff .. if toOff > |entries| then |entries| else toOff]
    }

    function SetSnapshot(index: nat, term: nat): Log {
      if index <= snapIndex then this
      else
        var offset := index - snapIndex;
        Log(if offset >= |entries| then [] else entries[offset..], index, term)
    }
  }

  const EMPTY: Log := Log([], 0, 0)

  /** The mutable log. `nat` locals make every subtraction an obligation not to
      underflow. */
  class LogBuffer {
    var entries: seq<Entry>
    var snapIndex: nat
    var snapTerm: nat

    ghost function Value(): Log
      reads this
    {
      Log(entries, snapIndex, snapTerm)
    }

    constructor ()
      ensures Value() == EMPTY
    {
      entries, snapIndex, snapTerm := [], 0, 0;
    }

    method LastIndex() returns (index: nat)
      ensures index == Value().LastIndex()
    {
      if |entries| == 0 { return snapIndex; }
      return entries[|entries| - 1].index;
    }

    method LastTerm() returns (term: nat)
      ensures term == Value().LastTerm()
    {
      if |entries| == 0 { return snapTerm; }
      return entries[|entries| - 1].term;
    }

    method Term(index: nat) returns (r: TermResult)
      ensures r == Value().Term(index)
    {
      if index == 0 { return Found(0); }
      if index == snapIndex { return Found(snapTerm); }
      if index < snapIndex { return Compacted; }
      var offset: nat := index - snapIndex - 1;
      if offset >= |entries| { return NotFound; }
      return Found(entries[offset].term);
    }

    method Append(es: seq<Entry>)
      modifies this
      ensures Value() == old(Value()).Append(es)
    {
      entries := entries + es;
    }

    method TruncateAfter(index: nat)
      modifies this
      ensures Value() == old(Value()).TruncateAfter(index)
    {
      if index <= snapIndex {
        entries := [];
        return;
      }
      var offset: nat := index - snapIndex - 1;
      if offset < |entries| {
        entries := entries[..offset];
      }
    }

    method Slice(from: nat, to: nat) returns (es: seq<Entry>)
      ensures es == Value().Slice(from, to)
    {
      if from >= to || from <= snapIndex || |entries| == 0 { return []; }
      var fromOff: nat := from - snapIndex - 1;
      var toOff: nat := to - snapIndex - 1;
      if fromOff >= |entries| { return []; }
      if toOff > |entries| { toOff := |entries|; }
      return entries[fromOff..toOff];
    }

    method SetSnapshot(index: nat, term: nat)
      modifies this
      ensures Value() == old(Value()).SetSnapshot(index, term)
    {
      if index <= snapIndex { return; }
      var offset: nat := index - snapIndex;
      if offset >= |entries| {
        entries := [];
      } else {
        entries := entries[offset..];
      }
      snapIndex, snapTerm := index, term;
    }
  }

  // ---------- Compaction is invisible above the snapshot ----------

  /** One call on the log as the node makes it: contiguous appends, truncation
      of uncompacted entries, and compaction at a held index. */
  datatype LogCall =
    | AppendCall(es: seq<Entry>)
    | TruncateCall(index: nat)
    | CompactCall(index: nat)

  function Perform(l: Log, call: LogCall): Log {
    match call
    case AppendCall(es) => l.Append(es)
    case TruncateCall(index) => l.TruncateAfter(index)
    case CompactCall(index) => l.SetSnapshot(index, l.Term(index).OrZero())
  }

  function PerformAll(calls: seq<LogCall>): Log {
    if calls == [] then EMPTY
    else Perform(PerformAll(calls[..|calls| - 1]), calls[|calls| - 1])
  }

  /** The reference: a plain sequence that never forgets anything. */
  function FullLog(calls: seq<LogCall>): seq<Entry> {
    if calls == [] then []
    else
      var full := FullLog(calls[..|calls| - 1]);
      match calls[|calls| - 1]
      case AppendCall(es) => full + es
      case TruncateCall(index) => if 1 <= index <= |full| then full[..index - 1] else full
      case CompactCall(_) => full
  }

  /** The greatest index ever compacted. */
  function SnapshotPoint(calls: seq<LogCall>): nat {
    if calls == [] then 0
    else
      var point := SnapshotPoint(calls[..|calls| - 1]);
      match calls[|calls| - 1]
      case CompactCall(index) => if index > point then index else point
      case _ => point
  }

  ghost predicate LegalCalls(calls: seq<LogCall>) {
    calls == [] ||
    (var before := calls[..|calls| - 1];
     LegalCalls(before) &&
     match calls[|calls| - 1]
     case AppendCall(es) =>
       forall i :: 0 <= i < |es| ==> es[i].index == |FullLog(before)| + 1 + i
     case TruncateCall(index) => index > SnapshotPoint(before)
     case CompactCall(index) => index <= |FullLog(before)|)
  }

  function FullTerm(full: seq<Entry>, index: nat): TermResult {
    if index == 0 then Found(0) else if index <= |full| then Found(full[index - 1].term) else NotFound
  }

  function FullSlice(full: seq<Entry>, from: nat, to: nat): seq<Entry>
    requires from > 0
  {
    if from >= to || from > |full| then []
    else full[from - 1 .. if to - 1 > |full| then |full| else to - 1]
  }

  ghost predicate Represents(l: Log, full: seq<Entry>) {
    && l.snapIndex <= |full|
    && l.entries == full[l.snapIndex..]
    && l.snapTerm == FullTerm(full, l.snapIndex).OrZero()
    && forall i :: 0 <= i < |full| ==> full[i].index == i + 1
  }

  lemma AppendRepresents(l: Log, full: seq<Entry>, es: seq<Entry>)
    requires Represents(l, full)
    requires forall i :: 0 <= i < |es| ==> es[i].index == |full| + 1 + i
    ensures Represents(l.Append(es), full + es)
  {
    assert (full + es)[l.snapIndex..] == full[l.snapIndex..] + es;
  }

  lemma TruncateRepresents(l: Log, full: seq<Entry>, index: nat)
    requires Represents(l, full) && index > l.snapIndex
    ensures Represents(l.TruncateAfter(index), if index <= |full| then full[..index - 1] else full)
  {
    if index <= |full| {
      assert full[l.snapIndex..][..index - l.snapIndex - 1] == full[..index - 1][l.snapIndex..];
    }
  }

  lemma TermRepresents(l: Log, full: seq<Entry>, index: nat)
    requires Represents(l, full)
    ensures l.Term(index) == if 0 < index < l.snapIndex then Compacted else FullTerm(full, index)
  {
    if l.snapIndex < index <= |full| {
      assert full[l.snapIndex..][index - l.snapIndex - 1] == full[index - 1];
    }
  }

  lemma CompactRepresents(l: Log, full: seq<Entry>, index: nat)
    requires Represents(l, full) && index <= |full|
    ensures Represents(l.SetSnapshot(index, l.Term(index).OrZero()), full)
  {
    if index > l.snapIndex {
      TermRepresents(l, full, index);
      assert full[l.snapIndex..][index - l.snapIndex..] == full[index..];
    }
  }

  lemma {:induction false} CallsRepresent(calls: seq<LogCall>)
    requires LegalCalls(calls)
    ensures Represents(PerformAll(calls), FullLog(calls))
    ensures PerformAll(calls).snapIndex == SnapshotPoint(calls)
  {
    if calls != [] {
      var before := calls[..|calls| - 1];
      CallsRepresent(before);
      match calls[|calls| - 1]
      case AppendCall(es) => AppendRepresents(PerformAll(before), FullLog(before), es);
      case TruncateCall(index) => TruncateRepresents(PerformAll(before), FullLog(before), index);
      case CompactCall(index) => CompactRepresents(PerformAll(before), FullLog(before), index);
    }
  }

  lemma SliceRepresents(l: Log, full: seq<Entry>, from: nat, to: nat)
    requires Represents(l, full)
    ensures l.Slice(from, to) == if from <= l.snapIndex then [] else FullSlice(full, from, to)
  {
    if l.snapIndex < from < to && from <= |full| {
      var end := if to - 1 > |full| then |full| else to - 1;
      assert full[l.snapIndex..][from - l.snapIndex - 1 .. end - l.snapIndex] == full[from - 1 .. end];
    }
  }

  lemma LastRepresents(l: Log, full: seq<Entry>)
    requires Represents(l, full)
    ensures l.LastIndex() == |full| && l.LastTerm() == FullTerm(full, |full|).OrZero()
    ensures forall i :: 0 <= i < |l.entries| ==> l.entries[i].index == l.snapIndex + 1 + i
  {
    assert forall i :: 0 <= i < |l.entries| ==> l.entries[i] == full[l.snapIndex + i];
  }

  /** The calls that reach past what is held: truncating in the compacted part
      leaves only the snapshot, and so does compacting beyond the end. */
  lemma CallsBeyond(l: Log, full: seq<Entry>, index: nat, term: nat)
    requires Represents(l, full)
    ensures index <= l.snapIndex ==> Represents(l.TruncateAfter(index), full[..l.snapIndex])
    ensures index > |full| ==>
      var l' := l.SetSnapshot(index, term);
      l'.entries == [] && l'.LastIndex() == index && l'.LastTerm() == term
    ensures index <= l.snapIndex ==> l.SetSnapshot(index, term) == l
  {
  }

  /** At every index above the snapshot, and for `Term` at it, the compacted log
      answers exactly as the log that never compacts; below it `Term` says
      Compacted (except for index 0) and `Slice` is empty. */
  lemma CompactedRefinesFull(calls: seq<LogCall>, index: nat, from: nat, to: nat)
    requires LegalCalls(calls)
    ensures
      var l, full, point := PerformAll(calls), FullLog(calls), SnapshotPoint(calls);
      && l.snapIndex == point <= |full|
      && l.LastIndex() == |full|
      && l.LastTerm() == FullTerm(full, |full|).OrZero()
      && (forall i :: 0 <= i < |l.entries| ==> l.entries[i].index == point + 1 + i)
      && l.Term(index) == (if 0 < index < point then Compacted else FullTerm(full, index))
      && l.Slice(from, to) == (if from <= point then [] else FullSlice(full, from, to))
  {
    CallsRepresent(calls);
    var l, full := PerformAll(calls), FullLog(calls);
    TermRepresents(l, full, index);
    SliceRepresents(l, full, from, to);
    LastRepresents(l, full);
  }
}
