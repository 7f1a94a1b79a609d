/**
  * The telemetry ledger: events appended to a file that rotates at a cap, and a count of the events that
  * could not be written, recorded by a marker as soon as a write succeeds again.
  */
module Telemetry {
  import opened Wrappers

  /** What the report reads of an event beside its name: its output profile, and its failure or error class. */
  datatype Details = Details(profile: Option<string>, failureClass: Option<string>, errorClass: Option<string>)

  /** The length of a line in bytes: at least a pair of braces and the newline. */
  type LineSize = n: int | 3 <= n witness 3

  /** One line of the ledger; `size` is its length in bytes. A marker stands for `dropped` events that were lost. */
  datatype Entry =
    | Event(name: string, testOrigin: bool, details: Details, size: LineSize)
    | Marker(dropped: nat, size: LineSize)

  /** What one append left in the file: the whole line, or its first `bytes` bytes when it failed on the way. */
  datatype Piece = Piece(entry: Entry, appended: bool, bytes: nat)

  /** The current segment and the one rotated out, when they exist. */
  datatype Ledger = Ledger(current: Option<seq<Piece>>, rotated: Option<seq<Piece>>)

  /**
    * What the file system answers while one line is written, and how long the line is. An append that fails may
    * leave the first `left` bytes of the line behind.
    */
  datatype Disk = Disk(mkdirOk: bool, statOk: bool, renameOk: bool, appendOk: bool, left: nat, size: LineSize)

  /**
    * One call of `emitEvent`: the event, whether telemetry is on, whether name and clock are valid and the fields
    * can be serialised, and the answers of the disk to its own line and to a marker behind it.
    */
  datatype Call = Call(name: string, testOrigin: bool, details: Details, disabled: bool, valid: bool, own: Disk,
      marker: Disk)

  datatype State = State(ledger: Ledger, pending: nat)

  const FRESH := State(Ledger(None, None), 0)

  function Size(pieces: seq<Piece>): nat {
    if pieces == [] then 0 else pieces[0].bytes + Size(pieces[1..])
  }

  function Segment(s: Option<seq<Piece>>): seq<Piece> {
    if s.Some? then s.value else []
  }

  predicate Rotates(l: Ledger, maxBytes: nat, d: Disk) {
    d.mkdirOk && l.current.Some? && d.statOk && Size(l.current.value) >= maxBytes && d.renameOk
  }

  /** The rename replaces the segment rotated out before. */
  function Rotate(l: Ledger, maxBytes: nat, d: Disk): Ledger {
    if Rotates(l, maxBytes, d) then Ledger(None, l.current) else l
  }

  /** What an append leaves in the file. */
  function Stored(d: Disk, entry: Entry): seq<Piece> {
    if d.appendOk then [Piece(entry, true, entry.size)]
    else if d.left == 0 then []
    else [Piece(entry, false, if d.left < entry.size then d.left else entry.size)]
  }

  /** Write one line, rotating first when the segment has reached the cap. */
  function Write(l: Ledger, maxBytes: nat, d: Disk, entry: Entry): (Ledger, bool) {
    if !d.mkdirOk then (l, false)
    else
      var l1 := Rotate(l, maxBytes, d);
      var stored := Stored(d, entry);
      (if stored == [] then l1 else l1.(current := Some(Segment(l1.current) + stored)), d.appendOk)
  }

  function OwnEntry(c: Call): Entry {
    Event(c.name, c.testOrigin, c.details, c.own.size)
  }

  /** Record what is pending; a marker that cannot be written counts as one more loss. */
  function Flush(s: State, maxBytes: nat, c: Call): State {
    if s.pending == 0 then s
    else
      var (l, ok) := Write(s.ledger, maxBytes, c.marker, Marker(s.pending, c.marker.size));
      State(l, if ok then 0 else s.pending + 1)
  }

  function Emit(s: State, maxBytes: nat, c: Call): (State, bool) {
    if c.disabled then (s, false)
    else if !c.valid then (s.(pending := s.pending + 1), false)
    else
      var (l, ok) := Write(s.ledger, maxBytes, c.own, OwnEntry(c));
      if !ok then (State(l, s.pending + 1), false) else (Flush(State(l, s.pending), maxBytes, c), true)
  }

  // ---------------------------------------------------------------- the module's state

  class TelemetryWriter {
    const maxBytes: nat
    var current: Option<seq<Piece>>
    var rotated: Option<seq<Piece>>
    var deferredWriteFailures: nat
    var flushing: bool

    ghost function Value(): State
      reads this
    {
      State(Ledger(current, rotated), deferredWriteFailures)
    }

    constructor (maxBytes: nat)
      ensures Value() == FRESH && !flushing && this.maxBytes == maxBytes
    {
      this.maxBytes := maxBytes;
      current, rotated, deferredWriteFailures, flushing := None, None, 0, false;
    }

    method RotateIfNeeded(d: Disk) returns (moved: bool)
      requires d.mkdirOk
      modifies this`current, this`rotated
      ensures Value() == old(Value()).(ledger := Rotate(old(Value()).ledger, maxBytes, d))
      ensures moved == Rotates(old(Value()).ledger, maxBytes, d)
    {
      if current.None? || !d.statOk || Size(current.value) < maxBytes || !d.renameOk {
        return false;
      }
      current, rotated := None, current;
      moved := true;
    }

    /** The part of an emit that touches the disk. */
    method WriteEntry(d: Disk, entry: Entry) returns (ok: bool)
      modifies this`current, this`rotated
      ensures var (l, written) := Write(old(Value()).ledger, maxBytes, d, entry);
        Value() == old(Value()).(ledger := l) && ok == written
    {
      if !d.mkdirOk {
        return false;
      }
      var moved := RotateIfNeeded(d);
      var stored := Stored(d, entry);
      if stored != [] {
        current := Some((if current.Some? then current.value else []) + stored);
      }
      ok := d.appendOk;
    }

    /** One emit of call `c`: its own entry or, from within the flush, the marker, which does not flush again. */
    method EmitEvent(c: Call, entry: Entry, d: Disk) returns (ok: bool)
      requires if flushing then !c.disabled && c.valid else entry == OwnEntry(c) && d == c.own
      modifies this
      ensures flushing == old(flushing)
      ensures !flushing ==> (Value(), ok) == Emit(old(Value()), maxBytes, c)
      ensures flushing ==>
        var (l, written) := Write(old(Value()).ledger, maxBytes, d, entry);
        ok == written && Value() == State(l, old(Value()).pending + if written then 0 else 1)
      decreases if flushing then 0 else 2
    {
      if c.disabled {
        return false;
      }
      if !c.valid {
        deferredWriteFailures := deferredWriteFailures + 1;
        return false;
      }
      ok := WriteEntry(d, entry);
      if !ok {
        deferredWriteFailures := deferredWriteFailures + 1;
        return false;
      }
      if !flushing {
        FlushDeferredWriteFailures(c);
      }
    }

    method FlushDeferredWriteFailures(c: Call)
      requires !flushing && !c.disabled && c.valid
      modifies this
      ensures !flushing && Value() == Flush(old(Value()), maxBytes, c)
      decreases 1
    {
      if deferredWriteFailures == 0 {
        return;
      }
      var lost := deferredWriteFailures;
      deferredWriteFailures := 0;
      flushing := true;
      var recorded := EmitEvent(c, Marker(lost, c.marker.size), c.marker);
      flushing := false;
      if !recorded {
        deferredWriteFailures := deferredWriteFailures + lost;
      }
    }
  }
}
