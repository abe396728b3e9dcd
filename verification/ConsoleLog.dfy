/** The boot-log ring buffer of consoleIO.go and the port it drains to. */
module ConsoleLog {
  import opened Common

  const LOG_SIZE: nat := 8 * 1024

  /** The USB port as an oracle: it accepts `budget` more bytes and then refuses. */
  class UsbPort {
    var sent: seq<byte>
    var budget: nat

    constructor (budget: nat)
      ensures sent == [] && this.budget == budget
    {
      sent, this.budget := [], budget;
    }

    method WriteByte(b: byte) returns (ok: bool)
      modifies this
      ensures ok == (old(budget) > 0)
      ensures ok ==> sent == old(sent) + [b] && budget == old(budget) - 1
      ensures !ok ==> sent == old(sent) && budget == old(budget)
    {
      ok := budget > 0;
      if ok {
        sent, budget := sent + [b], budget - 1;
      }
    }

    method WriteBytes(p: seq<byte>) returns (ok: bool)
      modifies this
      ensures ok == (|p| <= old(budget))
      ensures sent == old(sent) + p[..Min(|p|, old(budget))]
      ensures budget == old(budget) - Min(|p|, old(budget))
    {
      for i := 0 to |p|
        invariant i <= old(budget) && budget == old(budget) - i
        invariant sent == old(sent) + p[..i]
      {
        var accepted := WriteByte(p[i]);
        if !accepted {
          return false;
        }
      }
      ok := true;
    }
  }

  /** What a ring holds whose next byte goes to `write`, oldest byte first. */
  function Ring(buffer: seq<byte>, write: nat, full: bool): seq<byte>
    requires write <= |buffer|
  {
    if full then buffer[write..] + buffer[..write] else buffer[..write]
  }

  lemma RingStep(buffer: seq<byte>, write: nat, full: bool, b: byte)
    requires |buffer| == LOG_SIZE && write < LOG_SIZE
    ensures var wraps := write + 1 >= LOG_SIZE;
            Ring(buffer[write := b], if wraps then 0 else write + 1, full || wraps) ==
              Last(Ring(buffer, write, full) + [b], LOG_SIZE)
  {
  }

  /** The log's three variables as values. */
  datatype RingState = RingState(buffer: seq<byte>, write: nat, full: bool)

  ghost predicate RingOk(r: RingState) {
    |r.buffer| == LOG_SIZE && r.write < LOG_SIZE
  }

  /** One turn of the append loop. */
  function PutByte(r: RingState, b: byte): (r': RingState)
    requires RingOk(r)
    ensures RingOk(r')
  {
    var wraps := r.write + 1 >= LOG_SIZE;
    RingState(r.buffer[r.write := b], if wraps then 0 else r.write + 1, r.full || wraps)
  }

  ghost function PutAll(r: RingState, bytes: seq<byte>): (r': RingState)
    requires RingOk(r)
    ensures RingOk(r')
    decreases |bytes|
  {
    if bytes == [] then r else PutByte(PutAll(r, bytes[..|bytes| - 1]), bytes[|bytes| - 1])
  }

  lemma PutOneMore(r: RingState, s: seq<byte>, i: nat)
    requires RingOk(r) && i < |s|
    ensures PutAll(r, s[..i + 1]) == PutByte(PutAll(r, s[..i]), s[i])
  {
    assert s[..i + 1][..i] == s[..i];
  }

  lemma OneMore(log: seq<byte>, s: seq<byte>, i: nat)
    requires i < |s|
    ensures log + s[..i + 1] == log + s[..i] + [s[i]]
  {
  }

  class RingLog {
    const buffer: array<byte>
    var write: nat
    var full: bool
    /** Every byte appended since the last successful dump. */
    ghost var appended: seq<byte>

    ghost predicate Valid()
      reads this, buffer
    {
      && buffer.Length == LOG_SIZE
      && write < LOG_SIZE
      && Stored() == Last(appended, LOG_SIZE)
    }

    /** What the ring holds, oldest byte first. */
    ghost function Stored(): seq<byte>
      requires buffer.Length == LOG_SIZE && write < LOG_SIZE
      reads this, buffer
    {
      Ring(buffer[..], write, full)
    }

    ghost function View(): RingState
      reads this, buffer
    {
      RingState(buffer[..], write, full)
    }

    constructor ()
      ensures Valid() && appended == [] && fresh(buffer)
    {
      buffer := new byte[LOG_SIZE](_ => 0);
      write, full, appended := 0, false, [];
    }

    method Append(s: seq<byte>)
      requires Valid()
      modifies this, buffer
      ensures Valid() && appended == old(appended) + s && View() == PutAll(old(View()), s)
    {
      ghost var start, log := View(), appended;
      for i := 0 to |s|
        invariant Valid() && appended == log + s[..i] && View() == PutAll(start, s[..i])
      {
        AppendByte(s[i]);
        PutOneMore(start, s, i);
        OneMore(log, s, i);
      }
      assert s[..|s|] == s;
    }

    /** One turn of the append loop: store, advance, wrap. */
    method AppendByte(b: byte)
      requires Valid()
      modifies this, buffer
      ensures Valid() && appended == old(appended) + [b] && View() == PutByte(old(View()), b)
    {
      RingStep(buffer[..], write, full, b);
      LastAbsorbs(appended, [b], LOG_SIZE);
      buffer[write] := b;
      write := write + 1;
      if write >= LOG_SIZE {
        write, full := 0, true;
      }
      appended := appended + [b];
    }

    /** Emits the ring in order; a failed dump keeps the whole log for the next try. */
    method Dump(port: UsbPort) returns (ok: bool)
      requires Valid()
      modifies this, port
      ensures Valid()
      ensures ok == (|Last(old(appended), LOG_SIZE)| <= old(port.budget))
      ensures ok ==> appended == [] && port.sent == old(port.sent) + Last(old(appended), LOG_SIZE)
      ensures !ok ==> appended == old(appended) && Stored() == old(Stored())
      ensures !ok ==> port.sent == old(port.sent) + Last(old(appended), LOG_SIZE)[..old(port.budget)]
    {
      ghost var log := Stored();
      if !full && write == 0 {
        assert log == [];
        appended := [];
        return true;
      }
      if !full {
        ok := port.WriteBytes(buffer[..write]);
      } else {
        ok := port.WriteBytes(buffer[write..]);
        if ok {
          ok := port.WriteBytes(buffer[..write]);
        }
      }
      if ok {
        write, full, appended := 0, false, [];
      }
    }
  }

  /** A history of the log: bytes appended, and dumps the port did or did not accept. */
  datatype LogEvent = Appended(bytes: seq<byte>) | Dumped(budget: nat)

  /** Everything appended since the last dump that went through. */
  ghost function SinceReset(events: seq<LogEvent>): seq<byte> {
    if events == [] then []
    else
      var before := SinceReset(events[..|events| - 1]);
      match events[|events| - 1]
      case Appended(bytes) => before + bytes
      case Dumped(budget) => if |Last(before, LOG_SIZE)| <= budget then [] else before
  }

  /** The log's variables after a history, byte by byte; a dump that goes through starts the buffer again. */
  ghost function RingAfter(events: seq<LogEvent>): (r: RingState)
    ensures RingOk(r)
  {
    if events == [] then RingState(seq(LOG_SIZE, _ => 0), 0, false)
    else
      var before := RingAfter(events[..|events| - 1]);
      match events[|events| - 1]
      case Appended(bytes) => PutAll(before, bytes)
      case Dumped(budget) =>
        if |Ring(before.buffer, before.write, before.full)| <= budget then before.(write := 0, full := false)
        else before
  }

  lemma {:induction false} PutAllKeepsLast(r: RingState, bytes: seq<byte>)
    requires RingOk(r)
    ensures var r' := PutAll(r, bytes);
            Ring(r'.buffer, r'.write, r'.full) == Last(Ring(r.buffer, r.write, r.full) + bytes, LOG_SIZE)
    decreases |bytes|
  {
    var ring := Ring(r.buffer, r.write, r.full);
    if bytes == [] {
      assert ring + bytes == ring;
    } else {
      var front, b := bytes[..|bytes| - 1], bytes[|bytes| - 1];
      PutAllKeepsLast(r, front);
      var mid := PutAll(r, front);
      RingStep(mid.buffer, mid.write, mid.full, b);
      LastOneMore(ring, front, b, bytes);
    }
  }

  lemma LastOneMore(ring: seq<byte>, front: seq<byte>, b: byte, bytes: seq<byte>)
    requires bytes == front + [b]
    ensures Last(Last(ring + front, LOG_SIZE) + [b], LOG_SIZE) == Last(ring + bytes, LOG_SIZE)
  {
    LastAbsorbs(ring + front, [b], LOG_SIZE);
    assert ring + front + [b] == ring + bytes;
  }

  /** Over every history of appends and dumps the circular buffer, read from its write index, is the tail of the
      unbounded log. */
  lemma {:induction false} RingRefinesLog(events: seq<LogEvent>)
    ensures var r := RingAfter(events); Ring(r.buffer, r.write, r.full) == Last(SinceReset(events), LOG_SIZE)
  {
    if events != [] {
      var before := events[..|events| - 1];
      RingRefinesLog(before);
      match events[|events| - 1]
      case Appended(bytes) =>
        PutAllKeepsLast(RingAfter(before), bytes);
        LastAbsorbs(SinceReset(before), bytes, LOG_SIZE);
      case Dumped(_) =>
    }
  }
}
