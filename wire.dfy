/** What the driver does to the hardware, as a trace of events, and the
    command tables as data. The pins and the SPI bus are external; each call
    the driver makes on them is one event. */
module Wire {

  datatype Option<T> = None | Some(value: T)

  /** The level written to a GPIO line: `value(0)` or `value(1)`. */
  datatype Level = Low | High

  datatype Event =
    | Dc(dc: Level)          // data/command line: Low = command, High = data
    | Cs(cs: Level)          // chip select, active low
    | Res(res: Level)        // reset line, active low
    | Write(bytes: seq<bv8>) // one spi.write call
    | Sleep(ms: nat)         // one time.sleep_ms call

  /** An entry of a command table: an opcode with its payload (possibly
      empty), or a bare integer, which is a delay in milliseconds. */
  datatype Entry = Command(op: bv8, payload: seq<bv8>) | Delay(ms: nat)

  /** The framing of `_send(command, data)`: the opcode byte in command
      mode, then data mode, then the payload inside its own chip-select
      window only when the payload is non-empty. */
  function SendEvents(op: bv8, data: seq<bv8>): (t: seq<Event>)
  {
    [Dc(Low), Cs(Low), Write([op]), Cs(High), Dc(High)]
      + (if data != [] then [Cs(Low), Write(data), Cs(High)] else [])
  }

  /** An empty payload gives a command-only transaction of five events; a
      non-empty one adds exactly one data phase. The only writes are the
      opcode byte and the payload. */
  lemma SendFraming(op: bv8, data: seq<bv8>)
    ensures |SendEvents(op, data)| == if data == [] then 5 else 8
    ensures forall n :: 0 <= n < |SendEvents(op, data)| && SendEvents(op, data)[n].Write? ==>
      (n == 2 && SendEvents(op, data)[n].bytes == [op]) || (n == 6 && SendEvents(op, data)[n].bytes == data)
  {
  }

  /** The hardware reset at the start of `_init`. */
  function ResetPulse(): seq<Event>
  {
    [Sleep(50), Res(Low), Sleep(100), Res(High)]
  }

  /** The events of one table entry in the replay loop of `_init`. */
  function EntryEvents(e: Entry): seq<Event>
  {
    match e
    case Command(op, data) => SendEvents(op, data)
    case Delay(ms) => [Sleep(ms)]
  }

  /** The events of replaying a whole table, entry by entry, in order. */
  function Replay(table: seq<Entry>): (t: seq<Event>)
    ensures t == [] <==> table == []
    ensures t != [] ==> t[0].Sleep? || t[0] == Dc(Low)
  {
    if table == [] then [] else EntryEvents(table[0]) + Replay(table[1..])
  }

  lemma {:induction false} ReplayAppend(table: seq<Entry>, e: Entry)
    ensures Replay(table + [e]) == Replay(table) + EntryEvents(e)
  {
    if table == [] {
      assert [e][1..] == [];
    } else {
      assert (table + [e])[1..] == table[1..] + [e];
      ReplayAppend(table[1..], e);
    }
  }

  lemma {:induction false} ReplayConcat(a: seq<Entry>, b: seq<Entry>)
    ensures Replay(a + b) == Replay(a) + Replay(b)
  {
    if a == [] {
      assert a + b == b;
    } else {
      assert (a + b)[1..] == a[1..] + b;
      ReplayConcat(a[1..], b);
    }
  }

  // ---- reading a trace back ----

  /** The command phase of `_send` at the head of `t`. */
  predicate CommandPhase(t: seq<Event>)
  {
    |t| >= 5 && t[0] == Dc(Low) && t[1] == Cs(Low) && t[2].Write? && |t[2].bytes| == 1
      && t[3] == Cs(High) && t[4] == Dc(High)
  }

  /** A data phase of `_send` at the head of `t`. */
  predicate DataPhase(t: seq<Event>)
  {
    |t| >= 3 && t[0] == Cs(Low) && t[1].Write? && t[1].bytes != [] && t[2] == Cs(High)
  }

  function Prepend(e: Entry, rest: Option<seq<Entry>>): Option<seq<Entry>>
  {
    if rest.Some? then Some([e] + rest.value) else None
  }

  /** What a logic analyser on the bus would read: the commands and delays
      of a trace, or None when the trace is not a sequence of `_send`
      transactions and sleeps. */
  function Decode(t: seq<Event>): Option<seq<Entry>>
    decreases |t|
  {
    if t == [] then Some([])
    else if t[0].Sleep? then Prepend(Delay(t[0].ms), Decode(t[1..]))
    else if CommandPhase(t) then
      if DataPhase(t[5..]) then Prepend(Command(t[2].bytes[0], t[6].bytes), Decode(t[8..]))
      else Prepend(Command(t[2].bytes[0], []), Decode(t[5..]))
    else None
  }

  lemma EntryThenReplay(e: Entry, rest: seq<Entry>)
    ensures Decode(EntryEvents(e) + Replay(rest)) == Prepend(e, Decode(Replay(rest)))
  {
    var tail := Replay(rest);
    var t := EntryEvents(e) + tail;
    match e
    case Delay(ms) =>
      assert t[1..] == tail;
    case Command(op, data) =>
      assert CommandPhase(t);
      if data != [] {
        assert t[5..][..3] == [Cs(Low), Write(data), Cs(High)];
        assert t[8..] == tail;
      } else {
        assert t[5..] == tail;
      }
  }

  /** The framing is unambiguous: replaying a table and reading the bus
      back gives the table, with each empty payload as a command-only
      transaction and each delay in its place. */
  lemma {:induction false} DecodeReplay(table: seq<Entry>)
    ensures Decode(Replay(table)) == Some(table)
  {
    if table != [] {
      DecodeReplay(table[1..]);
      EntryThenReplay(table[0], table[1..]);
      assert [table[0]] + table[1..] == table;
    }
  }

  /** A command phase followed by a data phase is one `_send` with that
      payload. */
  lemma SendWithData(t: seq<Event>)
    requires CommandPhase(t) && DataPhase(t[5..])
    ensures t[..8] == SendEvents(t[2].bytes[0], t[6].bytes)
  {
    assert t[2].bytes == [t[2].bytes[0]];
  }

  /** A command phase alone is one `_send` with an empty payload. */
  lemma SendWithoutData(t: seq<Event>)
    requires CommandPhase(t)
    ensures t[..5] == SendEvents(t[2].bytes[0], [])
  {
    assert t[2].bytes == [t[2].bytes[0]];
  }

  /** ... and only replays decode: a trace that reads back as a table is
      exactly that table's replay. */
  lemma {:induction false} ReplayDecode(t: seq<Event>, table: seq<Entry>)
    requires Decode(t) == Some(table)
    ensures Replay(table) == t
    decreases |t|
  {
    if t == [] {
    } else if t[0].Sleep? {
      ReplayDecode(t[1..], table[1..]);
      assert t == [t[0]] + t[1..];
    } else if DataPhase(t[5..]) {
      ReplayDecode(t[8..], table[1..]);
      SendWithData(t);
      assert t == t[..8] + t[8..];
    } else {
      ReplayDecode(t[5..], table[1..]);
      SendWithoutData(t);
      assert t == t[..5] + t[5..];
    }
  }

  /** The two replays agree exactly when the tables do. */
  lemma ReplayInjective(a: seq<Entry>, b: seq<Entry>)
    ensures Replay(a) == Replay(b) <==> a == b
  {
    DecodeReplay(a);
    DecodeReplay(b);
  }

  // ---- refresh ----

  /** The commands of one `refresh`: column address set and row address set
      with the cached window, then memory write with the packed frame. */
  function RefreshCommands(caset: seq<bv8>, raset: seq<bv8>, frame: seq<bv8>): seq<Entry>
  {
    [Command(0x2A, caset), Command(0x2B, raset), Command(0x2C, frame)]
  }

  lemma ReplayRefresh(caset: seq<bv8>, raset: seq<bv8>, frame: seq<bv8>)
    ensures Replay(RefreshCommands(caset, raset, frame))
         == SendEvents(0x2A, caset) + SendEvents(0x2B, raset) + SendEvents(0x2C, frame)
  {
    var cmds := RefreshCommands(caset, raset, frame);
    assert cmds[1..][1..][1..] == [];
    assert Replay(cmds[1..][1..]) == SendEvents(0x2C, frame);
    assert Replay(cmds[1..]) == SendEvents(0x2B, raset) + SendEvents(0x2C, frame);
  }

  /** With a fixed window, two refreshes put the same events on the bus up
      to the memory-write payload, and differ only if the frames differ. */
  lemma RefreshDiffersOnlyInFrame(caset: seq<bv8>, raset: seq<bv8>, f1: seq<bv8>, f2: seq<bv8>)
    ensures var window := SendEvents(0x2A, caset) + SendEvents(0x2B, raset) + [Dc(Low), Cs(Low), Write([0x2C])];
      window <= Replay(RefreshCommands(caset, raset, f1)) &&
      window <= Replay(RefreshCommands(caset, raset, f2))
    ensures Replay(RefreshCommands(caset, raset, f1)) == Replay(RefreshCommands(caset, raset, f2))
      <==> f1 == f2
  {
    ReplayRefresh(caset, raset, f1);
    ReplayRefresh(caset, raset, f2);
    ReplayInjective(RefreshCommands(caset, raset, f1), RefreshCommands(caset, raset, f2));
  }

  /** The contents of a byte buffer as `bytearray(n)` creates it, or as
      `fill(0)` leaves it. */
  function Zeros(n: nat): (z: seq<bv8>)
    ensures |z| == n && forall i :: 0 <= i < n ==> z[i] == 0
  {
    seq(n, _ => 0)
  }

  ghost predicate Blank(a: array<bv8>)
    reads a
  {
    forall i :: 0 <= i < a.Length ==> a[i] == 0
  }

  /** `bytearray(n)`: a fresh buffer of n zero bytes. */
  method NewBuffer(n: nat) returns (a: array<bv8>)
    ensures fresh(a) && a.Length == n && Blank(a)
  {
    a := new bv8[n](_ => 0);
  }

  /** Events appended to a bus that has seen nothing yet. Stated over
      abstract sequences, so that a constructor need not unfold the
      concrete replays it appends. */
  lemma AppendToEmpty(a: seq<Event>, b: seq<Event>, c: seq<Event>)
    requires a == []
    ensures a + b + c == b + c
  {
  }

  lemma AppendThreeToEmpty(a: seq<Event>, b: seq<Event>, c: seq<Event>, d: seq<Event>)
    requires a == []
    ensures a + b + c + d == b + c + d
  {
  }

  // ---- the hardware the driver holds ----

  /** The chip-select, data/command and reset lines, the SPI bus and the
      clock, seen only through what the driver does to them. */
  class Bus {
    var trace: seq<Event>

    constructor ()
      ensures trace == []
    {
      trace := [];
    }

    /** `_send`: one command transaction. */
    method Send(op: bv8, data: seq<bv8>)
      modifies this
      ensures trace == old(trace) + SendEvents(op, data)
    {
      trace := trace + [Dc(Low)];
      trace := trace + [Cs(Low)];
      trace := trace + [Write([op])];
      trace := trace + [Cs(High)];
      trace := trace + [Dc(High)];
      if data != [] {
        trace := trace + [Cs(Low)];
        trace := trace + [Write(data)];
        trace := trace + [Cs(High)];
      }
    }

    /** The reset pulse at the start of `_init`. */
    method Reset()
      modifies this
      ensures trace == old(trace) + ResetPulse()
    {
      trace := trace + [Sleep(50)];
      trace := trace + [Res(Low)];
      trace := trace + [Sleep(100)];
      trace := trace + [Res(High)];
    }

    /** One pass of the replay loop of `_init`: a tuple is sent, an integer
        is slept on. */
    method Step(e: Entry)
      modifies this
      ensures trace == old(trace) + EntryEvents(e)
    {
      match e
      case Command(op, data) => Send(op, data);
      case Delay(ms) => trace := trace + [Sleep(ms)];
    }

    /** The replay loop of `_init`: the table in order. */
    method Play(table: seq<Entry>)
      modifies this
      ensures trace == old(trace) + Replay(table)
    {
      ghost var start := trace;
      for n := 0 to |table|
        invariant trace == start + Replay(table[..n])
      {
        Step(table[n]);
        assert table[..n + 1] == table[..n] + [table[n]];
        ReplayAppend(table[..n], table[n]);
        assert trace == start + (Replay(table[..n]) + EntryEvents(table[n]));
      }
      assert table[..|table|] == table;
    }

    /** `_init`: the reset pulse, then the table. */
    method Init(table: seq<Entry>)
      modifies this
      ensures trace == old(trace) + ResetPulse() + Replay(table)
    {
      Reset();
      Play(table);
    }
  }
}
