/** The 2.13 inch panel: a 250 x 120 monochrome frame buffer in front of an
    ST7302 controller, whose glass has two more lines than the buffer. */
module St7302 {
  import opened Bits
  import opened Packing
  import opened Wire

  // Geometry: 250 columns by 15 bands of 8 rows in the frame buffer; the
  // controller sees 125 column pairs by 10 groups of 12 rows, 3 bytes each.
  const Width: nat := 250
  const Bands: nat := 15
  const FrameSize: nat := 125 * 10 * 3

  /** The cached address window sent by every refresh. */
  const Caset: seq<bv8> := [0x19, 0x19 + 10 - 1]
  const Raset: seq<bv8> := [0x00, 0x00 + 125 - 1]

  /** The window cleared once at start-up: the single column address after
      the refresh window, which holds the two lines the buffer does not. */
  const ClearColumn: seq<bv8> := [0x19 + 10, 0x19 + 10]
  const ClearRows: seq<bv8> := [0x00, 0x00 + 125 - 1]

  /** The start-up table, entry by entry: a command with its parameter
      bytes, or a pause in milliseconds. The entries the driver keeps
      commented out are not part of it. */
  function Commands(): seq<Entry>
  {
    seq(17, n requires 0 <= n < 17 => CommandAt(n))
  }

  /** Entry n of the start-up table, in the driver's order. */
  function CommandAt(n: nat): Entry
    requires n < 17
  {
    match n
    case 0 => Command(0xEB, [0x02])
    case 1 => Command(0xD7, [0x68])
    case 2 => Command(0xC0, [0x80])
    case 3 => Command(0xC1, [0x28, 0x28, 0x28, 0x28, 0x14, 0x00])
    case 4 => Command(0xC2, [0x00, 0x00, 0x00, 0x00])
    case 5 => Command(0xCB, [0x14])
    case 6 => Command(0xB4, [0xA5, 0x66, 0x01, 0x00, 0x00, 0x40, 0x01, 0x00, 0x00, 0x40])
    case 7 => Command(0x11, [])
    case 8 => Delay(100)
    case 9 => Command(0x36, [0x00])
    case 10 => Command(0x3A, [0x11])
    case 11 => Command(0xB0, [0x64])
    case 12 => Command(0xB8, [0x09])
    case 13 => Command(0xB2, [0x01, 0x05])
    case 14 => Command(0x39, [])
    case 15 => Command(0x29, [])
    case _ => Delay(100)
  }

  /** The commands that clear the two extra lines: the clear window, then
      125 * 3 bytes of the freshly filled frame buffer. */
  function ClearCommands(): seq<Entry>
  {
    RefreshCommands(ClearColumn, ClearRows, Zeros(125 * 3))
  }

  /** Where sleep-out, frame rate control, low-power mode and display-on sit
      in the table. */
  lemma CommandsLayout()
    ensures var t := Commands();
      |t| == 17 &&
      t[7] == Command(0x11, []) &&
      t[13] == Command(0xB2, [0x01, 0x05]) &&
      t[14] == Command(0x39, []) && t[15] == Command(0x29, [])
  {
  }

  /** The table pauses twice, 100 ms each: after sleep-out and at the end. */
  lemma CommandsPauses()
    ensures forall n :: 0 <= n < |Commands()| ==> (Commands()[n].Delay? <==> n == 8 || n == 16)
    ensures forall n :: 0 <= n < |Commands()| && Commands()[n].Delay? ==> Commands()[n].ms == 100
  {
  }

  /** Auto power control (0xD1), oscillator (0xC7) and source setting
      (0xB9) are never sent, gate EQ (0xB4) is sent once with the second of
      the two settings in the source, and the table sets no address window. */
  lemma CommandsOmitted()
    ensures forall n :: 0 <= n < |Commands()| && Commands()[n].Command? ==>
      Commands()[n].op !in {0xD1, 0xC7, 0xB9, 0x2A, 0x2B, 0x2C}
    ensures forall n :: 0 <= n < |Commands()| && Commands()[n].Command? && Commands()[n].op == 0xB4 ==>
      n == 6 && Commands()[n].payload[0] == 0xA5 && |Commands()[n].payload| == 10
    ensures Commands()[6] == Command(0xB4, [0xA5, 0x66, 0x01, 0x00, 0x00, 0x40, 0x01, 0x00, 0x00, 0x40])
  {
  }

  /** The clear window is the one column just past the refresh window, over
      the same rows, and its payload is one column of 125 rows of zeros. */
  lemma ClearWindow()
    ensures ClearColumn == [Caset[1] + 1, Caset[1] + 1] && ClearRows == Raset
    ensures var c := ClearCommands();
      c[2].op == 0x2C && |c[2].payload| == 125 * 3 &&
      forall n :: 0 <= n < |c[2].payload| ==> c[2].payload[n] == 0
  {
  }

  /** The geometry is one the packing supports, and both buffers have the
      same size. */
  lemma Geometry()
    ensures Shape(Width, Bands) && Width * Bands == FrameSize
    ensures FrameSize == 125 * 5 * 3 * 2 == 3750
    ensures Caset == [0x19, 0x22] && Raset == [0x00, 0x7C] && ClearColumn == [0x23, 0x23]
  {
  }

  /** The conversion's counter: half h of band r of column pair p is
      written at index 30p + 2r + h. */
  lemma {:induction false} CounterAt(p: nat, r: nat, h: nat)
    ensures Position(Bands, p, r, h) == 30 * p + 2 * r + h
  {
    TileStartIs(Bands, p);
  }

  class TFT213 {
    const bus: Bus
    /** The frame buffer, MONO_VLSB: byte r * 250 + c holds column c, rows 8r..8r+7. */
    const bs: array<bv8>
    /** The controller's frame, refilled by every conversion. */
    const bt: array<bv8>

    ghost predicate Valid()
      reads this
    {
      bs.Length == Width * Bands && bt.Length == FrameSize && bs != bt
    }

    ghost predicate Cleared()
      reads this, bs, bt
    {
      Blank(bs) && Blank(bt)
    }

    /** Allocates both buffers cleared, resets the panel, sends the
        start-up table and clears the two extra lines. */
    constructor ()
      ensures Valid() && Cleared() && fresh(bus) && fresh(bs) && fresh(bt)
      ensures bus.trace == ResetPulse() + Replay(Commands()) + Replay(ClearCommands())
    {
      var frame := NewBuffer(250 * 15);
      var packed := NewBuffer(125 * 10 * 3);
      bs := frame;
      bt := packed;
      bus := new Bus();
      new;
      ghost var t0 := bus.trace;
      Init();
      AppendThreeToEmpty(t0, ResetPulse(), Replay(Commands()), Replay(ClearCommands()));
    }

    /** `_init`: reset, the start-up table, then the clear. */
    method Init()
      requires Valid()
      modifies bus, bs
      ensures Blank(bs)
      ensures bus.trace == old(bus.trace) + ResetPulse() + Replay(Commands()) + Replay(ClearCommands())
    {
      bus.Init(Commands());
      ClearBottom();
    }

    /** The end of `_init`: `fill(0)`, then the clear window and the first
        125 * 3 bytes of the frame buffer. */
    method ClearBottom()
      requires Valid()
      modifies bus, bs
      ensures Blank(bs)
      ensures bus.trace == old(bus.trace) + Replay(ClearCommands())
    {
      forall n | 0 <= n < bs.Length {
        bs[n] := 0;
      }
      assert bs[0..125 * 3] == Zeros(125 * 3);
      bus.Send(0x2A, [0x19 + 10, 0x19 + 10]);
      bus.Send(0x2B, [0x00, 0x00 + 125 - 1]);
      bus.Send(0x2C, bs[0..125 * 3]);
      ReplayRefresh(ClearColumn, ClearRows, Zeros(125 * 3));
    }

    /** Packs the frame buffer into the controller's layout. */
    method Convert()
      requires Valid()
      modifies bt
      ensures bt[..] == Packed(bs[..], Width, Bands)
    {
      ghost var src := bs[..];
      var k := 0;
      var i := 0;
      while i < 250
        invariant 0 <= i <= 250 && i % 2 == 0
        invariant k == TileStart(15, i / 2) && k <= bt.Length
        invariant forall p: nat, r: nat, h: nat :: p < i / 2 && r < 15 && h < 2 ==>
          Position(15, p, r, h) < k && bt[Position(15, p, r, h)] == Cell(src, 250, p, r, h)
      {
        PositionInRange(250, 15, i / 2, 15 - 1, 1);
        k := ConvertColumns(i, k);
        i := i + 2;
      }
      LastPosition(250, 15);
      PackedFromCells(bt[..], src, 250, 15);
    }

    /** One pass of the outer loop of the conversion: columns i and i + 1,
        every band, from position k0 on. */
    method ConvertColumns(i: nat, k0: nat) returns (k: nat)
      requires Valid()
      requires i < 250 && i % 2 == 0 && k0 == TileStart(15, i / 2) && k0 + 2 * 15 <= bt.Length
      modifies bt
      ensures k == k0 + 2 * 15
      ensures forall r: nat, h: nat :: r < 15 && h < 2 ==>
        bt[Position(15, i / 2, r, h)] == Cell(bs[..], 250, i / 2, r, h)
      ensures forall m :: 0 <= m < k0 ==> bt[m] == old(bt[m])
      ensures forall m :: k0 + 2 * 15 <= m < bt.Length ==> bt[m] == old(bt[m])
    {
      ghost var src := bs[..];
      k := k0;
      var j := 0;
      while j < 15
        invariant 0 <= j <= 15 && j % 3 == 0
        invariant k == k0 + 2 * j
        invariant forall m :: 0 <= m < bt.Length && (m < k0 || k <= m) ==> bt[m] == old(bt[m])
        invariant forall r: nat, h: nat :: r < j && h < 2 ==>
          bt[Position(15, i / 2, r, h)] == Cell(src, 250, i / 2, r, h)
      {
        NextMultiple(j, 15, 3);
        for y := 0 to 3
          invariant k == k0 + 2 * (j + y)
          invariant forall m :: 0 <= m < bt.Length && (m < k0 || k <= m) ==> bt[m] == old(bt[m])
          invariant forall r: nat, h: nat :: r < j + y && h < 2 ==>
            bt[Position(15, i / 2, r, h)] == Cell(src, 250, i / 2, r, h)
        {
          ConvertBand(i, j + y, k);
          k := k + 2;
        }
        j := j + 3;
      }
    }

    /** The body of the innermost loop of the conversion: the two bytes of
        band r in columns i and i + 1, low nibbles then high nibbles. */
    method ConvertBand(i: nat, r: nat, k: nat)
      requires Valid()
      requires i < 250 && i % 2 == 0 && r < 15 && k + 1 < bt.Length
      modifies bt
      ensures bt[k] == Cell(bs[..], 250, i / 2, r, 0) && bt[k + 1] == Cell(bs[..], 250, i / 2, r, 1)
      ensures forall m :: 0 <= m < bt.Length && m != k && m != k + 1 ==> bt[m] == old(bt[m])
    {
      SourceInRange(250, 15, r, i + 1);
      var b1 := bs[r * 250 + i + 0];
      var b2 := bs[r * 250 + i + 1];
      bt[k] := Mix(b1, b2);
      b1 := b1 >> 4;
      b2 := b2 >> 4;
      bt[k + 1] := Mix(b1, b2);
    }

    /** Converts, then sends the window and the packed frame. */
    method Refresh()
      requires Valid()
      modifies bus, bt
      ensures bt[..] == Packed(bs[..], Width, Bands)
      ensures bus.trace == old(bus.trace) + Replay(RefreshCommands(Caset, Raset, bt[..]))
    {
      Convert();
      ghost var frame := bt[..];
      bus.Send(0x2A, Caset);
      bus.Send(0x2B, Raset);
      bus.Send(0x2C, bt[..]);
      ReplayRefresh(Caset, Raset, frame);
    }
  }
}
