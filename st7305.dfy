/** The 2.9 inch panel: a 384 x 168 monochrome frame buffer in front of an
    ST7305 controller. */
module St7305 {
  import opened Bits
  import opened Packing
  import opened Wire

  /** A frame-rate setting: the power-mode command sent near the end of the
      start-up table (0x38 high power, 0x39 low power) and the byte sent with
      frame rate control (0xB2). */
  datatype Framerate = Framerate(mode: bv8, rate: bv8)

  const Framerate1: Framerate := Framerate(0x39, 0x02)
  const Framerate8: Framerate := Framerate(0x39, 0x05)
  const Framerate16: Framerate := Framerate(0x38, 0x05)
  const Framerate32: Framerate := Framerate(0x38, 0x15)

  /** The four settings the driver offers, slowest first. */
  const Framerates: seq<Framerate> := [Framerate1, Framerate8, Framerate16, Framerate32]

  // Geometry: 384 columns by 21 bands of 8 rows in the frame buffer; the
  // controller sees 192 column pairs by 14 groups of 12 rows, 3 bytes each.
  const Width: nat := 384
  const Bands: nat := 21
  const FrameSize: nat := 192 * 14 * 3

  /** The cached address window sent by every refresh. */
  const Caset: seq<bv8> := [0x17, 0x17 + 14 - 1]
  const Raset: seq<bv8> := [0x00, 0x00 + 192 - 1]

  /** The start-up table for a given frame rate, entry by entry: a command
      with its parameter bytes, or a pause in milliseconds. */
  function Commands(framerate: Framerate): seq<Entry>
  {
    seq(27, n requires 0 <= n < 27 => CommandAt(framerate, n))
  }

  /** Entry n of the start-up table, in the driver's order. */
  function CommandAt(framerate: Framerate, n: nat): Entry
    requires n < 27
  {
    match n
    case 0 => Command(0xD6, [0x13, 0x02])
    case 1 => Command(0xD1, [0x01])
    case 2 => Command(0xC0, [0x08, 0x06])
    case 3 => Command(0xC1, [0x3C, 0x3E, 0x3C, 0x3C])
    case 4 => Command(0xC2, [0x23, 0x21, 0x23, 0x23])
    case 5 => Command(0xC4, [0x5A, 0x5C, 0x5A, 0x5A])
    case 6 => Command(0xC5, [0x37, 0x35, 0x37, 0x37])
    case 7 => Command(0xB2, [framerate.rate])
    case 8 => Command(0xB3, [0xE5, 0xF6, 0x17, 0x77, 0x77, 0x77, 0x77, 0x77, 0x77, 0x71])
    case 9 => Command(0xB4, [0x05, 0x46, 0x77, 0x77, 0x77, 0x77, 0x76, 0x45])
    case 10 => Command(0x62, [0x32, 0x03, 0x1F])
    case 11 => Command(0xB7, [0x13])
    case 12 => Command(0xB0, [0x60])
    case 13 => Command(0x11, [])
    case 14 => Delay(100)
    case 15 => Command(0xC9, [0x00])
    case 16 => Command(0x36, [0x00])
    case 17 => Command(0x3A, [0x11])
    case 18 => Command(0xB9, [0x20])
    case 19 => Command(0xB8, [0x29])
    case 20 => Command(0x2A, [0x17, 0x24])
    case 21 => Command(0x2B, [0x00, 0xBF])
    case 22 => Command(0x35, [0x00])
    case 23 => Command(0xD0, [0xFF])
    case 24 => Command(framerate.mode, [])
    case 25 => Command(0x29, [])
    case _ => Delay(100)
  }

  /** Where the frame rate, the pauses and the address window sit in the
      table. */
  lemma CommandsLayout(framerate: Framerate)
    ensures var t := Commands(framerate);
      |t| == 27 &&
      t[7] == Command(0xB2, [framerate.rate]) &&
      t[24] == Command(framerate.mode, []) && t[25] == Command(0x29, []) &&
      t[20] == Command(0x2A, Caset) && t[21] == Command(0x2B, Raset) &&
      t[13] == Command(0x11, [])
  {
  }

  /** The table pauses twice, 100 ms each: after sleep-out and at the end. */
  lemma CommandsPauses(framerate: Framerate)
    ensures forall n :: 0 <= n < |Commands(framerate)| ==>
      (Commands(framerate)[n].Delay? <==> n == 14 || n == 26)
    ensures forall n :: 0 <= n < |Commands(framerate)| && Commands(framerate)[n].Delay? ==>
      Commands(framerate)[n].ms == 100
  {
  }

  /** Two frame rates give tables that agree everywhere except the frame
      rate control byte and the power-mode command. */
  lemma FramerateOnlyAt(f: Framerate, g: Framerate)
    ensures forall n :: 0 <= n < 27 && n != 7 && n != 24 ==> Commands(f)[n] == Commands(g)[n]
    ensures Commands(f) == Commands(g) <==> f == g
  {
    if Commands(f) == Commands(g) {
      assert Commands(f)[7].payload[0] == Commands(g)[7].payload[0];
      assert Commands(f)[24].op == Commands(g)[24].op;
    }
  }

  /** The four settings give four different start-up tables, and each one
      ends in low-power (0x39) or high-power (0x38) mode. */
  lemma FrameratesDiffer()
    ensures forall a, b :: 0 <= a < b < |Framerates| ==> Commands(Framerates[a]) != Commands(Framerates[b])
    ensures forall a :: 0 <= a < |Framerates| ==> Commands(Framerates[a])[24].op in {0x38, 0x39}
  {
    forall a, b | 0 <= a < b < |Framerates|
      ensures Commands(Framerates[a]) != Commands(Framerates[b])
    {
      FramerateOnlyAt(Framerates[a], Framerates[b]);
    }
  }

  /** Every pause in the table comes right after sleep-out or display-on. */
  lemma DelaysFollowWake(f: Framerate)
    ensures forall n :: 0 < n < |Commands(f)| && Commands(f)[n].Delay? ==>
      Commands(f)[n - 1] == Command(0x11, []) || Commands(f)[n - 1] == Command(0x29, [])
  {
  }

  /** The geometry is one the packing supports, and both buffers have the
      same size. */
  lemma Geometry()
    ensures Shape(Width, Bands) && Width * Bands == FrameSize
    ensures FrameSize == 192 * 7 * 3 * 2 == 8064
    ensures Caset == [0x17, 0x24] && Raset == [0x00, 0xBF]
  {
  }

  /** The conversion's counter: half h of band r of column pair p is
      written at index 42p + 2r + h. */
  lemma {:induction false} CounterAt(p: nat, r: nat, h: nat)
    ensures Position(Bands, p, r, h) == 42 * p + 2 * r + h
  {
    TileStartIs(Bands, p);
  }

  class TFT29 {
    const bus: Bus
    /** The frame buffer, MONO_VLSB: byte r * 384 + c holds column c, rows 8r..8r+7. */
    const bs: array<bv8>
    /** The controller's frame, refilled by every conversion. */
    const bt: array<bv8>

    ghost predicate Valid()
      reads this
    {
      bs.Length == Width * Bands && bt.Length == FrameSize && bs != bt
    }

    ghost predicate Cleared()
      reads this, bs, bt
    {
      Blank(bs) && Blank(bt)
    }

    /** Allocates both buffers cleared, then resets the panel and sends the
        start-up table. */
    constructor (framerate: Framerate := Framerate8)
      ensures Valid() && Cleared() && fresh(bus) && fresh(bs) && fresh(bt)
      ensures bus.trace == ResetPulse() + Replay(Commands(framerate))
    {
      var frame := NewBuffer(384 * 21);
      var packed := NewBuffer(192 * 14 * 3);
      bs := frame;
      bt := packed;
      bus := new Bus();
      new;
      ghost var t0 := bus.trace;
      bus.Init(Commands(framerate));
      AppendToEmpty(t0, ResetPulse(), Replay(Commands(framerate)));
    }

    /** Packs the frame buffer into the controller's layout. */
    method Convert()
      requires Valid()
      modifies bt
      ensures bt[..] == Packed(bs[..], Width, Bands)
    {
      ghost var src := bs[..];
      var k := 0;
      var i := 0;
      while i < 384
        invariant 0 <= i <= 384 && i % 2 == 0
        invariant k == TileStart(21, i / 2) && k <= bt.Length
        invariant forall p: nat, r: nat, h: nat :: p < i / 2 && r < 21 && h < 2 ==>
          Position(21, p, r, h) < k && bt[Position(21, p, r, h)] == Cell(src, 384, p, r, h)
      {
        PositionInRange(384, 21, i / 2, 21 - 1, 1);
        k := ConvertColumns(i, k);
        i := i + 2;
      }
      LastPosition(384, 21);
      PackedFromCells(bt[..], src, 384, 21);
    }

    /** One pass of the outer loop of the conversion: columns i and i + 1,
        every band, from position k0 on. */
    method ConvertColumns(i: nat, k0: nat) returns (k: nat)
      requires Valid()
      requires i < 384 && i % 2 == 0 && k0 == TileStart(21, i / 2) && k0 + 2 * 21 <= bt.Length
      modifies bt
      ensures k == k0 + 2 * 21
      ensures forall r: nat, h: nat :: r < 21 && h < 2 ==>
        bt[Position(21, i / 2, r, h)] == Cell(bs[..], 384, i / 2, r, h)
      ensures forall m :: 0 <= m < k0 ==> bt[m] == old(bt[m])
      ensures forall m :: k0 + 2 * 21 <= m < bt.Length ==> bt[m] == old(bt[m])
    {
      ghost var src := bs[..];
      k := k0;
      var j := 0;
      while j < 21
        invariant 0 <= j <= 21 && j % 3 == 0
        invariant k == k0 + 2 * j
        invariant forall m :: 0 <= m < bt.Length && (m < k0 || k <= m) ==> bt[m] == old(bt[m])
        invariant forall r: nat, h: nat :: r < j && h < 2 ==>
          bt[Position(21, i / 2, r, h)] == Cell(src, 384, i / 2, r, h)
      {
        NextMultiple(j, 21, 3);
        for y := 0 to 3
          invariant k == k0 + 2 * (j + y)
          invariant forall m :: 0 <= m < bt.Length && (m < k0 || k <= m) ==> bt[m] == old(bt[m])
          invariant forall r: nat, h: nat :: r < j + y && h < 2 ==>
            bt[Position(21, i / 2, r, h)] == Cell(src, 384, i / 2, r, h)
        {
          ConvertBand(i, j + y, k);
          k := k + 2;
        }
        j := j + 3;
      }
    }

    /** The body of the innermost loop of the conversion: the two bytes of
        band r in columns i and i + 1, low nibbles then high nibbles. */
    method ConvertBand(i: nat, r: nat, k: nat)
      requires Valid()
      requires i < 384 && i % 2 == 0 && r < 21 && k + 1 < bt.Length
      modifies bt
      ensures bt[k] == Cell(bs[..], 384, i / 2, r, 0) && bt[k + 1] == Cell(bs[..], 384, i / 2, r, 1)
      ensures forall m :: 0 <= m < bt.Length && m != k && m != k + 1 ==> bt[m] == old(bt[m])
    {
      SourceInRange(384, 21, r, i + 1);
      var b1 := bs[r * 384 + i + 0];
      var b2 := bs[r * 384 + i + 1];
      bt[k] := Mix(b1, b2);
      b1 := b1 >> 4;
      b2 := b2 >> 4;
      bt[k + 1] := Mix(b1, b2);
    }

    /** Converts, then sends the window and the packed frame. */
    method Refresh()
      requires Valid()
      modifies bus, bt
      ensures bt[..] == Packed(bs[..], Width, Bands)
      ensures bus.trace == old(bus.trace) + Replay(RefreshCommands(Caset, Raset, bt[..]))
    {
      Convert();
      ghost var frame := bt[..];
      bus.Send(0x2A, Caset);
      bus.Send(0x2B, Raset);
      bus.Send(0x2C, bt[..]);
      ReplayRefresh(Caset, Raset, frame);
    }
  }
}
