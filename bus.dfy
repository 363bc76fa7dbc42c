/** The SPI master shared by the display and the touch controller, with the
    operations of touch.c that drive it. The `XSpi` driver handle becomes the
    class `Spi`; the driver calls the core makes are its primitive methods. */
module Bus {
  import opened Transport
  import opened Registers
  import opened Sampler
  import opened Mapper
  import opened Protocol

  /** The settling delay after each slave-select change of `read_touch`. */
  const SETTLE_US: nat := 3000

  /** The bus history of one `read_touch(command)`: select the touch controller,
      settle, exchange the command frame, and only on success deselect and settle. */
  function ReadTouchEvents(command: byte, ok: bool): (t: seq<Event>)
    ensures |t| == if ok then 5 else 3
    ensures t[0] == SlaveSelectWrite(SELECT_TOUCH) && t[2] == Transfer(CommandFrame(command), ok)
    ensures ok ==> t[3] == SlaveSelectWrite(SELECT_NONE)
  {
    [SlaveSelectWrite(SELECT_TOUCH), Settle(SETTLE_US), Transfer(CommandFrame(command), ok)]
      + (if ok then [SlaveSelectWrite(SELECT_NONE), Settle(SETTLE_US)] else [])
  }

  /** A `read_touch` never resets or reconfigures the controller and never touches
      the display. */
  lemma ReadTouchLeavesControllerAlone(command: byte, ok: bool)
    ensures forall e :: e in ReadTouchEvents(command, ok) ==> !e.Reset? && !e.Configure? && !e.DisplayInit? && !e.DisplayCoordinates?
  {
  }

  /** The reset-and-reconfigure cycle that ends `init_screen`, every display update
      and every `get_touch_coordinates`: `XSpi_Reset` followed by `configSpi`. */
  function ReconfigureEvents(optionsOk: bool): seq<Event>
  {
    [Reset, Configure(optionsOk)]
  }

  /** The bus history of `is_touched`: a Z1 read, then a Z2 read. */
  function PressureEvents(z1Ok: bool, z2Ok: bool): seq<Event>
  {
    ReadTouchEvents(CMD_READ_Z1, z1Ok) + ReadTouchEvents(CMD_READ_Z2, z2Ok)
  }

  /** The bus history of `get_touch_coordinates`: an X read, a Y read, then one reset
      and one reconfiguration. */
  function CoordinateEvents(xOk: bool, yOk: bool, optionsOk: bool): seq<Event>
  {
    ReadTouchEvents(CMD_READ_X, xOk) + ReadTouchEvents(CMD_READ_Y, yOk) + ReconfigureEvents(optionsOk)
  }

  /** The bus history of `init_screen`: select the LCD, initialise it, deselect, then
      reset and reconfigure. */
  function InitScreenEvents(optionsOk: bool): seq<Event>
  {
    [SlaveSelectWrite(SELECT_LCD), DisplayInit, SlaveSelectWrite(SELECT_NONE)] + ReconfigureEvents(optionsOk)
  }

  /** The coordinates `printToScr(x, y)` shows: both raw values mapped with the
      compiled-in calibration. */
  function ShownCoordinates(x: u16, y: u16): Event
  {
    CalibrationValid();
    DisplayCoordinates(MapTouchToScreen(x, X_MIN, X_MAX, SCREEN_WIDTH),
                       MapTouchToScreen(y, Y_MIN, Y_MAX, SCREEN_HEIGHT))
  }

  /** The bus history of `printToScr(x, y)`: select the LCD, show the mapped
      coordinates, then reset and reconfigure with no deselect of its own. */
  function PrintEvents(x: u16, y: u16, optionsOk: bool): seq<Event>
  {
    [SlaveSelectWrite(SELECT_LCD), ShownCoordinates(x, y)] + ReconfigureEvents(optionsOk)
  }

  /** `is_touched` neither resets nor reconfigures the controller. */
  lemma PressureKeepsConfiguration(z1Ok: bool, z2Ok: bool)
    ensures forall e :: e in PressureEvents(z1Ok, z2Ok) ==> !e.Reset? && !e.Configure?
  {
  }

  /** `get_touch_coordinates` resets and reconfigures exactly once, after both
      reads. */
  lemma CoordinatesResetOnce(xOk: bool, yOk: bool, optionsOk: bool)
    ensures var t := CoordinateEvents(xOk, yOk, optionsOk);
      |t| >= 2 && t[|t| - 2] == Reset && t[|t| - 1] == Configure(optionsOk) &&
      forall i :: 0 <= i < |t| - 2 ==> !t[i].Reset? && !t[i].Configure?
  {
  }

  /** `printToScr` only ever writes the LCD's select value: it never deselects. */
  lemma PrintNeverDeselects(x: u16, y: u16, optionsOk: bool)
    ensures forall e :: e in PrintEvents(x, y, optionsOk) && e.SlaveSelectWrite? ==> e.value == SELECT_LCD
  {
  }

  /** Writing a device's select value hands it the bus and the FIFO, which is
      permitted unless the FIFO still holds the other device's data. */
  lemma TakeBus(t: seq<Event>, v: bv32, d: Device)
    requires v == (if d == Lcd then SELECT_LCD else SELECT_TOUCH)
    requires FifoOf(t) != Dirty(Other(d))
    ensures Permitted(SessionOf(t), SlaveSelectWrite(v)) && After(SessionOf(t), SlaveSelectWrite(v)) == Held(d)
    ensures Flushes(FifoOf(t), SlaveSelectWrite(v)) && FifoAfter(FifoOf(t), SlaveSelectWrite(v)) == Dirty(d)
  {
    HeldIsDirty(t);
  }

  /** Writing the all-high value releases the bus, whoever held it, and leaves the
      FIFO as it was. */
  lemma ReleaseBus(s: Session, f: Fifo)
    ensures Permitted(s, SlaveSelectWrite(SELECT_NONE)) && After(s, SlaveSelectWrite(SELECT_NONE)) == Released
    ensures Flushes(f, SlaveSelectWrite(SELECT_NONE)) && FifoAfter(f, SlaveSelectWrite(SELECT_NONE)) == f
  {
  }

  class Spi {
    /** The slave-select register (active low). */
    var slaveSelect: bv32
    /** The control register. */
    var control: bv32
    /** Set by a successful `configSpi`, cleared by a reset: the driver is started. */
    var configured: bool
    /** Everything the core has done to the bus so far. */
    var trace: seq<Event>
    /** The control word the controller loads on every `XSpi_Reset`; the hardware
        defines it, so the model takes it as given. */
    const controlAtReset: bv32

    /** The history kept the discipline, the register never asserts both select
        lines, and it stands for the session the history has left the bus in. */
    ghost predicate Valid()
      reads this
    {
      Disciplined(trace) &&
      !(IsSelected(slaveSelect, Lcd) && IsSelected(slaveSelect, TouchController)) &&
      SessionOf(trace) == Holder(slaveSelect)
    }

    /** The control word after a reset followed by `configSpi`. */
    function ControlAfterReconfigure(optionsOk: bool): bv32
    {
      if optionsOk then Reconfigured(controlAtReset) else controlAtReset
    }

    /** Which device holds the bus. */
    ghost function BusSession(): Session
      reads this
    {
      SessionOf(trace)
    }

    /** Whose data the controller's FIFO may still hold. */
    ghost function FifoState(): Fifo
      reads this
    {
      FifoOf(trace)
    }

    /** The handle after `XSpi_CfgInitialize`: no slave selected, whatever the
        control register holds, not started and nothing done yet. */
    constructor (control0: bv32, controlAtReset0: bv32)
      ensures Valid() && BusSession() == Released && FifoState() == Flushed
      ensures slaveSelect == SELECT_NONE && control == control0 && !configured && trace == []
      ensures controlAtReset == controlAtReset0
    {
      slaveSelect, control, configured, trace := SELECT_NONE, control0, false, [];
      controlAtReset := controlAtReset0;
      HolderValues();
    }

    /** Appends one permitted event to the history. */
    method Record(e: Event)
      requires Disciplined(trace) && Permitted(BusSession(), e) && Flushes(FifoState(), e)
      modifies this`trace
      ensures Disciplined(trace) && BusSession() == After(old(BusSession()), e)
      ensures FifoState() == FifoAfter(old(FifoState()), e)
      ensures trace == old(trace) + [e]
    {
      Extend(trace, e);
      trace := trace + [e];
    }

    /** `XSpi_SetSlaveSelectReg`: write the slave-select register directly. */
    method SetSlaveSelectReg(value: bv32)
      requires Valid() && Permitted(BusSession(), SlaveSelectWrite(value)) && Flushes(FifoState(), SlaveSelectWrite(value))
      modifies this
      ensures Valid() && BusSession() == After(old(BusSession()), SlaveSelectWrite(value)) == Holder(value)
      ensures FifoState() == FifoAfter(old(FifoState()), SlaveSelectWrite(value))
      ensures slaveSelect == value && control == old(control) && configured == old(configured)
      ensures trace == old(trace) + [SlaveSelectWrite(value)]
    {
      WriteSetsHolder(BusSession(), value);
      Record(SlaveSelectWrite(value));
      slaveSelect := value;
    }

    /** `XSpi_SetSlaveSelect`: select the slaves whose bits are set in `mask`, which
        leaves those bits low in the register. */
    method SetSlaveSelect(mask: bv32)
      requires Valid() && Permitted(BusSession(), SlaveSelectWrite(!mask)) && Flushes(FifoState(), SlaveSelectWrite(!mask))
      modifies this
      ensures Valid() && BusSession() == After(old(BusSession()), SlaveSelectWrite(!mask))
      ensures FifoState() == FifoAfter(old(FifoState()), SlaveSelectWrite(!mask))
      ensures slaveSelect == !mask && control == old(control) && configured == old(configured)
      ensures trace == old(trace) + [SlaveSelectWrite(!mask)]
    {
      SetSlaveSelectReg(!mask);
    }

    /** `usleep`: recorded, nothing else changes. */
    method Sleep(microseconds: nat)
      requires Valid()
      modifies this
      ensures Valid() && BusSession() == old(BusSession()) && FifoState() == old(FifoState())
      ensures slaveSelect == old(slaveSelect) && control == old(control) && configured == old(configured)
      ensures trace == old(trace) + [Settle(microseconds)]
    {
      Record(Settle(microseconds));
    }

    /** `XSpi_Transfer` of three bytes with the scripted outcome `reply`: on success
        the received bytes land in `rx`. */
    method Transfer(tx: array<byte>, rx: array<byte>, reply: Reply) returns (ok: bool)
      requires tx.Length == 3 && rx.Length == 3
      requires Valid() && BusSession().Held?
      modifies this, rx
      ensures Valid() && BusSession() == old(BusSession()) && FifoState() == old(FifoState())
      ensures ok == reply.ok
      ensures rx[..] == if ok then reply.rx else old(rx[..])
      ensures slaveSelect == old(slaveSelect) && control == old(control) && configured == old(configured)
      ensures trace == old(trace) + [Protocol.Transfer(old(tx[..]), ok)]
    {
      Record(Protocol.Transfer(tx[..], reply.ok));
      ok := reply.ok;
      if ok {
        rx[0], rx[1], rx[2] := reply.rx[0], reply.rx[1], reply.rx[2];
        assert rx[..] == reply.rx;
      }
    }

    /** `XSpi_Reset`: the slave-select register returns to its all-ones reset value,
        which deselects every slave, the control register to its reset value, and
        the controller must be configured again before use. */
    method Reset()
      requires Valid()
      modifies this
      ensures Valid() && BusSession() == Released && FifoState() == Flushed
      ensures slaveSelect == SELECT_NONE && control == controlAtReset && !configured
      ensures trace == old(trace) + [Protocol.Reset]
    {
      Record(Protocol.Reset);
      slaveSelect := SELECT_NONE;
      control := controlAtReset;
      configured := false;
      HolderValues();
    }

    /** `configSpi`: when `XSpi_SetOptions` succeeds (`optionsOk`), set the enable
        and master bits, clear the inhibit bit and start the driver; when it fails,
        return early with the control register untouched. */
    method ConfigSpi(optionsOk: bool)
      requires Valid()
      modifies this
      ensures Valid() && BusSession() == old(BusSession()) && FifoState() == old(FifoState())
      ensures slaveSelect == old(slaveSelect)
      ensures control == if optionsOk then Reconfigured(old(control)) else old(control)
      ensures configured == (optionsOk || old(configured))
      ensures trace == old(trace) + [Configure(optionsOk)]
    {
      Record(Configure(optionsOk));
      if !optionsOk {
        return;
      }
      control := Reconfigured(control);
      configured := true;
    }

    /** `XSpi_Reset(&spi); configSpi();`, the closing pair of `init_screen`,
        `printToScr` and `get_touch_coordinates`. */
    method ResetAndConfigure(optionsOk: bool)
      requires Valid()
      modifies this
      ensures Valid() && BusSession() == Released && FifoState() == Flushed
      ensures slaveSelect == SELECT_NONE
      ensures control == ControlAfterReconfigure(optionsOk)
      ensures configured == optionsOk
      ensures trace == old(trace) + ReconfigureEvents(optionsOk)
    {
      Reset();
      ConfigSpi(optionsOk);
    }

    /** `init_screen`: select the LCD, initialise and clear it, deselect, then reset
        and reconfigure the controller. */
    method InitScreen(optionsOk: bool)
      requires Valid() && FifoState() != Dirty(TouchController)
      modifies this
      ensures Valid() && BusSession() == Released && FifoState() == Flushed
      ensures trace == old(trace) + InitScreenEvents(optionsOk)
      ensures slaveSelect == SELECT_NONE
      ensures !IsSelected(slaveSelect, Lcd) && !IsSelected(slaveSelect, TouchController)
      ensures control == ControlAfterReconfigure(optionsOk)
      ensures configured == optionsOk
    {
      ghost var t0 := trace;
      SelectValues();
      TakeBus(trace, SELECT_LCD, Lcd);
      SetSlaveSelectReg(SELECT_LCD);
      Record(DisplayInit);
      SetSlaveSelectReg(SELECT_NONE);
      ghost var t1 := trace;
      assert t1 == t0 + [SlaveSelectWrite(SELECT_LCD), DisplayInit, SlaveSelectWrite(SELECT_NONE)];
      ResetAndConfigure(optionsOk);
      AppendAssoc(t0, [SlaveSelectWrite(SELECT_LCD), DisplayInit, SlaveSelectWrite(SELECT_NONE)], ReconfigureEvents(optionsOk));
    }

    /** The two stack buffers of `read_touch`: `{command, 0x00, 0x00}` and `{0}`. */
    static method FrameBuffers(command: byte) returns (txBuf: array<byte>, rxBuf: array<byte>)
      ensures fresh(txBuf) && fresh(rxBuf) && txBuf.Length == 3 && rxBuf.Length == 3
      ensures txBuf[..] == CommandFrame(command) && rxBuf[..] == [0, 0, 0]
    {
      txBuf := new byte[3] [command, 0x00, 0x00];
      rxBuf := new byte[3] [0, 0, 0];
    }

    /** The first half of `read_touch`: build `{command, 0, 0}`, select the touch
        controller, settle and exchange the frame. */
    method Exchange(command: byte, reply: Reply) returns (ok: bool, rx: Frame)
      requires Valid() && FifoState() != Dirty(Lcd)
      modifies this
      ensures Valid() && BusSession() == Held(TouchController) && FifoState() == Dirty(TouchController)
      ensures ok == reply.ok && (ok ==> rx == reply.rx)
      ensures trace == old(trace) + [SlaveSelectWrite(SELECT_TOUCH), Settle(SETTLE_US), Protocol.Transfer(CommandFrame(command), ok)]
      ensures slaveSelect == SELECT_TOUCH && control == old(control) && configured == old(configured)
    {
      var txBuf, rxBuf := FrameBuffers(command);
      ghost var t0 := trace;
      TakeBus(trace, SELECT_TOUCH, TouchController);
      SetSlaveSelect(TOUCH_SELECT_BIT);
      Sleep(SETTLE_US);
      ghost var t1 := trace;
      assert t1 == t0 + [SlaveSelectWrite(SELECT_TOUCH), Settle(SETTLE_US)];
      ok := Transfer(txBuf, rxBuf, reply);
      AppendAssoc(t0, [SlaveSelectWrite(SELECT_TOUCH), Settle(SETTLE_US)], [Protocol.Transfer(CommandFrame(command), ok)]);
      rx := rxBuf[..];
    }

    /** `read_touch`: exchange `{command, 0, 0}` with the touch controller and decode
        the answer. A failed transfer returns 0 at once, leaving the touch controller
        selected. */
    method ReadTouch(command: byte, reply: Reply) returns (sample: u16)
      requires Valid() && FifoState() != Dirty(Lcd)
      modifies this
      ensures Valid() && FifoState() == Dirty(TouchController)
      ensures sample == SampleOf(reply)
      ensures trace == old(trace) + ReadTouchEvents(command, reply.ok)
      ensures slaveSelect == if reply.ok then SELECT_NONE else SELECT_TOUCH
      ensures BusSession() == if reply.ok then Released else Held(TouchController)
      ensures control == old(control) && configured == old(configured)
    {
      ghost var t0 := trace;
      var ok, rx := Exchange(command, reply);
      if !ok {
        return 0;
      }
      ReleaseBus(BusSession(), FifoState());
      SetSlaveSelectReg(SELECT_NONE);
      Sleep(SETTLE_US);
      AppendAssoc(t0, [SlaveSelectWrite(SELECT_TOUCH), Settle(SETTLE_US), Protocol.Transfer(CommandFrame(command), ok)],
                  [SlaveSelectWrite(SELECT_NONE), Settle(SETTLE_US)]);
      sample := DecodeSample(rx);
    }

    /** `get_touch_coordinates`: read X, then Y, then reset and reconfigure once. */
    method GetTouchCoordinates(xReply: Reply, yReply: Reply, optionsOk: bool) returns (x: u16, y: u16)
      requires Valid() && FifoState() != Dirty(Lcd)
      modifies this
      ensures Valid() && BusSession() == Released && FifoState() == Flushed
      ensures x == SampleOf(xReply) && y == SampleOf(yReply)
      ensures trace == old(trace) + CoordinateEvents(xReply.ok, yReply.ok, optionsOk)
      ensures slaveSelect == SELECT_NONE
      ensures control == ControlAfterReconfigure(optionsOk)
      ensures configured == optionsOk
    {
      ghost var t0 := trace;
      x := ReadTouch(CMD_READ_X, xReply);
      y := ReadTouch(CMD_READ_Y, yReply);
      ResetAndConfigure(optionsOk);
      ghost var rx, ry := ReadTouchEvents(CMD_READ_X, xReply.ok), ReadTouchEvents(CMD_READ_Y, yReply.ok);
      AppendAssoc(t0, rx, ry);
      AppendAssoc(t0, rx + ry, ReconfigureEvents(optionsOk));
    }

    /** `is_touched`: read Z1, then Z2, and apply the pressure test; no reset. */
    method IsTouched(z1Reply: Reply, z2Reply: Reply) returns (touched: bool, z1: u16, z2: u16)
      requires Valid() && FifoState() != Dirty(Lcd)
      modifies this
      ensures Valid() && FifoState() == Dirty(TouchController)
      ensures z1 == SampleOf(z1Reply) && z2 == SampleOf(z2Reply)
      ensures touched == TouchDetected(z1, z2)
      ensures trace == old(trace) + PressureEvents(z1Reply.ok, z2Reply.ok)
      ensures slaveSelect == if z2Reply.ok then SELECT_NONE else SELECT_TOUCH
      ensures BusSession() == if z2Reply.ok then Released else Held(TouchController)
      ensures control == old(control) && configured == old(configured)
    {
      ghost var t0 := trace;
      z1 := ReadTouch(CMD_READ_Z1, z1Reply);
      z2 := ReadTouch(CMD_READ_Z2, z2Reply);
      AppendAssoc(t0, ReadTouchEvents(CMD_READ_Z1, z1Reply.ok), ReadTouchEvents(CMD_READ_Z2, z2Reply.ok));
      touched := TouchDetected(z1, z2);
    }

    /** The bus side of `printToScr`: select the LCD, show the mapped coordinates,
        then reset and reconfigure without an explicit deselect; the reset is what
        deselects the LCD. */
    method PrintToScr(x: u16, y: u16, optionsOk: bool)
      requires Valid() && FifoState() != Dirty(TouchController)
      modifies this
      ensures Valid() && BusSession() == Released && FifoState() == Flushed
      ensures trace == old(trace) + PrintEvents(x, y, optionsOk)
      ensures slaveSelect == SELECT_NONE
      ensures !IsSelected(slaveSelect, Lcd) && !IsSelected(slaveSelect, TouchController)
      ensures control == ControlAfterReconfigure(optionsOk)
      ensures configured == optionsOk
    {
      ghost var t0 := trace;
      SelectValues();
      CalibrationValid();
      TakeBus(trace, SELECT_LCD, Lcd);
      SetSlaveSelectReg(SELECT_LCD);
      var screenX := MapTouchToScreen(x, X_MIN, X_MAX, SCREEN_WIDTH);
      var screenY := MapTouchToScreen(y, Y_MIN, Y_MAX, SCREEN_HEIGHT);
      Record(DisplayCoordinates(screenX, screenY));
      ghost var t1 := trace;
      assert t1 == t0 + [SlaveSelectWrite(SELECT_LCD), ShownCoordinates(x, y)];
      ResetAndConfigure(optionsOk);
      AppendAssoc(t0, [SlaveSelectWrite(SELECT_LCD), ShownCoordinates(x, y)], ReconfigureEvents(optionsOk));
    }

    /** The SPI bring-up of `main` and the screen initialisation: reset, configure
        (a failed `XSpi_SetOptions` ends start-up), then `init_screen`. */
    method Startup(optionsOk: bool, screenOptionsOk: bool) returns (optionsSet: bool)
      requires Valid()
      modifies this
      ensures Valid() && BusSession() == Released && FifoState() == Flushed && slaveSelect == SELECT_NONE
      ensures optionsSet == optionsOk
      ensures !optionsSet ==> trace == old(trace) + ReconfigureEvents(false)
      ensures !optionsSet ==> control == controlAtReset && !configured
      ensures optionsSet ==> trace == old(trace) + ReconfigureEvents(true) + InitScreenEvents(screenOptionsOk)
      ensures optionsSet ==> control == ControlAfterReconfigure(screenOptionsOk) && configured == screenOptionsOk
    {
      ResetAndConfigure(optionsOk);
      if !optionsOk {
        return false;
      }
      InitScreen(screenOptionsOk);
      optionsSet := true;
    }
  }
}
