/** One iteration of the polling loop of `main`. */
module Polling {
  import opened Transport
  import opened Registers
  import opened Sampler
  import opened Mapper
  import opened Protocol
  import opened Bus

  /** The variables of `main` that survive from one iteration to the next. */
  datatype LoopState = LoopState(x: u16, y: u16, z1: u16, z2: u16)

  /** The transport's answers for one iteration: the four transfers in the order the
      core asks for them and the `XSpi_SetOptions` results of the two reconfigurations. */
  datatype Script = Script(z1: Reply, z2: Reply, x: Reply, y: Reply,
                           coordinatesOptionsOk: bool, printOptionsOk: bool)

  /** One pass of the `while (1)` body: test for a touch; when touched, read the
      coordinates and show them. The bus is never left with the display, so the
      next pass may start at once. */
  method PollStep(spi: Spi, s: LoopState, script: Script) returns (touched: bool, s': LoopState)
    requires spi.Valid() && spi.FifoState() != Dirty(Lcd)
    modifies spi
    ensures spi.Valid() && spi.FifoState() != Dirty(Lcd)
    ensures s'.z1 == SampleOf(script.z1) && s'.z2 == SampleOf(script.z2)
    ensures touched == TouchDetected(s'.z1, s'.z2)
    ensures touched ==> s'.x == SampleOf(script.x) && s'.y == SampleOf(script.y)
    ensures !touched ==> s'.x == s.x && s'.y == s.y
    ensures !touched ==> spi.trace == old(spi.trace) + PressureEvents(script.z1.ok, script.z2.ok)
    ensures touched ==>
              spi.trace == old(spi.trace) + PressureEvents(script.z1.ok, script.z2.ok)
                + (CoordinateEvents(script.x.ok, script.y.ok, script.coordinatesOptionsOk)
                   + PrintEvents(s'.x, s'.y, script.printOptionsOk))
    ensures touched ==> spi.BusSession() == Released && spi.FifoState() == Flushed && spi.slaveSelect == SELECT_NONE
    ensures touched ==> spi.control == spi.ControlAfterReconfigure(script.printOptionsOk)
                        && spi.configured == script.printOptionsOk
    ensures !touched ==> spi.control == old(spi.control) && spi.configured == old(spi.configured)
    ensures !touched ==> spi.slaveSelect == if script.z2.ok then SELECT_NONE else SELECT_TOUCH
    ensures !touched ==> spi.FifoState() == Dirty(TouchController)
  {
    var z1, z2;
    ghost var p := PressureEvents(script.z1.ok, script.z2.ok);
    touched, z1, z2 := spi.IsTouched(script.z1, script.z2);
    ghost var t1 := spi.trace;
    assert t1 == old(spi.trace) + p;
    if touched {
      var x, y := spi.GetTouchCoordinates(script.x, script.y, script.coordinatesOptionsOk);
      ghost var c := CoordinateEvents(script.x.ok, script.y.ok, script.coordinatesOptionsOk);
      assert spi.trace == t1 + c;
      spi.PrintToScr(x, y, script.printOptionsOk);
      ghost var pr := PrintEvents(x, y, script.printOptionsOk);
      assert spi.trace == (t1 + c) + pr;
      AppendAssoc(t1, c, pr);
      s' := LoopState(x, y, z1, z2);
    } else {
      s' := s.(z1 := z1, z2 := z2);
    }
  }

  /** The worked example: with both transfers of pressures 50 and 100 and of raw
      X = 980 and Y = 1050 successful, the compiled-in calibration shows (118, 160).
      Such answers exist: `Sampler.ResponseFor` builds one for every 12-bit value. */
  method ExamplePoll(spi: Spi, z1: Reply, z2: Reply, x: Reply, y: Reply)
    requires spi.Valid() && spi.FifoState() != Dirty(Lcd)
    requires z1.ok && z2.ok && x.ok && y.ok
    requires SampleOf(z1) == 50 && SampleOf(z2) == 100
    requires SampleOf(x) == 980 && SampleOf(y) == 1050
    modifies spi
    ensures |spi.trace| >= 3 && spi.trace[|spi.trace| - 3] == DisplayCoordinates(118, 160)
    ensures spi.slaveSelect == SELECT_NONE && spi.BusSession() == Released && spi.FifoState() == Flushed
  {
    var touched, s := PollStep(spi, LoopState(0, 0, 0, 0), Script(z1, z2, x, y, true, true));
    assert touched;
    assert s == LoopState(980, 1050, 50, 100);
    ghost var pr := PrintEvents(980, 1050, true);
    assert spi.trace == old(spi.trace) + PressureEvents(true, true) + (CoordinateEvents(true, true, true) + pr);
    assert pr[1] == ShownCoordinates(980, 1050);
    CalibratedValues();
    assert spi.trace[|spi.trace| - 3] == pr[1];
  }
}
