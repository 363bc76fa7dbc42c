# XPT2046 touch panel over a shared SPI bus — a Dafny model

The program polls an XPT2046 resistive touch controller and drives a display
controller, and both devices share one Xilinx AXI SPI master. Each pass of its main
loop does three things:
- It reads the two pressure channels (Z1, Z2) and decides whether the panel is
  pressed.
- When it is pressed, it reads the X and Y channels.
- It maps the raw 12-bit samples into pixel coordinates with a compiled-in
  calibration and shows them on the display.

Access to the bus is arbitrated by writes to the active-low slave-select register.
A reset-and-reconfigure cycle of the SPI controller ends the screen initialisation,
every display update and every `get_touch_coordinates`.

The model is split into these modules:

- **Transport**: C's `uint16_t` and `uint8_t`, the three-byte SPI frame, and the
  scripted answer (`Reply`) of one `XSpi_Transfer`.
- **Mapper**: `map_touch_to_screen` in C semantics: clamping, `int` promotion,
  truncating division and the `uint16_t` return. It also holds the calibration
  constants.
- **Sampler**: the command bytes, the `{command, 0, 0}` frame, and the decoding
  `((rx[1] << 8) | rx[2]) >> 4`, where `|` is written out bit by bit. It also holds
  the pressure test of `is_touched`.
- **Registers**: the slave-select decoding of `test_driver` and the control-register
  update of `configSpi`, both on `bv32`.
- **Protocol**: the bus history as a sequence of events and the discipline the core
  keeps on it:
  - never both devices selected;
  - never one device selected while the other holds the bus;
  - never one device selected while the controller's FIFO may still hold the
    other device's data (only a reset empties the FIFO, a deselect does not);
  - transfers only while a device is selected;
  - drawing only while the display holds the bus.
- **Bus**: the class `Spi`, which stands for the `XSpi` handle. Its fields are the
  slave-select register, the control register, the driver's started flag (`configured`), the
  history, and the control word the controller loads on a reset. Whose data the
  FIFO may hold (`FifoState()`) is read off the history.
  - The driver calls the core makes are primitive methods.
  - The functions of `touch.c` are methods proved against event-sequence functions.
  - Its invariant `Valid()` says three things. The history kept the discipline,
    the FIFO rule included.
    The slave-select register never asserts both select lines. The register stands
    for the bus owner the history leaves.
- **Polling**: one iteration of the `while (1)` loop of `main`.

The transport is nondeterministic. Every `XSpi_Transfer` outcome and every
`XSpi_SetOptions` result is a parameter, so each contract holds for every possible
outcome.

Points where the model follows the code rather than its comments or what a reader might expect:

- The comment at `touch.c:324` describes the touch test as "Z2 > Z1". The code tests
  `z1 > 10 && z2 < 2000`, and `Sampler.TouchDetected` follows the code.
- One consequence of that code: a failed Z2 read returns the sentinel 0, and 0 passes
  the Z2 test (`Sampler.FailedZ2StillTouches`).
- A mapper onto a 240-pixel axis would be expected to stay below 240. The code
  returns exactly `screen_size` once `raw >= raw_max`; for example, raw X 1800
  becomes 240.
  The model follows the code. `printToScr` only prints the number as text, so this
  value never becomes a pixel position.
- A shared-bus discipline would deselect before every change of owner.
  `printToScr` never deselects the LCD:
  - The `XSpi_Reset` that ends `printToScr` is what releases the bus.
  - The discipline therefore counts a reset as a release.
  - A deselect alone is not enough to hand the bus to the other device. The code
    resets the controller to empty its FIFO after every LCD session and after
    every `get_touch_coordinates` (`touch.c:258-260`, `278-280`, `314-316`).
    The discipline demands that reset between sessions of different devices
    (`Protocol.HandoffResets`).
  - `read_touch` takes the bus with one select write. When it runs, the bus is
    released or already held by the touch controller, and the FIFO holds no LCD
    data.
  - Every operation is proved to keep that discipline.
- `map_touch_to_screen` is also modelled with a reversed calibration
  (`raw_min > raw_max`). It then returns `screen_size` for every input. Only
  `raw_min == raw_max` (division by zero) and calls whose largest possible product
  `|raw_max - raw_min| * screen_size` overflows C's `int` are excluded.
- The Xilinx register layout (`xspi_l.h`) is not part of this model. The
  control-register masks 0x002 (enable), 0x004 (master mode) and 0x100 (transaction
  inhibit) are the values of that layout.

## Model

| member | source | states |
|---|---|---|
| Mapper.Clamp | Lab2B_app/src/touch.c:330-335 | within an ordered window the result lies inside it: a value below the window becomes `raw_min`, one above it becomes `raw_max`, and one inside is kept; for a reversed window it is `raw_max` |
| Mapper.MapTouchToScreen | Lab2B_app/src/touch.c:329-337 | for `raw_min < raw_max` the pixel lies in `[0, screen_size]`, is 0 for `raw <= raw_min` and exactly `screen_size` for `raw >= raw_max`; for a reversed window it is `screen_size`; requires a non-zero divisor and no `int` overflow |
| Mapper.MapValue | Lab2B_app/src/touch.c:336 | in an ordered window the C truncating division and the `uint16_t` cast change nothing: the pixel is the plain scaled quotient of the clamped value |
| Mapper.MapMonotone | Lab2B_app/src/touch.c:329-337 | a larger raw sample never maps to a smaller pixel |
| Mapper.MapClamps | Lab2B_app/src/touch.c:330-335 | every raw value below the window maps like `raw_min`, every one above it like `raw_max` |
| Mapper.CalibrationValid | Lab2B_app/src/touch.c:20-27 | both calibrated axes are ordered and their products fit in C's `int`, so `printToScr`'s two calls are defined |
| Mapper.CalibratedValues | Lab2B_app/src/touch.c:231-232 | with the compiled-in calibration raw X 980 shows as 118 and raw Y 1050 as 160; 0 and `x_min` show as 0; 5000 and `x_max` show as 240 |
| Sampler.OrDisjoint | Lab2B_app/src/touch.c:305 | or-ing a value below `2^k` into a multiple of `2^k` is addition |
| Sampler.DecodeSample | Lab2B_app/src/touch.c:305 | the sample is `rx[1] * 16 + rx[2] / 16` and never exceeds 4095 |
| Sampler.ResponseFor | Lab2B_app/src/touch.c:305 | every 12-bit value is the decoding of some frame, whatever the command byte and the discarded low nibble |
| Sampler.DecodeIgnoresFirstByte | Lab2B_app/src/touch.c:305 | the byte received while the command is clocked out plays no part in the sample |
| Sampler.SampleOf | Lab2B_app/src/touch.c:294-306 | the value `read_touch` returns is at most 4095, and it is 0 when the transfer fails |
| Sampler.TouchBoundaries | Lab2B_app/src/touch.c:325 | the touch test accepts (11, 1999) and rejects (10, 1999), (11, 2000) and (10, 2000) |
| Sampler.TouchDetected | Lab2B_app/src/touch.c:325 | the pressure test as the code writes it: Z1 above 10 and Z2 below 2000 |
| Sampler.FailedZ2StillTouches | Lab2B_app/src/touch.c:321-325 | a failed Z2 read returns 0, which passes the Z2 test, so a good Z1 above 10 reports a touch |
| Registers.IsSelected | Lab2B_app/src/touch.c:183-189 | a device is selected exactly when its bit of the register is low |
| Registers.SelectValues | Lab2B_app/src/touch.c:183-189 | `~0x01` selects the LCD alone, `~0x02` the touch controller alone, `~0x00` nothing |
| Registers.Reconfigured | Lab2B_app/src/touch.c:209-212 | enable and master mode are set, transaction inhibit is clear, and every other control bit keeps its old value |
| Protocol.HolderValues | Lab2B_app/src/touch.c:183-189 | the three values the core writes stand for the LCD, for the touch controller and for a released bus |
| Protocol.WriteSetsHolder | Lab2B_app/src/touch.c:224 | a permitted select write hands the bus to the device the written value selects |
| Protocol.NeverBothSelected | Lab2B_app/src/touch.c:222-307 | in a disciplined history no select write selects both devices |
| Protocol.HeldUntilReleased | Lab2B_app/src/touch.c:222-307 | once one device alone is selected, it holds the bus until a deselect or a reset |
| Protocol.HandoffReleases | Lab2B_app/src/touch.c:222-307 | between a select of one device and a later select of the other there is always a deselect or a reset |
| Protocol.HeldIsDirty | Lab2B_app/src/touch.c:222-307 | in every history the device holding the bus is the one whose data the FIFO may hold |
| Protocol.DirtyUntilReset | Lab2B_app/src/touch.c:258-260 | once one device alone is selected, the FIFO holds its data until a reset, whatever deselects come in between |
| Protocol.HandoffResets | Lab2B_app/src/touch.c:258-260 | between a select of one device and a later select of the other there is always a reset that empties the FIFO; a deselect alone does not count |
| Protocol.BareDeselectHandoffRejected | Lab2B_app/src/touch.c:274-280 | selecting the LCD, initialising it, deselecting it and then selecting the touch controller with no reset in between breaks the discipline |
| Bus.ReadTouchEvents | Lab2B_app/src/touch.c:290-302 | defines the history of one `read_touch`: select the touch controller, settle, exchange the command frame, and deselect and settle only after a successful transfer. `Bus.Spi.ReadTouch` is proved to leave exactly this history |
| Bus.ReconfigureEvents | Lab2B_app/src/touch.c:314-316 | defines the history of the closing `XSpi_Reset(&spi); configSpi();` pair: one reset, then one `configSpi` with its `XSpi_SetOptions` outcome. `Bus.Spi.ResetAndConfigure` is proved to leave exactly this history |
| Bus.PressureEvents | Lab2B_app/src/touch.c:320-323 | the bus history of `is_touched`: a full `read_touch` of Z1 (0xB0), then one of Z2 (0xC0) |
| Bus.CoordinateEvents | Lab2B_app/src/touch.c:310-317 | the bus history of `get_touch_coordinates`: a `read_touch` of X (0xD0), then of Y (0x90), then one reset and one `configSpi` |
| Bus.InitScreenEvents | Lab2B_app/src/touch.c:265-281 | the bus history of `init_screen`: select the LCD, initialise and clear it, deselect, reset, `configSpi` |
| Bus.ShownCoordinates | Lab2B_app/src/touch.c:231-250 | what `printToScr` draws: both raw values through `map_touch_to_screen` with the compiled-in calibration |
| Bus.PrintEvents | Lab2B_app/src/touch.c:222-262 | the bus history of `printToScr`: select the LCD, draw the mapped coordinates, reset, `configSpi`, with no deselect |
| Bus.ReadTouchLeavesControllerAlone | Lab2B_app/src/touch.c:284-307 | `read_touch` never resets, reconfigures or draws |
| Bus.PressureKeepsConfiguration | Lab2B_app/src/touch.c:320-326 | `is_touched` neither resets nor reconfigures the controller |
| Bus.CoordinatesResetOnce | Lab2B_app/src/touch.c:310-317 | `get_touch_coordinates` resets and reconfigures exactly once, after both reads |
| Bus.PrintNeverDeselects | Lab2B_app/src/touch.c:222-262 | `printToScr` writes only the LCD's select value and never deselects |
| Bus.Spi.ControlAfterReconfigure | Lab2B_app/src/touch.c:209-212 | defines the control word after a reset and `configSpi`: the reconfigured reset word when `XSpi_SetOptions` succeeds and the bare reset word when it fails. `Bus.Spi.ResetAndConfigure` is proved to leave it |
| Bus.Spi.constructor | Lab2B_app/src/touch.c:82-86 | the initialised handle has no slave selected, keeps any control value, records the controller's reset control word, is not started, has an empty FIFO and an empty history |
| Bus.Spi.SetSlaveSelectReg | Lab2B_app/src/touch.c:301 | the register takes the written value, and the bus goes to the device that value selects |
| Bus.Spi.SetSlaveSelect | Lab2B_app/src/touch.c:291 | selecting by mask leaves the complement of the mask in the register |
| Bus.Spi.Sleep | Lab2B_app/src/touch.c:292 | a settling delay changes no register and no owner |
| Bus.Spi.Transfer | Lab2B_app/src/touch.c:294 | the received bytes land in `rx` only on success; the frame sent is recorded; registers and owner are unchanged |
| Bus.Spi.Reset | Lab2B_app/src/touch.c:315 | the reset deselects every slave, loads the control register's reset value, releases the bus, empties the FIFO and clears the started state |
| Bus.Spi.ConfigSpi | Lab2B_app/src/touch.c:193-219 | on `XSpi_SetOptions` success the control register becomes its reconfigured value and the driver is started; on failure it returns early with the control register untouched |
| Bus.Spi.ResetAndConfigure | Lab2B_app/src/touch.c:314-316 | a reset followed by `configSpi` leaves nothing selected; the control register holds the reconfigured reset value when the options were set and the bare reset value otherwise; it is started exactly when the options were set |
| Bus.Spi.InitScreen | Lab2B_app/src/touch.c:265-281 | selects the LCD, initialises it, deselects it, then resets and reconfigures; it needs a FIFO free of touch-controller data and ends with nothing selected and the FIFO empty |
| Bus.Spi.FrameBuffers | Lab2B_app/src/touch.c:286-287 | the transmit buffer holds the command byte followed by two zero bytes, and the receive buffer holds zeros |
| Bus.Spi.Exchange | Lab2B_app/src/touch.c:286-294 | needs a FIFO free of LCD data; afterwards the touch controller holds the bus and the FIFO, the frame `{command, 0, 0}` is what was sent, and the answer is returned exactly on success |
| Bus.Spi.ReadTouch | Lab2B_app/src/touch.c:284-307 | returns the decoded sample on success, ending with nothing selected; on failure it returns 0 and leaves the touch controller selected; either way the FIFO is the touch controller's; it never changes the control register |
| Bus.Spi.GetTouchCoordinates | Lab2B_app/src/touch.c:310-317 | reads X then Y, each as `read_touch` would, then resets and reconfigures once, which releases the bus and empties the FIFO |
| Bus.Spi.IsTouched | Lab2B_app/src/touch.c:320-326 | reads Z1 then Z2 with no reset, so the FIFO stays the touch controller's; reports a touch exactly when `z1 > 10` and `z2 < 2000` |
| Bus.Spi.PrintToScr | Lab2B_app/src/touch.c:222-262 | selects the LCD, shows both coordinates through the calibrated mapper, then resets and reconfigures with no deselect of its own; it needs a FIFO free of touch-controller data and ends with the FIFO empty |
| Bus.Spi.Startup | Lab2B_app/src/touch.c:88-116 | reset and configure; a failed `XSpi_SetOptions` ends start-up with nothing selected, the bare reset control value and the driver not started; otherwise `init_screen` runs, and its own reconfiguration decides the final control value and started flag |
| Polling.PollStep | Lab2B_app/src/touch.c:119-128 | one pass reads the pressures; only on a touch does it read and show the coordinates, ending with nothing selected, the reset control register reconfigured as `printToScr`'s options allow, and the started flag set by them; without a touch it keeps the old coordinates, control register and started flag, leaving the touch controller selected only after a failed Z2 read; it never leaves the bus or the FIFO with the display |
| Polling.ExamplePoll | Lab2B_app/src/touch.c:119-128 | a pass whose successful transfers decode to pressures 50 and 100 and raw (980, 1050) shows (118, 160) and ends with nothing selected |

## Left out

- Mapper.MapTouchToScreen: requires the largest possible product,
  `|raw_max - raw_min| * screen_size`, to fit in C's `int`, not just this input's
  product. That excludes some calls C defines, such as
  `map_touch_to_screen(0, 0, 65535, 65535)`. Both calls in the program use the
  compiled-in calibration and meet the precondition (`Mapper.CalibrationValid`).
- Cache, interrupt-controller and GPIO bring-up, `xil_printf`/`printf` and the
  register dump of `test_driver` are left out. They are I/O with no effect on the
  bus state modelled here.
- The display driver (`initLCD`, `clrScr`, `setColor`, `fillRect`, `lcdPrint`,
  `sprintf`) is not part of this model. Its use is recorded as the events
  `DisplayInit` and `DisplayCoordinates`.
- `usleep` is recorded as a `Settle` event. No clock is modelled.
- The XSpi driver's internals are not part of this model:
  - Transfer outcomes and `XSpi_SetOptions` results are parameters.
  - `XSpi_SetSlaveSelect(mask)` is modelled as an immediate write of `~mask`, where
    the driver caches the value until the next transfer.
  - `XSpi_Start` and `XSpi_IntrGlobalDisable` become the started flag.
  - The control-register writes `XSpi_SetOptions` makes of its own are not modelled.
- Bus.Spi.Reset: the control register's reset value is given to the constructor
  (`controlAtReset`) rather than fixed. That value belongs to the hardware, which is
  not part of this model.
- The `return XST_FAILURE;` inside the `void` function `configSpi` is modelled as a
  plain early return.
- The unbounded `while (1)` loop is modelled by one iteration (`Polling.PollStep`),
  whose pre- and postcondition match so iterations chain. The unreachable `return 0`
  and the exit codes of `main` are left out. The `XSpi_LookupConfig` and
  `XSpi_CfgInitialize` failure exits before line 88 are also left out.
