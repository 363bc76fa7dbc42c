/** The two SPI controller registers the core manipulates: the active-low
    slave-select register and the control register. */
module Registers {

  /** The two slaves on the shared bus, by slave-select bit. */
  datatype Device = Lcd | TouchController

  /** Slave-select bit of each device; a device is selected while its bit is LOW. */
  const LCD_SELECT_BIT: bv32 := 0x01
  const TOUCH_SELECT_BIT: bv32 := 0x02

  /** Register values the core writes: select the LCD (`~0x01`), select the touch
      controller (`~0x02`, what `XSpi_SetSlaveSelect(&spi, 0x02)` asks for) and
      deselect everything (`~0x00`). */
  const SELECT_LCD: bv32 := !LCD_SELECT_BIT
  const SELECT_TOUCH: bv32 := !TOUCH_SELECT_BIT
  const SELECT_NONE: bv32 := !0

  /** The device on the other select line. */
  function Other(d: Device): Device
  {
    if d == Lcd then TouchController else Lcd
  }

  function SelectBit(d: Device): bv32
  {
    if d == Lcd then LCD_SELECT_BIT else TOUCH_SELECT_BIT
  }

  /** The decoding of `test_driver`: a device is selected when its bit of the
      register's complement is set, that is when its bit of the register is low. */
  predicate IsSelected(slaveSelect: bv32, d: Device)
    ensures IsSelected(slaveSelect, d) <==> slaveSelect & SelectBit(d) == 0
  {
    (!slaveSelect) & SelectBit(d) != 0
  }

  /** `~0x01` selects the LCD alone, `~0x02` the touch controller alone, and `~0x00`
      nothing. */
  lemma SelectValues()
    ensures IsSelected(SELECT_LCD, Lcd) && !IsSelected(SELECT_LCD, TouchController)
    ensures IsSelected(SELECT_TOUCH, TouchController) && !IsSelected(SELECT_TOUCH, Lcd)
    ensures !IsSelected(SELECT_NONE, Lcd) && !IsSelected(SELECT_NONE, TouchController)
  {
  }

  /** Control-register bits: enable, master mode and master transaction inhibit. */
  const CR_ENABLE: bv32 := 0x002
  const CR_MASTER_MODE: bv32 := 0x004
  const CR_TRANS_INHIBIT: bv32 := 0x100

  /** The control-register update of `configSpi`:
      `(controlReg | ENABLE | MASTER_MODE) & ~TRANS_INHIBIT`. */
  function Reconfigured(control: bv32): (r: bv32)
    ensures r & CR_ENABLE != 0 && r & CR_MASTER_MODE != 0
    ensures r & CR_TRANS_INHIBIT == 0
    ensures r & !(CR_ENABLE | CR_MASTER_MODE | CR_TRANS_INHIBIT)
         == control & !(CR_ENABLE | CR_MASTER_MODE | CR_TRANS_INHIBIT)
  {
    (control | CR_ENABLE | CR_MASTER_MODE) & !CR_TRANS_INHIBIT
  }
}
