/** The observable history of the shared SPI bus and the discipline it must keep:
    one device at a time, and a hand-off from one device to the other only once a
    controller reset has emptied the FIFO of the first one's data. */
module Protocol {
  import opened Transport
  import opened Registers

  /** One thing the core does to the bus or to the display collaborator. */
  datatype Event =
    | SlaveSelectWrite(value: bv32)          // the slave-select register is written
    | Settle(microseconds: nat)              // `usleep` after a slave-select change
    | Transfer(tx: seq<byte>, ok: bool)       // `XSpi_Transfer`, with its outcome
    | Reset                                  // `XSpi_Reset`
    | Configure(ok: bool)                    // `configSpi`; ok is the `XSpi_SetOptions` result
    | DisplayInit                            // `initLCD` and `clrScr`
    | DisplayCoordinates(screenX: u16, screenY: u16)  // the two text lines of `printToScr`

  /** Which device the bus has been handed to since the last release. */
  datatype Session = Released | Held(device: Device)

  /** A select write hands the bus to the one device it selects; writing "none
      selected" or resetting the controller releases it. */
  function After(s: Session, e: Event): Session
  {
    match e
    case SlaveSelectWrite(v) =>
      var lcd, touch := IsSelected(v, Lcd), IsSelected(v, TouchController);
      if !lcd && !touch then Released
      else if lcd && touch then s
      else Held(if lcd then Lcd else TouchController)
    case Reset => Released
    case _ => s
  }

  /** The session a slave-select register value stands for: the one device it
      selects, and released when it selects none (or, against the discipline, both). */
  function Holder(slaveSelect: bv32): Session
  {
    var lcd, touch := IsSelected(slaveSelect, Lcd), IsSelected(slaveSelect, TouchController);
    if lcd && !touch then Held(Lcd)
    else if touch && !lcd then Held(TouchController)
    else Released
  }

  /** The register values the core writes stand for the LCD, the touch controller and
      a released bus. */
  lemma HolderValues()
    ensures Holder(SELECT_LCD) == Held(Lcd)
    ensures Holder(SELECT_TOUCH) == Held(TouchController)
    ensures Holder(SELECT_NONE) == Released
  {
  }

  /** Whose data may still sit in the controller's FIFO: nobody's right after a
      reset, otherwise the device selected last. A deselect does not empty it. */
  datatype Fifo = Flushed | Dirty(device: Device)

  /** Selecting a device makes the FIFO its own; a reset empties it; nothing else,
      a deselect included, changes it. */
  function FifoAfter(f: Fifo, e: Event): Fifo
  {
    match e
    case SlaveSelectWrite(v) =>
      var lcd, touch := IsSelected(v, Lcd), IsSelected(v, TouchController);
      if lcd && !touch then Dirty(Lcd)
      else if touch && !lcd then Dirty(TouchController)
      else f
    case Reset => Flushed
    case _ => f
  }

  /** A permitted select write leaves the bus with the holder of the written value. */
  lemma WriteSetsHolder(s: Session, v: bv32)
    requires Permitted(s, SlaveSelectWrite(v))
    ensures After(s, SlaveSelectWrite(v)) == Holder(v)
  {
  }

  /** What the discipline allows in a session: never select two devices, never
      select a device while the other holds the bus, transfer only while some device
      is selected, and draw only while the LCD holds the bus. */
  predicate Permitted(s: Session, e: Event)
  {
    match e
    case SlaveSelectWrite(v) =>
      !(IsSelected(v, Lcd) && IsSelected(v, TouchController)) &&
      (s.Held? ==> !IsSelected(v, Other(s.device)))
    case Transfer(_, _) => s.Held?
    case DisplayInit => s == Held(Lcd)
    case DisplayCoordinates(_, _) => s == Held(Lcd)
    case _ => true
  }

  /** The hand-off rule on the FIFO: a device is never selected while the FIFO
      still holds the other device's data. */
  predicate Flushes(f: Fifo, e: Event)
  {
    e.SlaveSelectWrite? && f.Dirty? ==> !IsSelected(e.value, Other(f.device))
  }

  /** The session after a whole history, starting released. */
  function SessionOf(t: seq<Event>): Session
    decreases |t|
  {
    if t == [] then Released else After(SessionOf(t[..|t| - 1]), t[|t| - 1])
  }

  /** The FIFO after a whole history, starting empty. */
  function FifoOf(t: seq<Event>): Fifo
    decreases |t|
  {
    if t == [] then Flushed else FifoAfter(FifoOf(t[..|t| - 1]), t[|t| - 1])
  }

  /** Every event of the history was permitted in the session it happened in and
      kept the hand-off rule on the FIFO it found. */
  predicate Disciplined(t: seq<Event>)
    decreases |t|
  {
    t == [] ||
    (Disciplined(t[..|t| - 1]) && Permitted(SessionOf(t[..|t| - 1]), t[|t| - 1]) &&
     Flushes(FifoOf(t[..|t| - 1]), t[|t| - 1]))
  }

  /** Appending one event. */
  lemma Extend(t: seq<Event>, e: Event)
    ensures SessionOf(t + [e]) == After(SessionOf(t), e)
    ensures FifoOf(t + [e]) == FifoAfter(FifoOf(t), e)
    ensures Disciplined(t + [e]) <==> Disciplined(t) && Permitted(SessionOf(t), e) && Flushes(FifoOf(t), e)
  {
    assert (t + [e])[..|t|] == t;
  }

  /** The device holding the bus is the one whose data is in the FIFO. */
  lemma {:induction false} HeldIsDirty(t: seq<Event>)
    ensures SessionOf(t).Held? ==> FifoOf(t) == Dirty(SessionOf(t).device)
    decreases |t|
  {
    if t != [] {
      HeldIsDirty(t[..|t| - 1]);
    }
  }

  lemma AppendAssoc(a: seq<Event>, b: seq<Event>, c: seq<Event>)
    ensures a + b + c == a + (b + c)
  {
  }

  /** Every prefix of a disciplined history is disciplined. */
  lemma {:induction false} PrefixDisciplined(t: seq<Event>, k: nat)
    requires Disciplined(t) && k <= |t|
    ensures Disciplined(t[..k])
    decreases |t| - k
  {
    if k < |t| {
      assert t[..|t| - 1][..k] == t[..k];
      PrefixDisciplined(t[..|t| - 1], k);
    } else {
      assert t[..k] == t;
    }
  }

  /** Event k of a disciplined history was permitted, and moved the session and
      the FIFO on. */
  lemma StepAt(t: seq<Event>, k: nat)
    requires Disciplined(t) && k < |t|
    ensures Permitted(SessionOf(t[..k]), t[k]) && Flushes(FifoOf(t[..k]), t[k])
    ensures SessionOf(t[..k + 1]) == After(SessionOf(t[..k]), t[k])
    ensures FifoOf(t[..k + 1]) == FifoAfter(FifoOf(t[..k]), t[k])
  {
    PrefixDisciplined(t, k + 1);
    assert t[..k + 1][..k] == t[..k];
  }

  /** The event selects exactly device d. */
  predicate SelectsOnly(e: Event, d: Device)
  {
    e.SlaveSelectWrite? && IsSelected(e.value, d) && !IsSelected(e.value, Other(d))
  }

  /** The event releases the bus: a "none selected" write or a reset. */
  predicate Releases(e: Event)
  {
    e.Reset? || (e.SlaveSelectWrite? && !IsSelected(e.value, Lcd) && !IsSelected(e.value, TouchController))
  }

  /** No slave-select value in a disciplined history selects both devices. */
  lemma NeverBothSelected(t: seq<Event>, i: nat)
    requires Disciplined(t) && i < |t| && t[i].SlaveSelectWrite?
    ensures !(IsSelected(t[i].value, Lcd) && IsSelected(t[i].value, TouchController))
  {
    StepAt(t, i);
  }

  /** Once device d is selected, the bus stays with d until something releases it. */
  lemma {:induction false} HeldUntilReleased(t: seq<Event>, i: nat, k: nat, d: Device)
    requires Disciplined(t) && i < k <= |t| && SelectsOnly(t[i], d)
    requires forall m :: i < m < k ==> !Releases(t[m])
    ensures SessionOf(t[..k]) == Held(d)
    decreases k
  {
    StepAt(t, k - 1);
    if k - 1 > i {
      HeldUntilReleased(t, i, k - 1, d);
      var e := t[k - 1];
      if e.SlaveSelectWrite? {
        assert !IsSelected(e.value, Other(d));
      }
    }
  }

  /** Once device d is selected, the FIFO holds d's data until a reset. */
  lemma {:induction false} DirtyUntilReset(t: seq<Event>, i: nat, k: nat, d: Device)
    requires Disciplined(t) && i < k <= |t| && SelectsOnly(t[i], d)
    requires forall m :: i < m < k ==> !t[m].Reset?
    ensures FifoOf(t[..k]) == Dirty(d)
    decreases k
  {
    StepAt(t, k - 1);
    if k - 1 > i {
      DirtyUntilReset(t, i, k - 1, d);
      var e := t[k - 1];
      if e.SlaveSelectWrite? {
        assert !IsSelected(e.value, Other(d));
      }
    }
  }

  /** The hand-off rule: between a select of one device and a later select of the
      other there is always a deselect or a reset. */
  lemma HandoffReleases(t: seq<Event>, i: nat, j: nat, d: Device, d': Device)
    requires Disciplined(t) && i < j < |t|
    requires SelectsOnly(t[i], d) && SelectsOnly(t[j], d') && d != d'
    ensures exists m :: i < m < j && Releases(t[m])
  {
    if forall m :: i < m < j ==> !Releases(t[m]) {
      HeldUntilReleased(t, i, j, d);
      StepAt(t, j);
      assert false;
    }
  }

  /** The stronger hand-off rule: between a select of one device and a later select
      of the other there is always a reset, so a deselect alone never hands the bus
      over with the first device's data still in the FIFO. */
  lemma HandoffResets(t: seq<Event>, i: nat, j: nat, d: Device, d': Device)
    requires Disciplined(t) && i < j < |t|
    requires SelectsOnly(t[i], d) && SelectsOnly(t[j], d') && d != d'
    ensures exists m :: i < m < j && t[m].Reset?
  {
    if forall m :: i < m < j ==> !t[m].Reset? {
      DirtyUntilReset(t, i, j, d);
      StepAt(t, j);
      assert false;
    }
  }

  /** Deselecting the LCD and then selecting the touch controller, with no reset in
      between, breaks the discipline. */
  lemma BareDeselectHandoffRejected()
    ensures !Disciplined([SlaveSelectWrite(SELECT_LCD), DisplayInit, SlaveSelectWrite(SELECT_NONE),
                          SlaveSelectWrite(SELECT_TOUCH)])
  {
    var t := [SlaveSelectWrite(SELECT_LCD), DisplayInit, SlaveSelectWrite(SELECT_NONE),
              SlaveSelectWrite(SELECT_TOUCH)];
    if Disciplined(t) {
      SelectValues();
      HandoffResets(t, 0, 3, Lcd, TouchController);
      assert false;
    }
  }
}
