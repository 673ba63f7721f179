/** The fingerprint driver's touch functions as they run. */
module QbtHandler {
  import opened TouchModel

  const EV_SYN := 0
  const EV_ABS := 3
  const SYN_REPORT := 0x00
  const ABS_MT_SLOT := 0x2F
  const ABS_MT_POSITION_X := 0x35
  const ABS_MT_POSITION_Y := 0x36
  const ABS_MT_TRACKING_ID := 0x39

  datatype ReadResult = Events(events: seq<Event>) | EINVAL | EAGAIN

  class QbtDriver {
    var config: Config
    const slots: array<Slot>
    const current: array<Touch>
    var gpio: bool
    var fifo: seq<Event>
    ghost var reported: seq<Event>
    var currentSlot: int
    var reportEvent: bool // the static of qbt_touch_report_event
    var irqEnabled: bool  // fd_gpio.irq_enabled

    ghost predicate Valid()
      reads this
    {
      slots.Length == current.Length == MT_MAX_FINGERS
    }

    ghost function Value(): World
      reads this, slots, current
    {
      World(slots[..], current[..], gpio, fifo, reported)
    }

    constructor (config: Config)
      ensures Valid() && fresh(slots) && fresh(current) && this.config == config
      ensures TouchModel.Fresh(Value()) && currentSlot == 0 && reportEvent
    {
      slots := new Slot[MT_MAX_FINGERS](_ => Slot(Touch(0, 0, -1, false), UP, 0, 0));
      current := new Touch[MT_MAX_FINGERS](_ => Touch(0, 0, -1, false));
      this.config := config;
      gpio, fifo, reported := false, [], [];
      currentSlot, reportEvent, irqEnabled := 0, true, false;
    }

    /** qbt_fd_report_event. */
    method FdReportEvent(e: Event)
      modifies this`fifo, this`reported
      ensures fifo == Put(old(fifo), e) && reported == old(reported) + [e]
      ensures fifo == if |old(fifo)| < 128 then old(fifo) + [e] else old(fifo)
    {
      if |fifo| < MAX_FW_EVENTS {
        fifo := fifo + [e];
      }
      reported := reported + [e];
    }

    /** qbt_touch_filter_by_radius, which also finds the slot's last event already replaced. */
    method FilterByRadius(cur: Touch, last: Touch, k: nat) returns (passes: bool)
      requires Valid() && k < MT_MAX_FINGERS && slots[k].last == cur
      modifies slots
      ensures (slots[k], passes) == Moved(config, old(slots[k]).(last := last), cur)
      ensures slots[..] == old(slots[..])[k := slots[k]]
    {
      var dx, dy := slots[k].dx + (cur.x - last.x), slots[k].dy + (cur.y - last.y);
      slots[k] := slots[k].(dx := dx, dy := dy);
      passes := !config.radiusFilter || Abs(dx) > config.radX || Abs(dy) > config.radY;
      if passes {
        slots[k] := slots[k].(dx := 0, dy := 0);
      }
    }

    /** The loop over current_slot_state. */
    method SomeDown() returns (down: bool)
      ensures down <==> AnyDown(slots[..])
    {
      var i := 0;
      while i < slots.Length
        invariant i <= slots.Length && forall k :: 0 <= k < i ==> slots[k].state != DOWN
      {
        if slots[i].state == DOWN {
          assert slots[..][i].state == DOWN;
          return true;
        }
        i := i + 1;
      }
      down := false;
    }

    /** What the work function takes a touch for, before the radius filter. */
    method Judge(cur: Touch, last: Touch) returns (verdict: Option<Finger>)
      ensures verdict == Verdict(config, last, cur)
    {
      var state: Finger;
      if cur.id < 0 {
        state := UP;
      } else if last.id < 0 {
        state := DOWN;
      } else if last.id == cur.id {
        state := MOVE;
      } else {
        state := DOWN;
      }
      if !Inside(config, cur) {
        if Inside(config, last) && last.id >= 0 {
          state := UP;
        } else {
          return None;
        }
      } else if !Inside(config, last) && cur.id >= 0 {
        state := DOWN;
      }
      verdict := Some(state);
    }

    /** One turn of the loop over the slots; `seen` is intr2_state. */
    method TurnSlot(k: nat, seen: bool) returns (now: bool)
      requires Valid() && k < MT_MAX_FINGERS
      modifies this`gpio, this`fifo, this`reported, slots, current
      ensures (Value(), now) == Turn(config, old(Value()), seen, k)
      ensures var own := Own(config, old(Value()), k).1;
              reported == if config.touchFd && own.Some? then
                            old(reported) + [Event(own.value, k, old(current[k]).x, old(current[k]).y)]
                          else old(reported)
    {
      now := seen;
      var cur := current[k];
      current[k] := cur.(updated := false);
      if !cur.updated {
        return;
      }
      ghost var before := slots[..];
      var last := slots[k].last;
      slots[k] := slots[k].(last := cur);
      assert slots[..] == before[k := slots[k]] && slots[k].(last := last) == before[k];
      var verdict := Judge(cur, last);
      if verdict == None {
        return;
      }
      if verdict == Some(MOVE) {
        var passes := FilterByRadius(cur, last, k);
        assert slots[..] == before[k := slots[k]];
        if !passes {
          return;
        }
      } else {
        now := Settle(k, verdict.value, seen);
        assert slots[..] == before[k := slots[k]];
      }
      if config.touchFd {
        FdReportEvent(Event(verdict.value, k, cur.x, cur.y));
      }
    }

    /** Record a finger's state and drive the INTR2 line. */
    method Settle(k: nat, state: Finger, seen: bool) returns (now: bool)
      requires Valid() && k < MT_MAX_FINGERS
      modifies this`gpio, slots
      ensures slots[..] == old(slots[..])[k := old(slots[k]).(state := state)]
      ensures now <==> seen || AnyDown(slots[..])
      ensures gpio == if config.intr2 then now else old(gpio)
    {
      slots[k] := slots[k].(state := state);
      var down := SomeDown();
      now := seen || down;
      if config.intr2 {
        gpio := now;
      }
    }

    /** qbt_touch_work_func. */
    method WorkFunc()
      requires Valid()
      modifies this`gpio, this`fifo, this`reported, slots, current
      ensures Value() == Work(config, old(Value()))
      ensures Reported(config, old(Value()), Value(), OwnReports(config, old(Value()), MT_MAX_FINGERS))
      ensures forall i :: 0 <= i < MT_MAX_FINGERS ==>
                slots[i] == Own(config, old(Value()), i).0 && current[i] == old(current[i]).(updated := false)
    {
      var slot, seen := 0, false;
      while slot < MT_MAX_FINGERS
        invariant slot <= MT_MAX_FINGERS && (Value(), seen) == Turns(config, old(Value()), slot)
      {
        seen := TurnSlot(slot, seen);
        slot := slot + 1;
      }
      ghost var before := old(Value());
      OwnTurns(config, before, MT_MAX_FINGERS);
      RunReports(config, before, MT_MAX_FINGERS);
      assert forall i :: 0 <= i < MT_MAX_FINGERS ==> slots[i] == Value().slots[i] && current[i] == Value().current[i];
    }

    /** The function takes notice of an event. */
    predicate Noticed(kind: int)
      reads this
    {
      kind in {EV_SYN, EV_ABS} && currentSlot < MT_MAX_FINGERS
    }

    /** The current slot's event is written to. */
    predicate Notes(code: int)
      reads this
    {
      code in {ABS_MT_TRACKING_ID, ABS_MT_POSITION_X, ABS_MT_POSITION_Y, SYN_REPORT} || (code == ABS_MT_SLOT && !reportEvent)
    }

    /** Something wants to know of touches: a reader, the INTR2 line or the finger-detect interrupt. */
    predicate Enabled()
      reads this
    {
      config.touchFd || config.intr2 || irqEnabled
    }

    /** qbt_touch_report_event. Codes are told apart without their type: the absolute axis with code 0 counts as a
      report. Any slot number is stored, and one too high leads to every further event being dropped; after a negative one
      there is no event to write to. The work is scheduled, or while nothing is enabled the last events follow the touches,
      with a report and with any event after it that has none of the codes. */
    method ReportTouch(kind: int, code: int, value: int) returns (scheduled: bool)
      requires Valid() && (Noticed(kind) && Notes(code) ==> currentSlot >= 0)
      modifies this`currentSlot, this`reportEvent, slots, current
      ensures !old(Noticed(kind)) ==>
                !scheduled && Value() == old(Value()) && currentSlot == old(currentSlot) && reportEvent == old(reportEvent)
      ensures old(Noticed(kind)) ==>
                && currentSlot == (if code == ABS_MT_SLOT then value else old(currentSlot))
                && (reportEvent <==> code == SYN_REPORT || (old(reportEvent) && !old(Notes(code)) && code != ABS_MT_SLOT))
                && (scheduled <==> reportEvent && Enabled())
      ensures old(Noticed(kind)) ==>
                var noted := old(Value()).(current := current[..]);
                Value() == if reportEvent && !Enabled() then Copy(noted) else noted
      ensures old(Noticed(kind)) && reportEvent && !Enabled() ==>
                forall k :: 0 <= k < MT_MAX_FINGERS ==> slots[k] == old(slots[k]).(last := current[k])
      ensures forall k :: 0 <= k < MT_MAX_FINGERS && k != old(currentSlot) ==> current[k] == old(current[k])
      ensures !old(Notes(code)) ==> current[..] == old(current[..])
      ensures old(Noticed(kind) && Notes(code)) ==>
                var was := old(current[currentSlot]);
                current[old(currentSlot)]
                == if code == ABS_MT_TRACKING_ID then was.(id := value)
                   else if code == ABS_MT_POSITION_X then was.(x := if value < 0 then -value else value)
                   else if code == ABS_MT_POSITION_Y then was.(y := if value < 0 then -value else value)
                   else was.(updated := true)
    {
      scheduled := false;
      if kind != EV_SYN && kind != EV_ABS {
        return;
      }
      if currentSlot >= MT_MAX_FINGERS {
        return;
      }
      var k := currentSlot;
      if code == ABS_MT_SLOT {
        currentSlot := value;
        if !reportEvent {
          current[k] := current[k].(updated := true);
        }
        reportEvent := false;
      } else if code == ABS_MT_TRACKING_ID {
        current[k] := current[k].(id := value);
        reportEvent := false;
      } else if code == ABS_MT_POSITION_X {
        current[k] := current[k].(x := Abs(value));
        reportEvent := false;
      } else if code == ABS_MT_POSITION_Y {
        current[k] := current[k].(y := Abs(value));
        reportEvent := false;
      } else if code == SYN_REPORT {
        current[k] := current[k].(updated := true);
        reportEvent := true;
      }
      if reportEvent {
        if !config.touchFd && !config.intr2 && !irqEnabled {
          CopyLast();
        } else {
          scheduled := true;
        }
      }
    }

    /** memcpy of current_events over last_events. */
    method CopyLast()
      requires Valid()
      modifies slots
      ensures Value() == Copy(old(Value()))
    {
      var i := 0;
      while i < MT_MAX_FINGERS
        invariant i <= MT_MAX_FINGERS
        invariant forall k :: 0 <= k < i ==> slots[k] == old(slots[k]).(last := current[k])
        invariant forall k :: i <= k < MT_MAX_FINGERS ==> slots[k] == old(slots[k])
      {
        slots[i] := slots[i].(last := current[i]);
        i := i + 1;
      }
    }

    /** qbt_read of the finger detect device, without blocking: it takes all that is queued. */
    method Read(room: nat, needed: nat) returns (r: ReadResult)
      modifies this`fifo
      ensures room < needed ==> r == EINVAL && fifo == old(fifo)
      ensures room >= needed ==>
                && fifo == [] && (r == EAGAIN <==> old(fifo) == [])
                && (r != EAGAIN ==> r == Events(old(fifo)))
    {
      if room < needed {
        return EINVAL;
      }
      if fifo == [] {
        return EAGAIN;
      }
      var events: seq<Event> := [];
      var n := |fifo|;
      var i := 0;
      while i < n
        invariant i <= n && |fifo| == n - i && events + fifo == old(fifo)
      {
        events := events + [fifo[0]];
        fifo := fifo[1..];
        i := i + 1;
      }
      r := Events(events);
    }
  }
}
