/** The touch pipeline of the fingerprint driver: what one run of its work function does to every slot, to the INTR2 line
  and to the events reported. */
module TouchModel {
  datatype Option<+T> = None | Some(value: T)

  const MT_MAX_FINGERS := 10
  const MAX_FW_EVENTS := 128

  datatype Finger = UP | DOWN | MOVE

  /** struct touch_event; a negative id is no finger. */
  datatype Touch = Touch(x: int, y: int, id: int, updated: bool)

  datatype Config = Config(left: int, right: int, top: int, bottom: int,
                           radiusFilter: bool, radX: nat, radY: nat, touchFd: bool, intr2: bool)

  /** What the driver keeps for a slot: last_events, current_slot_state, delta_X and delta_Y. */
  datatype Slot = Slot(last: Touch, state: Finger, dx: int, dy: int)

  /** struct fd_event, without its time stamp. */
  datatype Event = Event(state: Finger, slot: nat, x: int, y: int)

  /** All of it; `reported` is the history of calls of qbt_fd_report_event. */
  datatype World = World(slots: seq<Slot>, current: seq<Touch>, gpio: bool, fifo: seq<Event>, reported: seq<Event>)

  // ---------------------------------------------------------------- one slot

  /** qbt_touch_filter_aoi_region. */
  predicate Inside(c: Config, t: Touch) {
    c.left <= t.x <= c.right && c.top <= t.y <= c.bottom
  }

  /** A finger in the area of interest. */
  predicate Tracked(c: Config, t: Touch) {
    t.id >= 0 && Inside(c, t)
  }

  /** The event a change from `last` to `cur` amounts to, before the radius filter; None if there is none. */
  function Verdict(c: Config, last: Touch, cur: Touch): Option<Finger> {
    var plain :=
      if cur.id < 0 then UP
      else if last.id < 0 then DOWN
      else if last.id == cur.id then MOVE
      else DOWN;
    if !Inside(c, cur) then
      if Inside(c, last) && last.id >= 0 then Some(UP) else None
    else if !Inside(c, last) && cur.id >= 0 then Some(DOWN)
    else Some(plain)
  }

  function Abs(v: int): nat {
    if v < 0 then -v else v
  }

  /** qbt_touch_filter_by_radius: the slot with its movement added, and whether the movement is to be reported. */
  function Moved(c: Config, s: Slot, cur: Touch): (Slot, bool) {
    var dx, dy := s.dx + (cur.x - s.last.x), s.dy + (cur.y - s.last.y);
    if !c.radiusFilter || Abs(dx) > c.radX || Abs(dy) > c.radY then (s.(last := cur, dx := 0, dy := 0), true)
    else (s.(last := cur, dx := dx, dy := dy), false)
  }

  /** The slot after an event, and what is reported, if anything. */
  function SlotStep(c: Config, s: Slot, cur: Touch): (Slot, Option<Finger>) {
    match Verdict(c, s.last, cur)
    case None => (s.(last := cur), None)
    case Some(MOVE) => var m := Moved(c, s, cur); (m.0, if m.1 then Some(MOVE) else None)
    case Some(f) => (s.(last := cur, state := f), Some(f))
  }

  /** Recorded as down is exactly a slot whose last event was a finger in the area. */
  predicate SlotOk(c: Config, s: Slot) {
    (s.state == DOWN <==> Tracked(c, s.last)) && s.state != MOVE
  }

  /** What one event does to a slot and what is reported of it, in full. A finger in the area is one with a number that is
    not negative, at a place within the edges; a movement is of the same finger, with both its places inside. */
  lemma StepExactly(c: Config, s: Slot, cur: Touch)
    ensures var inside := c.left <= cur.x <= c.right && c.top <= cur.y <= c.bottom;
            var was := c.left <= s.last.x <= c.right && c.top <= s.last.y <= c.bottom;
            var dx, dy := s.dx + cur.x - s.last.x, s.dy + cur.y - s.last.y;
            var far := !c.radiusFilter || dx > c.radX || -dx > c.radX || dy > c.radY || -dy > c.radY;
            SlotStep(c, s, cur)
            == if (inside && cur.id < 0) || (!inside && was && s.last.id >= 0) then (Slot(cur, UP, s.dx, s.dy), Some(UP))
               else if !inside then (Slot(cur, s.state, s.dx, s.dy), None)
               else if !was || s.last.id != cur.id then (Slot(cur, DOWN, s.dx, s.dy), Some(DOWN))
               else if far then (Slot(cur, s.state, 0, 0), Some(MOVE))
               else (Slot(cur, s.state, dx, dy), None)
  {
  }

  lemma SlotKept(c: Config, s: Slot, cur: Touch)
    requires SlotOk(c, s)
    ensures SlotOk(c, SlotStep(c, s, cur).0)
    ensures SlotStep(c, s, cur).1 == Some(MOVE) ==> s.state == DOWN && SlotStep(c, s, cur).0.state == DOWN
    ensures SlotStep(c, s, cur).1 == Some(DOWN) <==> SlotStep(c, s, cur).0.state == DOWN && (s.state == UP || s.last.id != cur.id)
    ensures s.state == DOWN && SlotStep(c, s, cur).0.state == UP ==> SlotStep(c, s, cur).1 == Some(UP)
  {
  }

  // ---------------------------------------------------------------- the radius filter over a run

  function Slots(c: Config, s: Slot, touches: seq<Touch>): Slot {
    if touches == [] then s
    else SlotStep(c, Slots(c, s, touches[..|touches| - 1]), touches[|touches| - 1]).0
  }

  /** The last touch of a run is a movement, and whether it is reported. */
  predicate IsMove(c: Config, s: Slot, touches: seq<Touch>)
    requires touches != []
  {
    Verdict(c, Slots(c, s, touches[..|touches| - 1]).last, touches[|touches| - 1]) == Some(MOVE)
  }

  predicate IsReportedMove(c: Config, s: Slot, touches: seq<Touch>)
    requires touches != []
  {
    SlotStep(c, Slots(c, s, touches[..|touches| - 1]), touches[|touches| - 1]).1 == Some(MOVE)
  }

  /** How far the slot moved since its last reported movement. */
  function Drift(c: Config, s: Slot, touches: seq<Touch>): (int, int) {
    if touches == [] then (s.dx, s.dy)
    else
      var before, cur := touches[..|touches| - 1], touches[|touches| - 1];
      if !IsMove(c, s, touches) then Drift(c, s, before)
      else if IsReportedMove(c, s, touches) then (0, 0)
      else
        var last := Slots(c, s, before).last;
        (Drift(c, s, before).0 + cur.x - last.x, Drift(c, s, before).1 + cur.y - last.y)
  }

  /** The accumulated deltas are the movements since the last reported one, and stay within the radii. */
  lemma {:induction false} Residual(c: Config, s: Slot, touches: seq<Touch>)
    requires Abs(s.dx) <= c.radX && Abs(s.dy) <= c.radY
    ensures var t := Slots(c, s, touches);
            && (t.dx, t.dy) == Drift(c, s, touches)
            && Abs(t.dx) <= c.radX && Abs(t.dy) <= c.radY
  {
    if touches != [] {
      Residual(c, s, touches[..|touches| - 1]);
    }
  }

  // ---------------------------------------------------------------- one run of the work function

  predicate AnyDown(slots: seq<Slot>) {
    exists k :: 0 <= k < |slots| && slots[k].state == DOWN
  }

  /** kfifo_put: an event that finds the queue full is dropped. */
  function Put(fifo: seq<Event>, e: Event): seq<Event> {
    if |fifo| < MAX_FW_EVENTS then fifo + [e] else fifo
  }

  function Report(c: Config, w: World, e: Event): World {
    if c.touchFd then w.(fifo := Put(w.fifo, e), reported := w.reported + [e]) else w
  }

  /** Slot k's turn; `seen` is intr2_state, which is set once per run and not cleared from slot to slot. */
  function Turn(c: Config, w: World, seen: bool, k: nat): (r: (World, bool))
    requires k < |w.slots| == |w.current|
    ensures |r.0.slots| == |w.slots| && |r.0.current| == |w.current|
  {
    var cur := w.current[k];
    var w1 := w.(current := w.current[k := cur.(updated := false)]);
    if !cur.updated then (w1, seen)
    else
      var step := SlotStep(c, w.slots[k], cur);
      var w2 := w1.(slots := w.slots[k := step.0]);
      match step.1
      case None => (w2, seen)
      case Some(f) =>
        var e := Event(f, k, cur.x, cur.y);
        if f == MOVE then (Report(c, w2, e), seen)
        else
          var any := seen || AnyDown(w2.slots);
          (Report(c, w2.(gpio := if c.intr2 then any else w2.gpio), e), any)
  }

  /** The first k slots' turns. */
  function Turns(c: Config, w: World, k: nat): (r: (World, bool))
    requires k <= |w.slots| == |w.current|
    ensures |r.0.slots| == |w.slots| && |r.0.current| == |w.current|
  {
    if k == 0 then (w, false)
    else
      var before := Turns(c, w, k - 1);
      Turn(c, before.0, before.1, k - 1)
  }

  /** A run of qbt_touch_work_func. */
  function Work(c: Config, w: World): World
    requires |w.slots| == |w.current|
  {
    Turns(c, w, |w.slots|).0
  }

  /** Any number of runs, each on whatever touches have come in by then. */
  function Runs(c: Config, w: World, inputs: seq<seq<Touch>>): (r: World)
    requires |w.slots| == |w.current| && forall i :: 0 <= i < |inputs| ==> |inputs[i]| == |w.slots|
    ensures |r.slots| == |w.slots| == |r.current|
  {
    if inputs == [] then w
    else
      var n := |inputs| - 1;
      Work(c, Runs(c, w, inputs[..n]).(current := inputs[n]))
  }

  // ---------------------------------------------------------------- what every run keeps

  /** The finger state the reports of a slot add up to. */
  function Told(reported: seq<Event>, k: nat): Finger {
    if reported == [] then UP
    else
      var last := reported[|reported| - 1];
      if last.slot == k && last.state != MOVE then last.state else Told(reported[..|reported| - 1], k)
  }

  /** A movement is only ever reported of a slot last reported down. */
  predicate MovesFollowDowns(reported: seq<Event>) {
    forall i :: 0 <= i < |reported| ==> reported[i].state == MOVE ==> Told(reported[..i], reported[i].slot) == DOWN
  }

  predicate SlotsOk(c: Config, w: World) {
    forall k :: 0 <= k < |w.slots| ==> SlotOk(c, w.slots[k])
  }

  predicate ReportsOk(w: World) {
    && (forall k :: 0 <= k < |w.slots| ==> Told(w.reported, k) == w.slots[k].state)
    && MovesFollowDowns(w.reported)
  }

  predicate LineOk(c: Config, w: World) {
    c.intr2 && !w.gpio ==> !AnyDown(w.slots)
  }

  predicate Kept(c: Config, w: World) {
    |w.slots| == |w.current| && SlotsOk(c, w) && (c.touchFd ==> ReportsOk(w)) && LineOk(c, w)
  }

  lemma ToldAppend(reported: seq<Event>, e: Event, k: nat)
    ensures Told(reported + [e], k) == if e.slot == k && e.state != MOVE then e.state else Told(reported, k)
  {
    assert (reported + [e])[..|reported|] == reported;
  }

  lemma ReportKept(w: World, e: Event, slots: seq<Slot>)
    requires ReportsOk(w) && e.slot < |w.slots| == |slots| && SlotWise(w.slots, slots, e.slot)
    requires e.state == MOVE ==> w.slots[e.slot].state == DOWN
    requires slots[e.slot].state == if e.state == MOVE then w.slots[e.slot].state else e.state
    ensures forall k :: 0 <= k < |slots| ==> Told(w.reported + [e], k) == slots[k].state
    ensures MovesFollowDowns(w.reported + [e])
  {
    forall k | 0 <= k < |slots| ensures Told(w.reported + [e], k) == slots[k].state {
      ToldAppend(w.reported, e, k);
    }
    var all := w.reported + [e];
    forall i | 0 <= i < |all| && all[i].state == MOVE ensures Told(all[..i], all[i].slot) == DOWN {
      assert all[..i] == w.reported[..i];
    }
  }

  predicate SlotWise(a: seq<Slot>, b: seq<Slot>, k: nat) {
    |a| == |b| && forall j :: 0 <= j < |a| && j != k ==> a[j] == b[j]
  }

  lemma TurnKeeps(c: Config, w: World, seen: bool, k: nat)
    requires Kept(c, w) && k < |w.slots|
    ensures Kept(c, Turn(c, w, seen, k).0)
  {
    var cur := w.current[k];
    if cur.updated {
      var step := SlotStep(c, w.slots[k], cur);
      SlotKept(c, w.slots[k], cur);
      var slots := w.slots[k := step.0];
      if step.1.Some? {
        if c.touchFd {
          ReportKept(w, Event(step.1.value, k, cur.x, cur.y), slots);
        }
      } else {
        assert step.0.state == w.slots[k].state;
      }
      QuietKeeps(w.slots, slots, k);
    }
  }

  /** Changing one slot without raising it raises nothing. */
  lemma QuietKeeps(a: seq<Slot>, b: seq<Slot>, k: nat)
    requires k < |a| && SlotWise(a, b, k)
    ensures !AnyDown(a) && b[k].state != DOWN ==> !AnyDown(b)
    ensures a[k].state == b[k].state ==> (AnyDown(a) <==> AnyDown(b))
  {
    if AnyDown(a) && a[k].state == b[k].state {
      var j :| 0 <= j < |a| && a[j].state == DOWN;
      assert b[j].state == DOWN;
    }
  }

  /** Whatever every turn keeps, any number of them keep. */
  lemma {:induction false} TurnsInduct(c: Config, w: World, k: nat, kept: World -> bool)
    requires k <= |w.slots| == |w.current| && kept(w)
    requires forall v: World, seen: bool, j: nat :: j < |v.slots| == |v.current| && kept(v) ==> kept(Turn(c, v, seen, j).0)
    ensures kept(Turns(c, w, k).0)
  {
    if k > 0 {
      TurnsInduct(c, w, k - 1, kept);
    }
  }

  lemma TurnsKeep(c: Config, w: World, k: nat)
    requires k <= |w.slots| == |w.current| && Kept(c, w)
    ensures Kept(c, Turns(c, w, k).0)
  {
    forall v: World, seen: bool, j: nat | j < |v.slots| == |v.current| && Kept(c, v) ensures Kept(c, Turn(c, v, seen, j).0) {
      TurnKeeps(c, v, seen, j);
    }
    TurnsInduct(c, w, k, v => Kept(c, v));
  }

  /** Slots as the probe function sets them up. */
  predicate Fresh(w: World) {
    && |w.slots| == |w.current| && !w.gpio && w.fifo == [] && w.reported == []
    && forall k :: 0 <= k < |w.slots| ==> w.slots[k] == Slot(Touch(0, 0, -1, false), UP, 0, 0)
  }

  lemma FreshKept(c: Config, w: World)
    requires Fresh(w)
    ensures Kept(c, w)
  {
  }

  /** With a fixed configuration, after any number of runs on any touches, from start-up or any other world in which it is
    so: a slot is recorded down exactly if its last event was a finger in the area of interest; every reported movement
    follows a report of that finger going down; and with INTR2 enabled a low line means that no finger is down. */
  lemma {:induction false} RunsKeep(c: Config, w: World, inputs: seq<seq<Touch>>)
    requires Kept(c, w) && forall i :: 0 <= i < |inputs| ==> |inputs[i]| == |w.slots|
    ensures Kept(c, Runs(c, w, inputs))
    decreases |inputs|
  {
    if inputs != [] {
      var n := |inputs| - 1;
      RunsKeep(c, w, inputs[..n]);
      var before := Runs(c, w, inputs[..n]).(current := inputs[n]);
      TurnsKeep(c, before, |before.slots|);
    }
  }

  // ---------------------------------------------------------------- worlds in which a movement comes first

  /** Some point of the area of interest is further from where the slot's deltas count from than the radii. */
  predicate CanEscape(c: Config, s: Slot) {
    || !c.radiusFilter
    || Abs(s.dx + c.left - s.last.x) > c.radX || Abs(s.dx + c.right - s.last.x) > c.radX
    || Abs(s.dy + c.top - s.last.y) > c.radY || Abs(s.dy + c.bottom - s.last.y) > c.radY
  }

  /** A finger whose movements could be reported is recorded down. */
  predicate Sound(c: Config, s: Slot) {
    Tracked(c, s.last) && CanEscape(c, s) ==> s.state == DOWN
  }

  predicate AllSound(c: Config, w: World) {
    forall k :: 0 <= k < |w.slots| ==> Sound(c, w.slots[k])
  }

  /** What has been reported agrees with what is recorded. */
  predicate Agrees(w: World) {
    |w.slots| == |w.current| && ReportsOk(w)
  }

  lemma SoundKept(c: Config, s: Slot, cur: Touch)
    requires Sound(c, s)
    ensures Sound(c, SlotStep(c, s, cur).0)
    ensures SlotStep(c, s, cur).1 == Some(MOVE) ==> s.state == DOWN
  {
  }

  lemma SlotTold(c: Config, s: Slot, cur: Touch)
    ensures var step := SlotStep(c, s, cur);
            step.0.state == if step.1 == None || step.1 == Some(MOVE) then s.state else step.1.value
  {
  }

  lemma SoundTurn(c: Config, w: World, seen: bool, k: nat)
    requires k < |w.slots| == |w.current|
    ensures AllSound(c, w) ==> AllSound(c, Turn(c, w, seen, k).0)
  {
    var cur := w.current[k];
    if AllSound(c, w) && cur.updated {
      SoundKept(c, w.slots[k], cur);
      assert Turn(c, w, seen, k).0.slots == w.slots[k := SlotStep(c, w.slots[k], cur).0];
    }
  }

  lemma AgreesTurn(c: Config, w: World, seen: bool, k: nat)
    requires c.touchFd && k < |w.slots| == |w.current|
    ensures Agrees(w) && AllSound(c, w) ==> Agrees(Turn(c, w, seen, k).0)
  {
    var cur := w.current[k];
    if Agrees(w) && AllSound(c, w) && cur.updated {
      var step := SlotStep(c, w.slots[k], cur);
      SoundKept(c, w.slots[k], cur);
      SlotTold(c, w.slots[k], cur);
      if step.1.Some? {
        ReportKept(w, Event(step.1.value, k, cur.x, cur.y), w.slots[k := step.0]);
      }
    }
  }

  /** Both. */
  predicate SoundWorld(c: Config, w: World) {
    Agrees(w) && AllSound(c, w)
  }

  lemma SoundTurns(c: Config, w: World, k: nat)
    requires c.touchFd && k <= |w.slots| == |w.current| && SoundWorld(c, w)
    ensures SoundWorld(c, Turns(c, w, k).0)
  {
    forall v: World, seen: bool, j: nat | j < |v.slots| == |v.current| && SoundWorld(c, v)
      ensures SoundWorld(c, Turn(c, v, seen, j).0)
    {
      SoundTurn(c, v, seen, j);
      AgreesTurn(c, v, seen, j);
    }
    TurnsInduct(c, w, k, v => SoundWorld(c, v));
  }

  lemma {:induction false} SoundRuns(c: Config, w: World, inputs: seq<seq<Touch>>)
    requires c.touchFd && |w.slots| == |w.current| && forall i :: 0 <= i < |inputs| ==> |inputs[i]| == |w.slots|
    ensures SoundWorld(c, w) ==> SoundWorld(c, Runs(c, w, inputs))
    decreases |inputs|
  {
    if inputs != [] {
      var n := |inputs| - 1;
      SoundRuns(c, w, inputs[..n]);
      SoundAgain(c, Runs(c, w, inputs[..n]), inputs[n]);
    }
  }

  /** New touches make no difference until they are worked on. */
  lemma SoundAgain(c: Config, w: World, touches: seq<Touch>)
    requires c.touchFd && |w.slots| == |w.current| == |touches|
    ensures SoundWorld(c, w) ==> SoundWorld(c, Work(c, w.(current := touches)))
  {
    if SoundWorld(c, w) {
      SoundTurns(c, w.(current := touches), |w.slots|);
    }
  }

  /** A touch of slot k and of no other. */
  function Only(w: World, k: nat, t: Touch): (touches: seq<Touch>)
    requires k < |w.slots|
    ensures |touches| == |w.slots|
  {
    seq(|w.slots|, i => if i == k then t else Touch(0, 0, -1, false))
  }

  lemma {:induction false} OnlyTurns(c: Config, w: World, k: nat, t: Touch, j: nat)
    requires k < |w.slots| && w.current == Only(w, k, t) && t.updated && j <= |w.slots|
    ensures var r := Turns(c, w, j).0;
            if j <= k then r.slots == w.slots && r.reported == w.reported && (forall i :: j <= i < |w.slots| ==> r.current[i] == w.current[i])
            else r.reported == Turns(c, w, k + 1).0.reported && (forall i :: j <= i < |w.slots| ==> r.current[i] == w.current[i])
  {
    if j > 0 {
      OnlyTurns(c, w, k, t, j - 1);
    }
  }

  /** A place in the area from which the filter reports the slot's movement. */
  function Escape(c: Config, s: Slot): Touch {
    if Abs(s.dx + c.left - s.last.x) > c.radX then s.last.(x := c.left, updated := true)
    else if Abs(s.dx + c.right - s.last.x) > c.radX then s.last.(x := c.right, updated := true)
    else if Abs(s.dy + c.top - s.last.y) > c.radY then s.last.(y := c.top, updated := true)
    else s.last.(y := c.bottom, updated := true)
  }

  lemma EscapeReported(c: Config, s: Slot)
    requires Tracked(c, s.last) && CanEscape(c, s)
    ensures Escape(c, s).updated && SlotStep(c, s, Escape(c, s)).1 == Some(MOVE)
  {
  }

  lemma UnsoundSlips(c: Config, w: World, k: nat)
    requires c.touchFd && Agrees(w) && k < |w.slots| && !Sound(c, w.slots[k])
    ensures var input := Only(w, k, Escape(c, w.slots[k]));
            |input| == |w.slots| && !MovesFollowDowns(Runs(c, w, [input]).reported)
  {
    var s := w.slots[k];
    var t := Escape(c, s);
    var input := Only(w, k, t);
    var before := w.(current := input);
    EscapeReported(c, s);
    OnlyTurns(c, before, k, t, k);
    OnlyTurns(c, before, k, t, |w.slots|);
    var all := w.reported + [Event(MOVE, k, t.x, t.y)];
    assert Turns(c, before, k + 1).0.reported == all;
    assert [input][..0] == [] && Runs(c, w, [input]) == Work(c, before);
    assert all[..|w.reported|] == w.reported && all[|w.reported|].state == MOVE;
  }

  predicate MovesOfRun(c: Config, w: World, inputs: seq<seq<Touch>>)
    requires |w.slots| == |w.current|
  {
    (forall i :: 0 <= i < |inputs| ==> |inputs[i]| == |w.slots|) ==> MovesFollowDowns(Runs(c, w, inputs).reported)
  }

  /** Exactly when reported movements follow reports of going down, whatever the touches: when every finger that is in the
    area, and whose movements the radius filter may let pass, is recorded down. So a new configuration keeps the promise
    exactly if that holds under it. */
  lemma MovesExactly(c: Config, w: World)
    requires c.touchFd && Agrees(w)
    ensures (forall inputs :: MovesOfRun(c, w, inputs)) <==> AllSound(c, w)
  {
    if AllSound(c, w) {
      forall inputs ensures MovesOfRun(c, w, inputs) {
        if forall i :: 0 <= i < |inputs| ==> |inputs[i]| == |w.slots| {
          SoundRuns(c, w, inputs);
        }
      }
    } else {
      var k :| 0 <= k < |w.slots| && !Sound(c, w.slots[k]);
      UnsoundSlips(c, w, k);
      assert !MovesOfRun(c, w, [Only(w, k, Escape(c, w.slots[k]))]);
    }
  }

  /** While nothing is enabled, last_events follows the touches and nothing else changes. */
  function Copy(w: World): World
    requires |w.slots| == |w.current|
  {
    w.(slots := seq(|w.slots|, k requires 0 <= k < |w.slots| => w.slots[k].(last := w.current[k])))
  }

  /** Touches under one configuration after another; the finger-detect interrupt is off. */
  function History(w: World, phases: seq<(Config, seq<Touch>)>): (r: World)
    requires |w.slots| == |w.current| && forall i :: 0 <= i < |phases| ==> |phases[i].1| == |w.slots|
    ensures |r.slots| == |w.slots| == |r.current|
  {
    if phases == [] then w
    else
      var n := |phases| - 1;
      var before := History(w, phases[..n]).(current := phases[n].1);
      if phases[n].0.touchFd || phases[n].0.intr2 then Work(phases[n].0, before) else Copy(before)
  }

  /** What it means that a slot was last told down: a report of its finger going down, and none of it going up since. */
  lemma {:induction false} ToldDown(reported: seq<Event>, k: nat) returns (j: nat)
    requires Told(reported, k) == DOWN
    ensures j < |reported| && reported[j].slot == k && reported[j].state == DOWN
    ensures forall i :: j < i < |reported| && reported[i].slot == k ==> reported[i].state == MOVE
  {
    var n := |reported| - 1;
    if reported[n].slot == k && reported[n].state != MOVE {
      j := n;
    } else {
      j := ToldDown(reported[..n], k);
    }
  }

  // ---------------------------------------------------------------- the INTR2 line

  /** What a run makes of slot i: its state afterwards, and what is reported of it. Only the slot's own touch counts. */
  function Own(c: Config, w: World, i: nat): (Slot, Option<Finger>)
    requires i < |w.slots| == |w.current|
  {
    if w.current[i].updated then SlotStep(c, w.slots[i], w.current[i]) else (w.slots[i], None)
  }

  /** After k turns the first k slots have been through their own step, and the others are untouched. */
  lemma {:induction false} OwnTurns(c: Config, w: World, k: nat)
    requires k <= |w.slots| == |w.current|
    ensures forall i :: 0 <= i < k ==> Turns(c, w, k).0.slots[i] == Own(c, w, i).0
    ensures forall i :: k <= i < |w.slots| ==>
              Turns(c, w, k).0.slots[i] == w.slots[i] && Turns(c, w, k).0.current[i] == w.current[i]
  {
    if k > 0 {
      OwnTurns(c, w, k - 1);
      var before := Turns(c, w, k - 1);
      assert Turns(c, w, k) == Turn(c, before.0, before.1, k - 1);
    }
  }

  /** The run reports something other than a movement of slot j. */
  predicate Changes(c: Config, w: World, j: nat)
    requires j < |w.slots| == |w.current|
  {
    Own(c, w, j).1 in {Some(UP), Some(DOWN)}
  }

  predicate AnyChange(c: Config, w: World, k: nat)
    requires k <= |w.slots| == |w.current|
  {
    exists j :: 0 <= j < k && Changes(c, w, j)
  }

  /** Slot i is recorded down once slot j has had its turn. */
  predicate DownBehind(c: Config, w: World, j: nat, i: nat)
    requires i < |w.slots| == |w.current|
  {
    (if i <= j then Own(c, w, i).0 else w.slots[i]).state == DOWN
  }

  /** A change among the first k turns that leaves some finger down. */
  predicate LeavesDown(c: Config, w: World, k: nat)
    requires k <= |w.slots| == |w.current|
  {
    exists j, i :: 0 <= j < k && 0 <= i < |w.slots| && Changes(c, w, j) && DownBehind(c, w, j, i)
  }

  /** After a run the line is high exactly if some change in it, not only the last, left a finger down; without a change it
    stays as it was. */
  lemma {:induction false} LineMeaning(c: Config, w: World, k: nat)
    requires c.intr2 && k <= |w.slots| == |w.current|
    ensures var r := Turns(c, w, k);
            && (r.1 <==> LeavesDown(c, w, k))
            && r.0.gpio == if AnyChange(c, w, k) then LeavesDown(c, w, k) else w.gpio
  {
    if k > 0 {
      LineMeaning(c, w, k - 1);
      DownTurn(c, w, k - 1);
      LineTurn(c, w, k - 1);
    }
  }

  lemma DownTurn(c: Config, w: World, j: nat)
    requires j < |w.slots| == |w.current|
    ensures AnyDown(Turns(c, w, j + 1).0.slots) <==> exists i :: 0 <= i < |w.slots| && DownBehind(c, w, j, i)
  {
    OwnTurns(c, w, j + 1);
    var after := Turns(c, w, j + 1).0.slots;
    assert forall i :: 0 <= i < |w.slots| ==> (after[i].state == DOWN <==> DownBehind(c, w, j, i));
  }

  lemma LineTurn(c: Config, w: World, j: nat)
    requires c.intr2 && j < |w.slots| == |w.current|
    ensures var before, r := Turns(c, w, j), Turns(c, w, j + 1);
            if Changes(c, w, j) then r.1 == (before.1 || AnyDown(r.0.slots)) && r.0.gpio == r.1
            else r.1 == before.1 && r.0.gpio == before.0.gpio
  {
    OwnTurns(c, w, j);
    SlotTold(c, w.slots[j], w.current[j]);
  }

  /** What a run reports of the first k slots: each slot's own step, in slot order, and where the touch was. */
  function OwnReports(c: Config, w: World, k: nat): seq<Event>
    requires k <= |w.slots| == |w.current|
  {
    if k == 0 then []
    else
      var own := Own(c, w, k - 1).1;
      OwnReports(c, w, k - 1)
      + (if own.Some? then [Event(own.value, k - 1, w.current[k - 1].x, w.current[k - 1].y)] else [])
  }

  /** Reports put into the queue one after the other: those that find 128 events in it are dropped. */
  function Queued(fifo: seq<Event>, events: seq<Event>): seq<Event> {
    if events == [] then fifo
    else
      var before := Queued(fifo, events[..|events| - 1]);
      if |before| < 128 then before + [events[|events| - 1]] else before
  }

  /** One event after another has been reported, to whoever wants to know. */
  predicate Reported(c: Config, w: World, w': World, events: seq<Event>) {
    if c.touchFd then w'.reported == w.reported + events && w'.fifo == Queued(w.fifo, events)
    else w'.reported == w.reported && w'.fifo == w.fifo
  }

  lemma ReportedNext(c: Config, w: World, w': World, events: seq<Event>, e: Event, w'': World)
    requires Reported(c, w, w', events)
    requires if c.touchFd then w''.reported == w'.reported + [e] && w''.fifo == Put(w'.fifo, e)
             else w''.reported == w'.reported && w''.fifo == w'.fifo
    ensures Reported(c, w, w'', events + [e])
  {
    assert (events + [e])[..|events|] == events;
    assert w.reported + (events + [e]) == w.reported + events + [e];
  }

  /** A run reports exactly that, if events are enabled; it clears the `updated` flags and leaves the touches alone otherwise;
    and it never drives a line that is not enabled. */
  lemma {:induction false} RunReports(c: Config, w: World, k: nat)
    requires k <= |w.slots| == |w.current|
    ensures var r := Turns(c, w, k).0;
            && Reported(c, w, r, OwnReports(c, w, k))
            && (forall i :: 0 <= i < k ==> r.current[i] == w.current[i].(updated := false))
            && (!c.intr2 ==> r.gpio == w.gpio)
  {
    if k > 0 {
      RunReports(c, w, k - 1);
      ReportTurn(c, w, k - 1);
    } else {
      assert w.reported + [] == w.reported;
    }
  }

  lemma ReportTurn(c: Config, w: World, k: nat)
    requires k < |w.slots| == |w.current| && Reported(c, w, Turns(c, w, k).0, OwnReports(c, w, k))
    ensures Reported(c, w, Turns(c, w, k + 1).0, OwnReports(c, w, k + 1))
    ensures Turns(c, w, k + 1).0.current == Turns(c, w, k).0.current[k := w.current[k].(updated := false)]
    ensures !c.intr2 ==> Turns(c, w, k + 1).0.gpio == Turns(c, w, k).0.gpio
  {
    OwnTurns(c, w, k);
    var before, own := Turns(c, w, k), Own(c, w, k).1;
    if own.Some? {
      ReportedNext(c, w, before.0, OwnReports(c, w, k), Event(own.value, k, w.current[k].x, w.current[k].y),
                   Turns(c, w, k + 1).0);
    } else {
      assert OwnReports(c, w, k) + [] == OwnReports(c, w, k);
    }
  }

  predicate LineRight(w: World) {
    w.gpio <==> AnyDown(w.slots)
  }

  /** No finger will be down after the run, and a change of some slot comes before a slot that is down until then. */
  predicate Stuck(c: Config, w: World)
    requires |w.slots| == |w.current|
  {
    && (forall i :: 0 <= i < |w.slots| ==> Own(c, w, i).0.state != DOWN)
    && exists j, k :: 0 <= j < k < |w.slots| && Changes(c, w, j) && w.slots[k].state == DOWN
  }

  /** Exactly when a run ends with the line saying whether a finger is down, whatever the touches and whatever the line was:
    when the run is not stuck, and the line was right already if the run has no change to bring it up to date. */
  lemma LineExact(c: Config, w: World)
    requires c.intr2 && |w.slots| == |w.current|
    ensures LineRight(Work(c, w)) <==> !Stuck(c, w) && (AnyChange(c, w, |w.slots|) || LineRight(w))
  {
    var n := |w.slots|;
    LineMeaning(c, w, n);
    OwnTurns(c, w, n);
    var after := Work(c, w).slots;
    assert forall i :: 0 <= i < n ==> after[i] == Own(c, w, i).0;
    if !AnyChange(c, w, n) {
      QuietRun(c, w);
    } else if AnyDown(after) {
      DownLeaves(c, w);
    } else {
      StuckLeaves(c, w);
    }
  }

  lemma StuckLeaves(c: Config, w: World)
    requires |w.slots| == |w.current| && forall i :: 0 <= i < |w.slots| ==> Own(c, w, i).0.state != DOWN
    ensures LeavesDown(c, w, |w.slots|) <==> Stuck(c, w)
  {
    if Stuck(c, w) {
      var j, k :| 0 <= j < k < |w.slots| && Changes(c, w, j) && w.slots[k].state == DOWN;
      assert DownBehind(c, w, j, k);
    }
  }

  lemma DownLeaves(c: Config, w: World)
    requires |w.slots| == |w.current| && AnyChange(c, w, |w.slots|)
    requires exists i :: 0 <= i < |w.slots| && Own(c, w, i).0.state == DOWN
    ensures LeavesDown(c, w, |w.slots|)
  {
    var j :| 0 <= j < |w.slots| && Changes(c, w, j);
    var i :| 0 <= i < |w.slots| && Own(c, w, i).0.state == DOWN;
    SlotTold(c, w.slots[i], w.current[i]);
    assert DownBehind(c, w, i, i);
    assert Changes(c, w, i) || DownBehind(c, w, j, i);
  }

  lemma QuietRun(c: Config, w: World)
    requires |w.slots| == |w.current| && !AnyChange(c, w, |w.slots|)
    ensures forall i :: 0 <= i < |w.slots| ==> Own(c, w, i).0.state == w.slots[i].state
  {
    forall i | 0 <= i < |w.slots| ensures Own(c, w, i).0.state == w.slots[i].state {
      SlotTold(c, w.slots[i], w.current[i]);
      assert !Changes(c, w, i);
    }
  }

  /** The world run i of some runs starts in. */
  function Before(c: Config, w: World, inputs: seq<seq<Touch>>, i: nat): (r: World)
    requires |w.slots| == |w.current| && i < |inputs| && forall j :: 0 <= j < |inputs| ==> |inputs[j]| == |w.slots|
    ensures |r.slots| == |w.slots| == |r.current|
  {
    Runs(c, w, inputs[..i]).(current := inputs[i])
  }

  lemma NextRun(c: Config, w: World, inputs: seq<seq<Touch>>, i: nat)
    requires |w.slots| == |w.current| && i < |inputs| && forall j :: 0 <= j < |inputs| ==> |inputs[j]| == |w.slots|
    ensures Runs(c, w, inputs[..i + 1]) == Work(c, Before(c, w, inputs, i))
  {
    assert inputs[..i + 1][..i] == inputs[..i];
  }

  /** The line is right once i of the runs are done. */
  predicate RightAfter(c: Config, w: World, inputs: seq<seq<Touch>>, i: nat)
    requires |w.slots| == |w.current| && i <= |inputs| && forall j :: 0 <= j < |inputs| ==> |inputs[j]| == |w.slots|
  {
    LineRight(Runs(c, w, inputs[..i]))
  }

  predicate StuckIn(c: Config, w: World, inputs: seq<seq<Touch>>, i: nat)
    requires |w.slots| == |w.current| && i < |inputs| && forall j :: 0 <= j < |inputs| ==> |inputs[j]| == |w.slots|
  {
    Stuck(c, Before(c, w, inputs, i))
  }

  lemma RightNext(c: Config, w: World, inputs: seq<seq<Touch>>, i: nat)
    requires c.intr2 && |w.slots| == |w.current|
    requires i < |inputs| && forall j :: 0 <= j < |inputs| ==> |inputs[j]| == |w.slots|
    ensures RightAfter(c, w, inputs, i) ==> (RightAfter(c, w, inputs, i + 1) <==> !StuckIn(c, w, inputs, i))
  {
    LineExact(c, Before(c, w, inputs, i));
    NextRun(c, w, inputs, i);
  }

  /** Over any runs the line is right behind every one of them exactly if none of them is stuck. */
  lemma {:induction false} LineAlways(c: Config, w: World, inputs: seq<seq<Touch>>, n: nat)
    requires c.intr2 && |w.slots| == |w.current| && LineRight(w)
    requires n <= |inputs| && forall j :: 0 <= j < |inputs| ==> |inputs[j]| == |w.slots|
    ensures (forall i :: 0 <= i <= n ==> RightAfter(c, w, inputs, i)) <==> forall i :: 0 <= i < n ==> !StuckIn(c, w, inputs, i)
  {
    if n == 0 {
      assert inputs[..0] == [];
    } else {
      LineAlways(c, w, inputs, n - 1);
      RightNext(c, w, inputs, n - 1);
    }
  }

  /** Touches of slots 0 and 1, and of no other. */
  function Pair(id: int): (touches: seq<Touch>)
    ensures |touches| == MT_MAX_FINGERS
  {
    seq(MT_MAX_FINGERS, i => if i < 2 then Touch(5, 5, id, true) else Touch(0, 0, -1, false))
  }

  /** Fingers in slots 0 and 1, and in no other. */
  predicate PairDown(w: World) {
    && |w.slots| == |w.current| == MT_MAX_FINGERS
    && w.slots[0] == w.slots[1] == Slot(Touch(5, 5, 1, true), DOWN, 0, 0)
    && forall i :: 2 <= i < MT_MAX_FINGERS ==> w.slots[i].state == UP
  }

  /** All of the screen, without a radius filter, for the INTR2 line alone. */
  const LINE_ONLY := Config(0, 100, 0, 100, false, 0, 0, false, true)

  lemma PutDown(w: World)
    requires Fresh(w) && |w.slots| == MT_MAX_FINGERS
    ensures var down := Work(LINE_ONLY, w.(current := Pair(1)));
            PairDown(down) && LineRight(down)
  {
    var put := w.(current := Pair(1));
    OwnTurns(LINE_ONLY, put, MT_MAX_FINGERS);
    assert Own(LINE_ONLY, put, 0).0.state == DOWN && Changes(LINE_ONLY, put, 0);
    LineExact(LINE_ONLY, put);
  }

  lemma LiftBoth(w: World)
    requires PairDown(w)
    ensures var lifted := Work(LINE_ONLY, w.(current := Pair(-1)));
            lifted.gpio && !AnyDown(lifted.slots)
  {
    var lift := w.(current := Pair(-1));
    assert Own(LINE_ONLY, lift, 0) == Own(LINE_ONLY, lift, 1) == (Slot(Touch(5, 5, -1, true), UP, 0, 0), Some(UP));
    assert Changes(LINE_ONLY, lift, 0) && lift.slots[1].state == DOWN;
    LineExact(LINE_ONLY, lift);
    OwnTurns(LINE_ONLY, lift, MT_MAX_FINGERS);
  }

  /** The line is not always right: from start-up, two fingers put down in one run and lifted in the next leave it high. */
  lemma StuckLine(w: World)
    requires Fresh(w) && |w.slots| == MT_MAX_FINGERS
    ensures var inputs := [Pair(1), Pair(-1)];
            && RightAfter(LINE_ONLY, w, inputs, 1)
            && Runs(LINE_ONLY, w, inputs).gpio && !AnyDown(Runs(LINE_ONLY, w, inputs).slots)
  {
    var inputs := [Pair(1), Pair(-1)];
    assert inputs[..0] == [] && inputs[..2] == inputs;
    NextRun(LINE_ONLY, w, inputs, 0);
    NextRun(LINE_ONLY, w, inputs, 1);
    PutDown(w);
    LiftBoth(Runs(LINE_ONLY, w, inputs[..1]));
  }

  // ---------------------------------------------------------------- enabling late

  lemma CopyUnsound(c: Config, w: World)
    requires Fresh(w) && |w.slots| == MT_MAX_FINGERS && w.current[0] == Touch(5, 5, 1, true)
    requires c == Config(0, 100, 0, 100, false, 0, 0, true, false)
    ensures Agrees(Copy(w)) && !AllSound(c, Copy(w))
  {
    assert Copy(w).slots[0] == Slot(Touch(5, 5, 1, true), UP, 0, 0);
    assert !Sound(c, Copy(w).slots[0]);
  }

  lemma OnePhase(w: World, c: Config, touches: seq<Touch>)
    requires |w.slots| == |w.current| == |touches| && !c.touchFd && !c.intr2
    ensures History(w, [(c, touches)]) == Copy(w.(current := touches))
  {
    var phases := [(c, touches)];
    assert phases[..0] == [] && History(w, phases[..0]) == w;
  }

  /** The invariants do not survive a change of configuration: last_events follows the touches while everything is
    disabled, the recorded states do not. From start-up, a finger put down before events are enabled leaves an unsound
    world, from which some run reports a movement of a finger never reported down. */
  lemma MoveAfterEnable(w: World)
    requires Fresh(w) && |w.slots| == MT_MAX_FINGERS
    ensures exists c: Config, phases: seq<(Config, seq<Touch>)> ::
              && (forall i :: 0 <= i < |phases| ==> |phases[i].1| == |w.slots| && phases[i].0 == c.(touchFd := false))
              && c.touchFd && Agrees(History(w, phases)) && !AllSound(c, History(w, phases))
              && exists inputs :: !MovesOfRun(c, History(w, phases), inputs)
  {
    var c := Config(0, 100, 0, 100, false, 0, 0, true, false);
    var input := Only(w, 0, Touch(5, 5, 1, true));
    var phases := [(c.(touchFd := false), input)];
    OnePhase(w, c.(touchFd := false), input);
    CopyUnsound(c, w.(current := input));
    MovesExactly(c, History(w, phases));
    assert forall i :: 0 <= i < |phases| ==> |phases[i].1| == |w.slots| && phases[i].0 == c.(touchFd := false);
  }

  // ---------------------------------------------------------------- the queue

  datatype QueueOp = Offer(e: Event) | Drain

  /** The queue and all that was read from it, after some reports and reads; qbt_read takes everything there is. */
  function Queue(ops: seq<QueueOp>): (r: (seq<Event>, seq<Event>))
    ensures |r.0| <= MAX_FW_EVENTS
  {
    if ops == [] then ([], [])
    else
      var before := Queue(ops[..|ops| - 1]);
      match ops[|ops| - 1]
      case Offer(e) => (Put(before.0, e), before.1)
      case Drain => ([], before.1 + before.0)
  }

  function Offered(ops: seq<QueueOp>): seq<Event> {
    if ops == [] then []
    else Offered(ops[..|ops| - 1]) + (if ops[|ops| - 1].Offer? then [ops[|ops| - 1].e] else [])
  }

  /** No report found the queue full. */
  predicate NeverFull(ops: seq<QueueOp>) {
    forall i :: 0 <= i < |ops| ==> ops[i].Offer? ==> |Queue(ops[..i]).0| < MAX_FW_EVENTS
  }

  /** What was read and what is queued are the reports in order, all of them exactly if none found the queue full. */
  lemma {:induction false} QueueOrder(ops: seq<QueueOp>)
    ensures |Queue(ops).1 + Queue(ops).0| <= |Offered(ops)|
    ensures Queue(ops).1 + Queue(ops).0 == Offered(ops) <==> NeverFull(ops)
    ensures |Queue(ops).1 + Queue(ops).0| == |Offered(ops)| <==> NeverFull(ops)
  {
    if ops != [] {
      var n := |ops| - 1;
      QueueOrder(ops[..n]);
      NeverFullPrefix(ops);
      var before := Queue(ops[..n]);
      if ops[n].Drain? {
        assert before.1 + before.0 + [] == before.1 + before.0;
        assert Offered(ops) == Offered(ops[..n]);
      } else if |before.0| < MAX_FW_EVENTS {
        assert before.1 + (before.0 + [ops[n].e]) == (before.1 + before.0) + [ops[n].e];
        var all := Offered(ops);
        assert all[..|all| - 1] == Offered(ops[..n]);
      }
    }
  }

  lemma NeverFullPrefix(ops: seq<QueueOp>)
    requires ops != []
    ensures var n := |ops| - 1;
            NeverFull(ops) <==> NeverFull(ops[..n]) && (ops[n].Offer? ==> |Queue(ops[..n]).0| < MAX_FW_EVENTS)
  {
    var n := |ops| - 1;
    assert forall i :: 0 <= i < n ==> ops[..n][..i] == ops[..i];
    if NeverFull(ops[..n]) && (ops[n].Offer? ==> |Queue(ops[..n]).0| < MAX_FW_EVENTS) {
      forall i | 0 <= i < |ops| && ops[i].Offer? ensures |Queue(ops[..i]).0| < MAX_FW_EVENTS {
        if i < n { assert ops[..n][i] == ops[i]; }
      }
    }
    if NeverFull(ops) {
      forall i | 0 <= i < n && ops[..n][i].Offer? ensures |Queue(ops[..n][..i]).0| < MAX_FW_EVENTS {
        assert ops[i].Offer?;
      }
    }
  }
}
