/** Runs of a5xx submissions by any number of draw contexts: which pagetable each indirect buffer is run under. */
module A5xxJobs {
  import opened Pm4
  import opened CpMachine
  import opened A5xxPackets
  import opened A5xxSubmit
  import opened A5xxTables
  import opened RingSpace
  import opened A5xxRingbuffer

  // ---------------------------------------------------------------- steps and pagetables

  /** The pagetable in use after some steps: the one the last of them installed, or else the one before. */
  function InUse(space: Space, steps: seq<Step>): Space {
    if steps == [] then space
    else
      var last := steps[|steps| - 1].action;
      if last.SetTable? then Own(last.ttbr0) else InUse(space, steps[..|steps| - 1])
  }

  /** The indirect buffers among the steps, each with the pagetable in use when it is run. */
  function IbSpaces(space: Space, steps: seq<Step>): seq<(Action, Space)> {
    if steps == [] then []
    else
      var before, last := steps[..|steps| - 1], steps[|steps| - 1].action;
      IbSpaces(space, before) + (if last.RunIb? then [(last, InUse(space, before))] else [])
  }

  /** Indirect buffers all run under one pagetable. */
  function Under(space: Space, ibs: seq<Action>): seq<(Action, Space)> {
    if ibs == [] then [] else Under(space, ibs[..|ibs| - 1]) + [(ibs[|ibs| - 1], space)]
  }

  lemma {:induction false} SpacesConcat(space: Space, a: seq<Step>, b: seq<Step>)
    ensures InUse(space, a + b) == InUse(InUse(space, a), b)
    ensures IbSpaces(space, a + b) == IbSpaces(space, a) + IbSpaces(InUse(space, a), b)
  {
    if b == [] {
      assert a + b == a;
    } else {
      SpacesConcat(space, a, b[..|b| - 1]);
      LastOfBoth(a, b);
    }
  }

  predicate Tableless(steps: seq<Step>) {
    forall step :: step in steps ==> !step.action.SetTable?
  }

  lemma {:induction false} TablelessSpaces(space: Space, steps: seq<Step>)
    requires Tableless(steps)
    ensures InUse(space, steps) == space && IbSpaces(space, steps) == Under(space, Ibs(steps))
  {
    if steps != [] {
      var before, last := steps[..|steps| - 1], steps[|steps| - 1].action;
      TablelessSpaces(space, before);
      if last.RunIb? {
        assert Ibs(steps)[..|Ibs(before)|] == Ibs(before);
      } else {
        assert Ibs(steps) == Ibs(before);
      }
    }
  }

  lemma TablelessThen(a: seq<Step>, b: seq<Step>)
    requires Tableless(a) && Tableless(b)
    ensures Tableless(a + b)
  {
  }

  lemma TablelessAct(p: Packet)
    requires p.id != CP_SMMU_TABLE_UPDATE && Act(p).Some?
    ensures !Act(p).value.SetTable?
  {
  }

  lemma {:induction false} TablelessTrace(m: Modes, ps: seq<Packet>)
    requires Without(CP_SMMU_TABLE_UPDATE, ps)
    ensures Tableless(Trace(m, ps))
  {
    if ps != [] {
      var last := ps[|ps| - 1];
      TablelessTrace(m, ps[..|ps| - 1]);
      if Act(last).Some? {
        TablelessAct(last);
      }
    }
  }

  lemma IblessAct(p: Packet)
    requires p.id != CP_INDIRECT_BUFFER_PFE && Act(p).Some?
    ensures !Act(p).value.RunIb?
  {
  }

  lemma {:induction false} IblessTrace(m: Modes, ps: seq<Packet>)
    requires Without(CP_INDIRECT_BUFFER_PFE, ps)
    ensures Ibs(Trace(m, ps)) == []
  {
    if ps != [] {
      var before, last := ps[..|ps| - 1], ps[|ps| - 1];
      IblessTrace(m, before);
      if Act(last).Some? {
        IblessAct(last);
        IbsConcat(Trace(m, before), [Step(Act(last).value, After(m, before))]);
      } else {
        assert Trace(m, ps) == Trace(m, before);
      }
    }
  }

  // ---------------------------------------------------------------- one submission

  /** Steps that leave the pagetable alone, and the indirect buffers they run. */
  predicate Keeps(steps: seq<Step>, ibs: seq<Action>) {
    Tableless(steps) && Ibs(steps) == ibs
  }

  lemma KeepsThen(a: seq<Step>, ibs: seq<Action>, b: seq<Step>, ibs': seq<Action>)
    requires Keeps(a, ibs) && Keeps(b, ibs')
    ensures Keeps(a + b, ibs + ibs')
  {
    TablelessThen(a, b);
    IbsConcat(a, b);
  }

  /** One more step, if any, that neither installs a pagetable nor runs a buffer. */
  lemma KeepsIf(a: seq<Step>, ibs: seq<Action>, on: bool, step: Step)
    requires Keeps(a, ibs) && !step.action.SetTable? && !step.action.RunIb?
    ensures Keeps(a + (if on then [step] else []), ibs)
  {
    if on {
      assert [step][..0] == [];
      KeepsThen(a, ibs, [step], []);
      assert ibs + [] == ibs;
    } else {
      assert a + [] == a;
    }
  }

  function ProfileIbs(at: Option<(Quad, Word)>): seq<Action> {
    if at.Some? then [RunIb(at.value.0, at.value.1)] else []
  }

  lemma ProfileKeeps(at: Option<(Quad, Word)>, m: Modes)
    ensures Keeps(ProfileSteps(at, m), ProfileIbs(at))
  {
    if at.Some? {
      assert ProfileSteps(at, m)[..0] == [];
    }
  }

  lemma PreKeeps(record: Quad, finegrain: bool, m: Modes)
    ensures Keeps(PreSteps(record, finegrain, m), [])
  {
    PreDoes(record, finegrain, m);
    TablelessTrace(m, PreIbsubmit(record, finegrain));
    IblessTrace(m, PreIbsubmit(record, finegrain));
  }

  lemma OpeningKeeps(x: Envelope, timestamp: Word)
    ensures Keeps(OpeningSteps(x, timestamp), ProfileIbs(x.before))
  {
    var pre := if x.preempt.Some? then PreSteps(x.preempt.value, Finegrain(x), KERNEL) else [];
    var sop := if x.drawctxt.Some? then [Step(Store(x.drawctxt.value.sop, [x.drawctxt.value.timestamp]), KERNEL)] else [];
    var ring := Step(Store(x.ringSop, [timestamp]), KERNEL);
    if x.preempt.Some? { PreKeeps(x.preempt.value, Finegrain(x), KERNEL); }
    ProfileKeeps(x.before, KERNEL);
    KeepsThen(pre, [], ProfileSteps(x.before, KERNEL), ProfileIbs(x.before));
    assert [] + ProfileIbs(x.before) == ProfileIbs(x.before);
    KeepsIf(FrontSteps(x), ProfileIbs(x.before), x.drawctxt.Some?, if x.drawctxt.Some? then sop[0] else ring);
    KeepsIf(FrontSteps(x) + sop, ProfileIbs(x.before), true, ring);
  }

  lemma EopKeeps(x: Envelope, timestamp: Word, m: Modes)
    ensures Keeps(EopSteps(x, timestamp, m), [])
  {
    if x.drawctxt.Some? {
      var first := Step(Stamp(x.drawctxt.value.eop, x.drawctxt.value.timestamp, true), m);
      KeepsIf([], [], true, first);
      assert [] + [first] == [first];
      KeepsIf([first], [], true, Step(Stamp(x.ringEop, timestamp, false), m));
    } else {
      var only := Step(Stamp(x.ringEop, timestamp, true), m);
      KeepsIf([], [], true, only);
      assert [] + [only] == [only];
    }
  }

  lemma BackKeeps(x: Envelope, timestamp: Word, m: Modes)
    ensures Keeps(BackSteps(x, timestamp, m), ProfileIbs(x.after))
  {
    var profile, ibs := ProfileSteps(x.after, m), ProfileIbs(x.after);
    var wait := if x.waitMemWrites then [Step(Other(CP_WAIT_MEM_WRITES, []), m)] else [];
    var ref := Step(Store(x.refWait, [x.sequence]), m);
    ProfileKeeps(x.after, m);
    KeepsIf(profile, ibs, x.waitMemWrites, Step(Other(CP_WAIT_MEM_WRITES, []), m));
    KeepsIf(profile + wait, ibs, true, ref);
    EopKeeps(x, timestamp, m);
    KeepsThen(profile + wait + [ref], ibs, EopSteps(x, timestamp, m), []);
    assert ibs + [] == ibs;
  }

  lemma ClosingKeeps(x: Envelope, timestamp: Word)
    ensures Keeps(ClosingSteps(x, timestamp), ProfileIbs(x.after))
  {
    var m := Modes(true, x.secure);
    var idle := if x.wfi then [Step(Other(CP_WAIT_FOR_IDLE, []), m)] else [];
    BackKeeps(x, timestamp, m);
    KeepsIf(BackSteps(x, timestamp, m), ProfileIbs(x.after), x.wfi, Step(Other(CP_WAIT_FOR_IDLE, []), m));
    KeepsIf(BackSteps(x, timestamp, m) + idle, ProfileIbs(x.after), x.preempt.Some?, Step(Yield, KERNEL));
  }

  lemma ReportKeeps(x: Envelope, rptrSlot: Quad)
    ensures Keeps(ReportSteps(x, rptrSlot), [])
  {
    KeepsIf([], [], x.preempt.None?, Step(Report(rptrSlot), KERNEL));
    assert [] + ReportSteps(x, rptrSlot) == ReportSteps(x, rptrSlot);
  }

  /** From one pagetable in use the steps go to another, and run these buffers under these pagetables. */
  predicate Walks(from: Space, steps: seq<Step>, to: Space, pairs: seq<(Action, Space)>) {
    InUse(from, steps) == to && IbSpaces(from, steps) == pairs
  }

  lemma WalksThen(from: Space, a: seq<Step>, via: Space, pairs: seq<(Action, Space)>,
                  b: seq<Step>, to: Space, pairs': seq<(Action, Space)>)
    requires Walks(from, a, via, pairs) && Walks(via, b, to, pairs')
    ensures Walks(from, a + b, to, pairs + pairs')
  {
    SpacesConcat(from, a, b);
  }

  lemma KeptWalks(space: Space, steps: seq<Step>, ibs: seq<Action>)
    requires Keeps(steps, ibs)
    ensures Walks(space, steps, space, Under(space, ibs))
  {
    TablelessSpaces(space, steps);
  }

  /** All the indirect buffers of a user submission: those of profiling, the user's samples and the wanted ones. */
  function JobIbs(x: Envelope, c: Command): seq<Action> {
    ProfileIbs(x.before)
    + ((if c.user.Some? then [RunIb(c.user.value.0, 4)] else [])
       + Wanted(Entries(c), c.preamble)
       + (if c.user.Some? then [RunIb(c.user.value.1, 4)] else []))
    + ProfileIbs(x.after)
  }

  lemma CommandKeeps(x: Envelope, c: Command, timestamp: Word)
    requires Verified(c.ibs)
    ensures Keeps(StreamSteps(x, CommandPackets(c), timestamp), JobIbs(x, c))
  {
    var middle := Trace(PayloadModes(x), CommandPackets(c));
    CommandMeaning(c, PayloadModes(x));
    CommandWithout(CP_SMMU_TABLE_UPDATE, c);
    TablelessTrace(PayloadModes(x), CommandPackets(c));
    OpeningKeeps(x, timestamp);
    ClosingKeeps(x, timestamp);
    KeepsThen(OpeningSteps(x, timestamp), ProfileIbs(x.before), middle, Ibs(middle));
    KeepsThen(OpeningSteps(x, timestamp) + middle, ProfileIbs(x.before) + Ibs(middle),
              ClosingSteps(x, timestamp), ProfileIbs(x.after));
  }

  // ---------------------------------------------------------------- one context switch

  /** A context switch is submitted without a context: with F_NOTPROTECTED alone, and without profiling. */
  predicate Plainly(x: Envelope) {
    Internal(x) && x.before.None? && x.after.None?
  }

  predicate Installs(active: Option<Client>, c: Client) {
    Differs(active, c) && c.space.Own?
  }

  /** What follows the update of a pagetable switch. */
  function Settling(to: Pagetable, id: Word): seq<Packet> {
    [Op(CP_WAIT_FOR_IDLE, [])]
    + [Op(CP_WAIT_FOR_ME, [])]
    + [Packet(Type4, A5XX_CP_CNTL, [1])]
    + [MemWrite(to.scratch, [to.ttbr0.lo, to.ttbr0.hi, id])]
    + [Op(CP_WAIT_FOR_IDLE, [])]
    + [Op(CP_WAIT_FOR_ME, [])]
    + [Packet(Type4, A5XX_CP_CNTL, [0])]
  }

  lemma SwitchGrouped(to: Pagetable, id: Word)
    ensures PagetableSwitch(Some(to), id) == [Op(CP_SMMU_TABLE_UPDATE, [to.ttbr0.lo, to.ttbr0.hi, id])] + Settling(to, id)
  {
  }

  lemma PlainTrace(m: Modes, ps: seq<Packet>)
    requires Without(CP_SMMU_TABLE_UPDATE, ps) && Without(CP_INDIRECT_BUFFER_PFE, ps)
    ensures Keeps(Trace(m, ps), [])
  {
    TablelessTrace(m, ps);
    IblessTrace(m, ps);
  }

  lemma UpdateWalks(from: Space, m: Modes, to: Pagetable, id: Word)
    ensures Walks(from, Trace(m, [Op(CP_SMMU_TABLE_UPDATE, [to.ttbr0.lo, to.ttbr0.hi, id])]), Own(to.ttbr0), [])
  {
    var update := Op(CP_SMMU_TABLE_UPDATE, [to.ttbr0.lo, to.ttbr0.hi, id]);
    TraceOne(m, update);
    assert Act(update) == Some(SetTable(to.ttbr0, id));
    assert [Step(SetTable(to.ttbr0, id), m)][..0] == [];
  }

  lemma PagetableWalks(from: Space, m: Modes, to: Pagetable, id: Word, rest: seq<Packet>)
    requires Without(CP_SMMU_TABLE_UPDATE, rest) && Without(CP_INDIRECT_BUFFER_PFE, rest)
    ensures Walks(from, Trace(m, PagetableSwitch(Some(to), id) + rest), Own(to.ttbr0), [])
  {
    var update := Op(CP_SMMU_TABLE_UPDATE, [to.ttbr0.lo, to.ttbr0.hi, id]);
    var behind := Settling(to, id) + rest;
    SwitchGrouped(to, id);
    assert PagetableSwitch(Some(to), id) + rest == [update] + behind;
    WithoutThen(CP_SMMU_TABLE_UPDATE, Settling(to, id), rest);
    WithoutThen(CP_INDIRECT_BUFFER_PFE, Settling(to, id), rest);
    TraceConcat(m, [update], behind);
    UpdateWalks(from, m, to, id);
    PlainTrace(After(m, [update]), behind);
    KeptWalks(Own(to.ttbr0), Trace(After(m, [update]), behind), []);
    WalksThen(from, Trace(m, [update]), Own(to.ttbr0), [], Trace(After(m, [update]), behind), Own(to.ttbr0), []);
  }

  lemma SwitchPayloadWalks(from: Space, m: Modes, active: Option<Client>, c: Client, slots: Slots)
    ensures Walks(from, Trace(m, SwitchTo(active, c, slots)), if Installs(active, c) then c.space else from, [])
  {
    var notes := ContextNotes(slots.ringNote, slots.globalNote, c.id);
    assert Without(CP_SMMU_TABLE_UPDATE, notes) && Without(CP_INDIRECT_BUFFER_PFE, notes);
    if Installs(active, c) {
      PagetableWalks(from, m, Pagetable(c.space.ttbr0, slots.scratch), c.id, notes);
    } else {
      assert SwitchTo(active, c, slots) == notes;
      PlainTrace(m, notes);
      KeptWalks(from, Trace(m, notes), []);
    }
  }

  /** The submission of a context switch runs nothing, and installs the context's own pagetable exactly if there is one and
    it is not that of the context before. */
  lemma SwitchWalks(from: Space, x: Envelope, active: Option<Client>, c: Client, slots: Slots, timestamp: Word)
    requires Plainly(x)
    ensures Walks(from, StreamSteps(x, SwitchTo(active, c, slots), timestamp), if Installs(active, c) then c.space else from, [])
  {
    var to := if Installs(active, c) then c.space else from;
    var middle := Trace(PayloadModes(x), SwitchTo(active, c, slots));
    OpeningKeeps(x, timestamp);
    ClosingKeeps(x, timestamp);
    KeptWalks(from, OpeningSteps(x, timestamp), []);
    KeptWalks(to, ClosingSteps(x, timestamp), []);
    SwitchPayloadWalks(from, PayloadModes(x), active, c, slots);
    WalksThen(from, OpeningSteps(x, timestamp), from, [], middle, to, []);
    WalksThen(from, OpeningSteps(x, timestamp) + middle, to, [], ClosingSteps(x, timestamp), to, []);
  }

  // ---------------------------------------------------------------- runs of submissions

  /** What a call meets: whether the context has been detached, a fault, and how far the CP gets during it and after it. */
  datatype Moment = Moment(detached: bool, fault: bool, ahead: nat, behind: nat)

  /** One call of a5xx_ringbuffer_submitcmd: a command of a context, its envelope and that of a context switch, and what the
    switch and the submission meet. */
  datatype Job = Job(client: Client, command: Command, x: Envelope, switching: Envelope, switchAt: Moment, addAt: Moment)

  predicate JobOk(job: Job) {
    Verified(job.command.ibs) && job.x.drawctxt.Some? && Plainly(job.switching)
  }

  /** What became of it: whether the context was let in, whether a context switch was emitted, and whether the command was. */
  datatype Done = Done(job: Job, entered: bool, switched: bool, switchStamp: Word, placed: bool, stamp: Word)

  function ActiveAfter(active: Option<Client>, d: Done): Option<Client> {
    if d.entered then Some(d.job.client) else active
  }

  function SwitchPart(active: Option<Client>, d: Done, slots: Slots, rptrSlot: Quad): seq<Step> {
    if d.switched then
      StreamSteps(d.job.switching, SwitchTo(active, d.job.client, slots), d.switchStamp) + ReportSteps(d.job.switching, rptrSlot)
    else []
  }

  function WorkPart(d: Done, rptrSlot: Quad): seq<Step> {
    if d.placed then StreamSteps(d.job.x, CommandPackets(d.job.command), d.stamp) + ReportSteps(d.job.x, rptrSlot) else []
  }

  /** What the CP does for one call. */
  function JobSteps(active: Option<Client>, d: Done, slots: Slots, rptrSlot: Quad): seq<Step> {
    SwitchPart(active, d, slots, rptrSlot) + WorkPart(d, rptrSlot)
  }

  /** The active context after some calls ... */
  function Active(active: Option<Client>, done: seq<Done>): Option<Client> {
    if done == [] then active else ActiveAfter(Active(active, done[..|done| - 1]), done[|done| - 1])
  }

  /** ... and what the CP does for them. */
  function AllSteps(active: Option<Client>, done: seq<Done>, slots: Slots, rptrSlot: Quad): seq<Step> {
    if done == [] then []
    else
      var before := done[..|done| - 1];
      AllSteps(active, before, slots, rptrSlot) + JobSteps(Active(active, before), done[|done| - 1], slots, rptrSlot)
  }

  /** Call k emitted a switch to an own pagetable, from another. */
  predicate Installed(active: Option<Client>, done: seq<Done>, k: nat)
    requires k < |done|
  {
    done[k].switched && Installs(Active(active, done[..k]), done[k].job.client)
  }

  /** The pagetable that the last such call leaves in force. */
  function InForce(active: Option<Client>, space: Space, done: seq<Done>): Space {
    if done == [] then space
    else
      var n := |done| - 1;
      if Installed(active, done, n) then done[n].job.client.space else InForce(active, space, done[..n])
  }

  /** The indirect buffers of every command that was emitted, with the pagetable in force behind its own call's switch. */
  function Buffers(active: Option<Client>, space: Space, done: seq<Done>): seq<(Action, Space)> {
    if done == [] then []
    else
      var d := done[|done| - 1];
      Buffers(active, space, done[..|done| - 1])
      + (if d.placed then Under(InForce(active, space, done), JobIbs(d.job.x, d.job.command)) else [])
  }

  lemma SwitchPartWalks(from: Space, active: Option<Client>, d: Done, slots: Slots, rptrSlot: Quad)
    requires JobOk(d.job)
    ensures Walks(from, SwitchPart(active, d, slots, rptrSlot),
                  if d.switched && Installs(active, d.job.client) then d.job.client.space else from, [])
  {
    if d.switched {
      var to := if Installs(active, d.job.client) then d.job.client.space else from;
      SwitchWalks(from, d.job.switching, active, d.job.client, slots, d.switchStamp);
      ReportKeeps(d.job.switching, rptrSlot);
      KeptWalks(to, ReportSteps(d.job.switching, rptrSlot), []);
      WalksThen(from, StreamSteps(d.job.switching, SwitchTo(active, d.job.client, slots), d.switchStamp), to, [],
                ReportSteps(d.job.switching, rptrSlot), to, []);
    }
  }

  lemma WorkPartWalks(space: Space, d: Done, rptrSlot: Quad)
    requires JobOk(d.job)
    ensures Walks(space, WorkPart(d, rptrSlot), space, if d.placed then Under(space, JobIbs(d.job.x, d.job.command)) else [])
  {
    if d.placed {
      var ibs := JobIbs(d.job.x, d.job.command);
      CommandKeeps(d.job.x, d.job.command, d.stamp);
      ReportKeeps(d.job.x, rptrSlot);
      KeepsThen(StreamSteps(d.job.x, CommandPackets(d.job.command), d.stamp), ibs, ReportSteps(d.job.x, rptrSlot), []);
      assert ibs + [] == ibs;
      KeptWalks(space, WorkPart(d, rptrSlot), ibs);
    }
  }

  /** Over any calls: what the CP runs is every buffer of every emitted command, in order, each under the pagetable that was
    in force behind its own call's switch. */
  lemma {:induction false} AllWalk(active: Option<Client>, space: Space, done: seq<Done>, slots: Slots, rptrSlot: Quad)
    requires forall k :: 0 <= k < |done| ==> JobOk(done[k].job)
    ensures Walks(space, AllSteps(active, done, slots, rptrSlot), InForce(active, space, done), Buffers(active, space, done))
  {
    if done != [] {
      var before, d := done[..|done| - 1], done[|done| - 1];
      var was, now, current := InForce(active, space, before), InForce(active, space, done), Active(active, before);
      AllWalk(active, space, before, slots, rptrSlot);
      SwitchPartWalks(was, current, d, slots, rptrSlot);
      WorkPartWalks(now, d, rptrSlot);
      var pairs := if d.placed then Under(now, JobIbs(d.job.x, d.job.command)) else [];
      WalksThen(was, SwitchPart(current, d, slots, rptrSlot), now, [], WorkPart(d, rptrSlot), now, pairs);
      assert [] + pairs == pairs;
      WalksThen(space, AllSteps(active, before, slots, rptrSlot), was, Buffers(active, space, before),
                JobSteps(current, d, slots, rptrSlot), now, pairs);
    }
  }

  // ---------------------------------------------------------------- when a context runs under its own pagetable

  function SpaceOf(active: Option<Client>): Space {
    if active.Some? then active.value.space else Default
  }

  /** Call k's context, if it was let in, has its own pagetable in force for its command. */
  predicate RunsOwn(active: Option<Client>, space: Space, done: seq<Done>, k: nat)
    requires k < |done|
  {
    done[k].entered ==> InForce(active, space, done[..k + 1]) == done[k].job.client.space
  }

  /** Call k's context has the pagetable of the context before it, or an own one that its switch was emitted for. */
  predicate Handed(active: Option<Client>, done: seq<Done>, k: nat)
    requires k < |done|
  {
    var space := done[k].job.client.space;
    done[k].entered ==> space == SpaceOf(Active(active, done[..k])) || (done[k].switched && space.Own?)
  }

  /** Nothing is switched for a context that is not let in. */
  predicate Sensible(done: seq<Done>) {
    forall k :: 0 <= k < |done| ==> done[k].switched ==> done[k].entered
  }

  predicate AllOwn(active: Option<Client>, space: Space, done: seq<Done>, n: nat)
    requires n <= |done|
  {
    forall k :: 0 <= k < n ==> RunsOwn(active, space, done, k)
  }

  predicate AllHanded(active: Option<Client>, done: seq<Done>, n: nat)
    requires n <= |done|
  {
    forall k :: 0 <= k < n ==> Handed(active, done, k)
  }

  lemma Prefixes<T>(s: seq<T>, n: nat)
    requires n < |s|
    ensures s[..n + 1][..n] == s[..n] && s[..n + 1][n] == s[n]
  {
  }

  lemma OwnNext(active: Option<Client>, space: Space, done: seq<Done>, n: nat)
    requires n < |done| && Sensible(done)
    requires InForce(active, space, done[..n]) == SpaceOf(Active(active, done[..n]))
    ensures RunsOwn(active, space, done, n) <==> Handed(active, done, n)
    ensures RunsOwn(active, space, done, n) ==> InForce(active, space, done[..n + 1]) == SpaceOf(Active(active, done[..n + 1]))
  {
    Prefixes(done, n);
  }

  /** From a ring whose active context's pagetable is in force, such as a new one, over any calls: every context has its own
    pagetable in force for its commands exactly if, at each change of pagetable, the context switch was emitted and not to
    the default pagetable. */
  lemma {:induction false} AlwaysOwn(active: Option<Client>, space: Space, done: seq<Done>, n: nat)
    requires n <= |done| && Sensible(done) && space == SpaceOf(active)
    ensures AllOwn(active, space, done, n) <==> AllHanded(active, done, n)
    ensures AllOwn(active, space, done, n) ==> InForce(active, space, done[..n]) == SpaceOf(Active(active, done[..n]))
  {
    if n == 0 {
      assert done[..0] == [];
    } else {
      AlwaysOwn(active, space, done, n - 1);
      if AllOwn(active, space, done, n - 1) {
        OwnNext(active, space, done, n - 1);
      }
    }
  }

  /** Call j is the last that installed a pagetable. */
  predicate LastInstalled(active: Option<Client>, done: seq<Done>, j: nat) {
    j < |done| && Installed(active, done, j) && forall i :: j < i < |done| ==> !Installed(active, done, i)
  }

  lemma InstalledPrefix(active: Option<Client>, done: seq<Done>, n: nat, k: nat)
    requires k < n <= |done|
    ensures Installed(active, done[..n], k) <==> Installed(active, done, k)
  {
    assert done[..n][..k] == done[..k];
  }

  /** For any one call, whatever went wrong before: the pagetable in force is that of the last context for which one was
    installed, or the first one if none was. */
  lemma {:induction false} InForceMeaning(active: Option<Client>, space: Space, done: seq<Done>, j: nat)
    ensures LastInstalled(active, done, j) ==> InForce(active, space, done) == done[j].job.client.space
    ensures (forall i :: 0 <= i < |done| ==> !Installed(active, done, i)) ==> InForce(active, space, done) == space
  {
    if done != [] {
      var n := |done| - 1;
      InForceMeaning(active, space, done[..n], j);
      forall i | 0 <= i < n ensures Installed(active, done[..n], i) <==> Installed(active, done, i) {
        InstalledPrefix(active, done, n, i);
      }
    }
  }

  // ---------------------------------------------------------------- the calls

  /** What was placed for a submission makes the CP do it and, without preemption, report its read pointer. */
  lemma PlacedMeaning(filler: seq<Word>, x: Envelope, payload: seq<Word>, timestamp: Word, rptrSlot: Quad, tail: seq<Word>)
    requires Skippable(Type7, filler) && Parse(payload).Some? && Neutral(x, Parse(payload).value) && Ends(x, rptrSlot, tail)
    ensures Performs(KERNEL, filler + Stream(x, payload, timestamp) + tail, KERNEL,
                     StreamSteps(x, Parse(payload).value, timestamp) + ReportSteps(x, rptrSlot))
  {
    PlacedPerforms(filler, x, payload, timestamp);
    EndsPerform(x, rptrSlot, tail);
    PerformsThen(KERNEL, filler + Stream(x, payload, timestamp), KERNEL, StreamSteps(x, Parse(payload).value, timestamp),
                 tail, KERNEL, ReportSteps(x, rptrSlot));
  }

  lemma SwitchNeutral(active: Option<Client>, c: Client, slots: Slots, x: Envelope)
    requires AllFit(SwitchTo(active, c, slots))
    ensures Parse(EncodeAll(SwitchTo(active, c, slots))) == Some(SwitchTo(active, c, slots))
    ensures Neutral(x, SwitchTo(active, c, slots))
  {
    SwitchToWithout(CP_SET_PROTECTED_MODE, active, c, slots);
    SwitchToWithout(CP_SET_SECURE_MODE, active, c, slots);
    SwitchToWithout(CP_EVENT_WRITE, active, c, slots);
    NeutralIf(x, SwitchTo(active, c, slots));
  }

  lemma CommandNeutral(c: Command, x: Envelope)
    requires AllFit(CommandPackets(c))
    ensures Parse(EncodeAll(CommandPackets(c))) == Some(CommandPackets(c)) && Neutral(x, CommandPackets(c))
  {
    CommandWithout(CP_SET_PROTECTED_MODE, c);
    CommandWithout(CP_SET_SECURE_MODE, c);
    CommandWithout(CP_EVENT_WRITE, c);
    NeutralIf(x, CommandPackets(c));
  }

  lemma SwitchPerforms(active: Option<Client>, d: Done, slots: Slots, rptrSlot: Quad, filler: seq<Word>, tail: seq<Word>)
    requires d.switched && Skippable(Type7, filler) && Ends(d.job.switching, rptrSlot, tail)
    requires AllFit(SwitchTo(active, d.job.client, slots))
    ensures Performs(KERNEL, filler + Stream(d.job.switching, EncodeAll(SwitchTo(active, d.job.client, slots)), d.switchStamp) + tail,
                     KERNEL, SwitchPart(active, d, slots, rptrSlot))
  {
    SwitchNeutral(active, d.job.client, slots, d.job.switching);
    PlacedMeaning(filler, d.job.switching, EncodeAll(SwitchTo(active, d.job.client, slots)), d.switchStamp, rptrSlot, tail);
  }

  lemma WorkPerforms(d: Done, rptrSlot: Quad, filler: seq<Word>, tail: seq<Word>)
    requires d.placed && Skippable(Type7, filler) && Ends(d.job.x, rptrSlot, tail) && AllFit(CommandPackets(d.job.command))
    ensures Performs(KERNEL, filler + Stream(d.job.x, EncodeAll(CommandPackets(d.job.command)), d.stamp) + tail,
                     KERNEL, WorkPart(d, rptrSlot))
  {
    CommandNeutral(d.job.command, d.job.x);
    PlacedMeaning(filler, d.job.x, EncodeAll(CommandPackets(d.job.command)), d.stamp, rptrSlot, tail);
  }

  /** What a call's context switch, if any, has given the CP. */
  lemma SwitchGiven(active: Option<Client>, d: Done, slots: Slots, rptrSlot: Quad, first: seq<Word>, gone: seq<Word>,
                    live: seq<Word>, filler: seq<Word>, tail: seq<Word>) returns (more: seq<Word>)
    requires AllFit(SwitchTo(active, d.job.client, slots)) && Skippable(Type7, filler)
    requires if d.switched then
               && Ends(d.job.switching, rptrSlot, tail)
               && gone + live
                  == first
                     + (filler + Stream(d.job.switching, EncodeAll(SwitchTo(active, d.job.client, slots)), d.switchStamp)) + tail
             else gone == [] && live == first
    ensures gone + live == first + more && Performs(KERNEL, more, KERNEL, SwitchPart(active, d, slots, rptrSlot))
  {
    if d.switched {
      var placed := filler + Stream(d.job.switching, EncodeAll(SwitchTo(active, d.job.client, slots)), d.switchStamp);
      more := placed + tail;
      SwitchPerforms(active, d, slots, rptrSlot, filler, tail);
      Regroup(first, placed, tail);
    } else {
      more := [];
      DoesNothing(KERNEL);
      assert gone + live == first + more;
    }
  }

  /** A call will emit a context switch. */
  ghost predicate Switches(rb: A5xxRing, job: Job)
    requires rb.Valid()
    reads rb, rb.ring
  {
    rb.active != Some(job.client) && !job.switchAt.detached && !job.switchAt.fault && rb.SwitchRoom(job.client)
  }

  /** The context switch of a call, if it takes one. */
  method SwitchFor(rb: A5xxRing, job: Job) returns (r: Result, ghost d: Done, ghost gone: seq<Word>, ghost more: seq<Word>)
    requires rb.Valid() && JobOk(job)
    modifies rb, rb.ring, rb.ring.buffer
    ensures rb.Valid() && d.job == job && !d.placed && rb.active == ActiveAfter(old(rb.active), d)
    ensures r == (if d.entered then Ok else ENOENT) && (d.entered <==> old(rb.active) == Some(job.client) || !job.switchAt.detached)
    ensures d.switched <==> old(Switches(rb, job))
    ensures gone + rb.ring.Live() == old(rb.ring.Live()) + more
    ensures Performs(KERNEL, more, KERNEL, SwitchPart(old(rb.active), d, rb.slots, rb.rptrSlot))
  {
    ghost var active, first := rb.active, rb.ring.Live();
    ghost var switched, filler, tail;
    r, switched, gone, filler, tail := rb.DrawctxtSwitch(job.client, job.switching, job.switchAt.detached, job.switchAt.fault,
                                                         job.switchAt.ahead);
    d := Done(job, r == Ok, switched, rb.timestamp, false, 0);
    more := SwitchGiven(active, d, rb.slots, rb.rptrSlot, first, gone, rb.ring.Live(), filler, tail);
  }

  /** The command of a call, behind its switch. */
  method WorkFor(rb: A5xxRing, job: Job, cmds: seq<Word>, ghost d0: Done)
      returns (r: Result, ghost d: Done, ghost gone: seq<Word>, ghost more: seq<Word>)
    requires rb.Valid() && AllFit(CommandPackets(job.command)) && cmds == EncodeAll(CommandPackets(job.command))
    requires d0.job == job
    modifies rb`timestamp, rb.ring, rb.ring.buffer
    ensures rb.Valid() && d == d0.(placed := d.placed, stamp := d.stamp) && (d.placed <==> r == Ok)
    ensures r == ENOENT <==> job.addAt.detached
    ensures r == EPROTO <==> !job.addAt.detached && job.addAt.fault
    ensures r == ENOSPC <==> !job.addAt.detached && !job.addAt.fault && !old(rb.ring.HasRoom(A5XX_SUBMIT_MAX + |cmds|))
    ensures gone + rb.ring.Live() == old(rb.ring.Live()) + more
    ensures Performs(KERNEL, more, KERNEL, WorkPart(d, rb.rptrSlot))
  {
    ghost var first := rb.ring.Live();
    ghost var filler, tail;
    r, gone, filler, tail := rb.AddCmds(job.x, cmds, job.addAt.detached, job.addAt.fault, job.addAt.ahead);
    d := d0.(placed := r == Ok, stamp := rb.timestamp);
    if r == Ok {
      ghost var placed := filler + Stream(job.x, cmds, rb.timestamp);
      more := placed + tail;
      WorkPerforms(d, rb.rptrSlot, filler, tail);
      Regroup(first, placed, tail);
    } else {
      more := [];
      DoesNothing(KERNEL);
      assert first + [] == first;
    }
  }

  method CommandWords(c: Command) returns (words: seq<Word>)
    ensures AllFit(CommandPackets(c)) && words == EncodeAll(CommandPackets(c))
  {
    var cmds := new Word[A5XX_COMMAND_DWORDS + 5 * |Entries(c)|];
    var index := CommandInto(cmds, c);
    words := cmds[..index];
  }

  /** The CP reads on. */
  method ReadOn(rb: A5xxRing, n: nat, ghost gone: seq<Word>, ghost given: seq<Word>) returns (ghost gone': seq<Word>)
    requires rb.Valid() && gone + rb.ring.Live() == given
    modifies rb.ring
    ensures rb.Valid() && gone' + rb.ring.Live() == given
  {
    ghost var passed := rb.ring.CpReads(n);
    Regroup(gone, passed, rb.ring.Live());
    gone' := gone + passed;
  }

  /** a5xx_ringbuffer_submitcmd: the command's dwords, the context switch, and the command in its envelope; and what the CP
    reads meanwhile. */
  method SubmitCmd(rb: A5xxRing, job: Job) returns (r: Result, ghost d: Done, ghost gone: seq<Word>, ghost more: seq<Word>)
    requires rb.Valid() && JobOk(job)
    modifies rb, rb.ring, rb.ring.buffer
    ensures rb.Valid() && d.job == job && rb.active == ActiveAfter(old(rb.active), d)
    ensures d.entered <==> old(rb.active) == Some(job.client) || !job.switchAt.detached
    ensures d.switched <==> old(Switches(rb, job))
    ensures d.placed <==> r == Ok
    ensures r == ENOENT <==> !d.entered || job.addAt.detached
    ensures r == EPROTO <==> d.entered && !job.addAt.detached && job.addAt.fault
    ensures gone + rb.ring.Live() == old(rb.ring.Live()) + more
    ensures Performs(KERNEL, more, KERNEL, JobSteps(old(rb.active), d, rb.slots, rb.rptrSlot))
  {
    ghost var active, first := rb.active, rb.ring.Live();
    var cmds := CommandWords(job.command);
    r, d, gone, more := SwitchFor(rb, job);
    gone := ReadOn(rb, job.switchAt.behind, gone, first + more);
    if r != Ok {
      DoesNothing(KERNEL);
      PerformsThen(KERNEL, more, KERNEL, SwitchPart(active, d, rb.slots, rb.rptrSlot), [], KERNEL, []);
      assert more + [] == more;
      return;
    }
    ghost var switched, live := d, rb.ring.Live();
    ghost var passed, work;
    r, d, passed, work := WorkFor(rb, job, cmds, switched);
    passed := ReadOn(rb, job.addAt.behind, passed, live + work);
    PerformsThen(KERNEL, more, KERNEL, SwitchPart(active, d, rb.slots, rb.rptrSlot), work, KERNEL, WorkPart(d, rb.rptrSlot));
    Further(gone, live, first, more, passed, rb.ring.Live(), work);
    gone, more := gone + passed, more + work;
  }

  lemma DoneNext(active: Option<Client>, done: seq<Done>, d: Done, slots: Slots, rptrSlot: Quad)
    ensures Active(active, done + [d]) == ActiveAfter(Active(active, done), d)
    ensures AllSteps(active, done + [d], slots, rptrSlot)
         == AllSteps(active, done, slots, rptrSlot) + JobSteps(Active(active, done), d, slots, rptrSlot)
  {
    assert (done + [d])[..|done|] == done;
  }

  /** One call more, behind all those before it. */
  method SubmitOneMore(rb: A5xxRing, job: Job, ghost active: Option<Client>, ghost first: seq<Word>, ghost done: seq<Done>,
                       ghost gone: seq<Word>, ghost all: seq<Word>)
      returns (r: Result, ghost d: Done, ghost gone': seq<Word>, ghost all': seq<Word>)
    requires rb.Valid() && JobOk(job) && rb.active == Active(active, done) && gone + rb.ring.Live() == first + all
    requires Performs(KERNEL, all, KERNEL, AllSteps(active, done, rb.slots, rb.rptrSlot))
    modifies rb, rb.ring, rb.ring.buffer
    ensures rb.Valid() && d.job == job && rb.active == Active(active, done + [d]) && gone' + rb.ring.Live() == first + all'
    ensures (d.switched ==> d.entered) && (d.placed <==> r == Ok)
    ensures Performs(KERNEL, all', KERNEL, AllSteps(active, done + [d], rb.slots, rb.rptrSlot))
  {
    ghost var live, passed, more := rb.ring.Live(), [], [];
    r, d, passed, more := SubmitCmd(rb, job);
    DoneNext(active, done, d, rb.slots, rb.rptrSlot);
    PerformsThen(KERNEL, all, KERNEL, AllSteps(active, done, rb.slots, rb.rptrSlot),
                 more, KERNEL, JobSteps(Active(active, done), d, rb.slots, rb.rptrSlot));
    Further(gone, live, first, all, passed, rb.ring.Live(), more);
    gone', all' := gone + passed, all + more;
  }

  predicate JobsOk(jobs: seq<Job>) {
    forall k :: 0 <= k < |jobs| ==> JobOk(jobs[k])
  }

  /** What became of each of some calls, in order. */
  predicate Outcomes(jobs: seq<Job>, results: seq<Result>, done: seq<Done>) {
    && |jobs| == |results| == |done| && Sensible(done)
    && forall k :: 0 <= k < |done| ==> done[k].job == jobs[k] && (done[k].placed <==> results[k] == Ok)
  }

  lemma OutcomesNext(jobs: seq<Job>, results: seq<Result>, done: seq<Done>, job: Job, r: Result, d: Done)
    requires Outcomes(jobs, results, done)
    requires d.job == job && (d.switched ==> d.entered) && (d.placed <==> r == Ok)
    ensures Outcomes(jobs + [job], results + [r], done + [d])
  {
  }

  /** Any run of submissions by any contexts, the CP reading on as it likes. All that was given to the CP is one stream. It
    runs the buffers of every command that was emitted, in order, each under the pagetable in force behind its own call's
    switch. On a new ring, or one whose active context's pagetable is in force, that is every context's own exactly if each
    change of pagetable was emitted and not to the default one. */
  method SubmitAll(rb: A5xxRing, jobs: seq<Job>, ghost space: Space)
      returns (results: seq<Result>, ghost done: seq<Done>, ghost gone: seq<Word>, ghost all: seq<Word>, ghost steps: seq<Step>)
    requires rb.Valid() && JobsOk(jobs)
    modifies rb, rb.ring, rb.ring.buffer
    ensures rb.Valid() && Outcomes(jobs, results, done) && rb.active == Active(old(rb.active), done)
    ensures gone + rb.ring.Live() == old(rb.ring.Live()) + all && Performs(KERNEL, all, KERNEL, steps)
    ensures IbSpaces(space, steps) == Buffers(old(rb.active), space, done)
    ensures space == SpaceOf(old(rb.active)) ==>
              (AllOwn(old(rb.active), space, done, |done|) <==> AllHanded(old(rb.active), done, |done|))
  {
    ghost var first, active := rb.ring.Live(), rb.active;
    results, done, gone, all := [], [], [], [];
    DoesNothing(KERNEL);
    var i := 0;
    while i < |jobs|
      invariant i <= |jobs| && rb.Valid() && Outcomes(jobs[..i], results, done) && rb.active == Active(active, done)
      invariant gone + rb.ring.Live() == first + all
      invariant Performs(KERNEL, all, KERNEL, AllSteps(active, done, rb.slots, rb.rptrSlot))
    {
      var r;
      ghost var d;
      r, d, gone, all := SubmitOneMore(rb, jobs[i], active, first, done, gone, all);
      OutcomesNext(jobs[..i], results, done, jobs[i], r, d);
      assert jobs[..i + 1] == jobs[..i] + [jobs[i]];
      results, done, i := results + [r], done + [d], i + 1;
    }
    assert jobs[..i] == jobs;
    steps := AllSteps(active, done, rb.slots, rb.rptrSlot);
    RunOf(jobs, results, done, active, space, rb.slots, rb.rptrSlot);
  }

  lemma RunOf(jobs: seq<Job>, results: seq<Result>, done: seq<Done>, active: Option<Client>, space: Space,
              slots: Slots, rptrSlot: Quad)
    requires JobsOk(jobs) && Outcomes(jobs, results, done)
    ensures IbSpaces(space, AllSteps(active, done, slots, rptrSlot)) == Buffers(active, space, done)
    ensures space == SpaceOf(active) ==> (AllOwn(active, space, done, |done|) <==> AllHanded(active, done, |done|))
  {
    AllWalk(active, space, done, slots, rptrSlot);
    if space == SpaceOf(active) {
      AlwaysOwn(active, space, done, |done|);
    }
  }
}
