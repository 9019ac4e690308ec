/** The manager's goroutines (manager.go): producers, workers behind a channel, a snapshotter per writer,
    the resetter, the alerter, and Stop, in any interleaving. Tasks are copied and emptied shard by shard
    (exact/task.go), beside the workers and each other. Producers are done before Stop closes the channel. */
module Manager {
  import opened Words
  import opened Packets

  datatype Writer = Writer(group: nat, positiveInterval: bool)

  /** One shard of a task, the unit of copying and emptying. */
  datatype Shard = Shard(task: nat, index: nat)

  /** Task t belongs to group groupOf[t]; a packet goes to its shard route(t, p). A nil packet is None. */
  datatype Config = Config(groupOf: seq<nat>, shards: set<Shard>, route: (nat, PacketInfo) -> nat,
                           writers: seq<Writer>, workers: nat, capacity: nat, alerter: bool)
  {
    function Tasks(): nat {
      |groupOf|
    }

    function AllShards(): set<Shard> {
      set x | x in shards && x.task < |groupOf|
    }

    /** The shards of the tasks of a writer's own group. */
    function ShardsOf(s: nat): set<Shard>
      requires s < |writers|
    {
      set x | x in shards && x.task < |groupOf| && groupOf[x.task] == writers[s].group
    }

    function Size(): nat {
      |AllShards()|
    }

    /** The packets counted in a shard. */
    function Own(x: Shard, h: seq<PacketInfo>): seq<PacketInfo> {
      if h == [] then []
      else
        var rest := Own(x, h[..|h| - 1]);
        if route(x.task, h[|h| - 1]) == x.index then rest + [h[|h| - 1]] else rest
    }
  }

  datatype Item = Nil | Packet(p: PacketInfo)

  /** A worker between two receives, with a packet that the tasks below next have processed, or gone. */
  datatype Worker = Waiting | Busy(p: PacketInfo, next: nat) | WorkerGone

  /** A ticker loop: in its select, doing its work on the shards that are left, or gone. */
  datatype Loop = Selecting | Working(final: bool, todo: set<Shard>) | LoopGone

  /** How far Stop has come: what it is waiting for. */
  datatype Phase =
    Running | ForWorkers | ForSnapshotters | ForResetter | ForAlerter | Evaluating(todo: set<Shard>) | Stopped

  /** Somebody copied a shard when upto packets had been delivered to its task and from of them before the
      shard was last emptied: what was seen are its own packets among delivered[from..upto]. */
  datatype Look = Look(reader: nat, shard: Shard, final: bool, from: nat, upto: nat)

  datatype State = State(
    phase: Phase,
    accepted: seq<Item>,
    channel: seq<Item>,
    workers: seq<Worker>,
    delivered: seq<seq<PacketInfo>>,
    since: map<Shard, nat>,
    snapshotters: seq<Loop>,
    resetter: Loop,
    alerter: Loop,
    shots: seq<Look>,
    evaluations: seq<Look>)

  datatype Step =
    | Send(item: Item)
    | HandOff(item: Item, w: nat)
    | Receive(w: nat)
    | Process(w: nat)
    | ExitWorker(w: nat)
    | SnapshotTick(s: nat)
    | SnapshotDone(s: nat)
    | SnapshotShard(s: nat, x: Shard)
    | SnapshotEnd(s: nat)
    | ResetTick
    | ResetDone
    | ResetShard(x: Shard)
    | ResetEnd
    | AlertTick
    | AlertDone
    | AlertShard(x: Shard)
    | AlertEnd
    | Stop
    | StopGoesOn
    | FinalAlert(x: Shard)

  /** packetChannel is closed. */
  predicate Closed(st: State) {
    !st.phase.Running?
  }

  /** done is closed. */
  predicate Done(st: State) {
    !st.phase.Running? && !st.phase.ForWorkers?
  }

  predicate AllGone(ws: seq<Worker>) {
    forall i :: 0 <= i < |ws| ==> ws[i].WorkerGone?
  }

  predicate LoopsGone(ls: seq<Loop>) {
    forall i :: 0 <= i < |ls| ==> ls[i].LoopGone?
  }

  /** What a loop over range (the channel) or the body of processPacket makes of an item: a nil packet is
      reported and dropped. */
  function Taking(item: Item): Worker {
    if item.Nil? then Waiting else Busy(item.p, 0)
  }

  function Initial(c: Config): State {
    State(Running, [], [], seq(c.workers, _ => Waiting), seq(c.Tasks(), _ => []), map x | x in c.AllShards() :: 0,
          seq(|c.writers|, s requires 0 <= s < |c.writers| =>
            if c.writers[s].positiveInterval then Selecting else LoopGone),
          Selecting, if c.alerter then Selecting else LoopGone, [], [])
  }

  /** The copy of a shard as it is now, for a snapshot or an evaluation. */
  function LookAt(st: State, reader: nat, x: Shard, final: bool): Look
    requires x.task < |st.delivered| && x in st.since
  {
    Look(reader, x, final, st.since[x], |st.delivered[x.task]|)
  }

  predicate Shaped(c: Config, st: State) {
    && |st.workers| == c.workers && |st.delivered| == c.Tasks() && st.since.Keys == c.AllShards()
    && |st.snapshotters| == |c.writers|
  }

  /** The channel and the workers. */
  function NextPacket(c: Config, st: State, step: Step): State
    requires Shaped(c, st)
  {
    match step
    case Send(item) =>
      if !Closed(st) && |st.channel| < c.capacity then
        st.(accepted := st.accepted + [item], channel := st.channel + [item])
      else st
    case HandOff(item, w) =>
      if !Closed(st) && st.channel == [] && w < c.workers && st.workers[w].Waiting? then
        st.(accepted := st.accepted + [item], workers := st.workers[w := Taking(item)])
      else st
    case Receive(w) =>
      if st.channel != [] && w < c.workers && st.workers[w].Waiting? then
        st.(channel := st.channel[1..], workers := st.workers[w := Taking(st.channel[0])])
      else st
    case Process(w) =>
      if w < c.workers && st.workers[w].Busy? then
        var p, t := st.workers[w].p, st.workers[w].next;
        if t < c.Tasks() then
          st.(delivered := st.delivered[t := st.delivered[t] + [p]], workers := st.workers[w := Busy(p, t + 1)])
        else st.(workers := st.workers[w := Waiting])
      else st
    case ExitWorker(w) =>
      if Closed(st) && st.channel == [] && w < c.workers && st.workers[w].Waiting? then
        st.(workers := st.workers[w := WorkerGone])
      else st
    case _ => st
  }

  /** The snapshotter of writer s. Its select may take the tick even when done is closed. */
  function NextSnapshotter(c: Config, st: State, step: Step): State
    requires Shaped(c, st)
  {
    match step
    case SnapshotTick(s) =>
      if s < |c.writers| && st.snapshotters[s].Selecting? then
        st.(snapshotters := st.snapshotters[s := Working(false, c.ShardsOf(s))])
      else st
    case SnapshotDone(s) =>
      if s < |c.writers| && st.snapshotters[s].Selecting? && Done(st) then
        st.(snapshotters := st.snapshotters[s := Working(true, c.ShardsOf(s))])
      else st
    case SnapshotShard(s, x) =>
      if s < |c.writers| && st.snapshotters[s].Working? && x in st.snapshotters[s].todo && x in c.AllShards() then
        var l := st.snapshotters[s];
        st.(snapshotters := st.snapshotters[s := Working(l.final, l.todo - {x})],
            shots := st.shots + [LookAt(st, s, x, l.final)])
      else st
    case SnapshotEnd(s) =>
      if s < |c.writers| && st.snapshotters[s].Working? && st.snapshotters[s].todo == {} then
        st.(snapshotters := st.snapshotters[s := if st.snapshotters[s].final then LoopGone else Selecting])
      else st
    case _ => st
  }

  function NextResetter(c: Config, st: State, step: Step): State
    requires Shaped(c, st)
  {
    match step
    case ResetTick => if st.resetter.Selecting? then st.(resetter := Working(false, c.AllShards())) else st
    case ResetDone => if st.resetter.Selecting? && Done(st) then st.(resetter := LoopGone) else st
    case ResetShard(x) =>
      if st.resetter.Working? && x in st.resetter.todo && x in c.AllShards() then
        st.(resetter := Working(false, st.resetter.todo - {x}), since := st.since[x := |st.delivered[x.task]|])
      else st
    case ResetEnd => if st.resetter.Working? && st.resetter.todo == {} then st.(resetter := Selecting) else st
    case _ => st
  }

  function NextAlerter(c: Config, st: State, step: Step): State
    requires Shaped(c, st)
  {
    match step
    case AlertTick => if st.alerter.Selecting? then st.(alerter := Working(false, c.AllShards())) else st
    case AlertDone => if st.alerter.Selecting? && st.phase.ForAlerter? then st.(alerter := LoopGone) else st
    case AlertShard(x) =>
      if st.alerter.Working? && x in st.alerter.todo && x in c.AllShards() then
        st.(alerter := Working(false, st.alerter.todo - {x}), evaluations := st.evaluations + [LookAt(st, 0, x, false)])
      else st
    case AlertEnd => if st.alerter.Working? && st.alerter.todo == {} then st.(alerter := Selecting) else st
    case _ => st
  }

  /** Stop: close the channel, wait for the workers, close done, wait for the loops, stop the alerter, let
      it look at every shard once more. */
  function NextStop(c: Config, st: State, step: Step): State
    requires Shaped(c, st)
  {
    match step
    case Stop => if st.phase.Running? then st.(phase := ForWorkers) else st
    case StopGoesOn =>
      (match st.phase
       case ForWorkers => if AllGone(st.workers) then st.(phase := ForSnapshotters) else st
       case ForSnapshotters => if LoopsGone(st.snapshotters) then st.(phase := ForResetter) else st
       case ForResetter => if st.resetter.LoopGone? then st.(phase := if c.alerter then ForAlerter else Stopped) else st
       case ForAlerter => if st.alerter.LoopGone? then st.(phase := Evaluating(c.AllShards())) else st
       case Evaluating(todo) => if todo == {} then st.(phase := Stopped) else st
       case _ => st)
    case FinalAlert(x) =>
      if st.phase.Evaluating? && x in st.phase.todo && x in c.AllShards() then
        st.(phase := Evaluating(st.phase.todo - {x}), evaluations := st.evaluations + [LookAt(st, 0, x, true)])
      else st
    case _ => st
  }

  predicate IsPacketStep(step: Step) {
    step.Send? || step.HandOff? || step.Receive? || step.Process? || step.ExitWorker?
  }

  predicate IsSnapshotStep(step: Step) {
    step.SnapshotTick? || step.SnapshotDone? || step.SnapshotShard? || step.SnapshotEnd?
  }

  predicate IsResetStep(step: Step) {
    step.ResetTick? || step.ResetDone? || step.ResetShard? || step.ResetEnd?
  }

  predicate IsAlertStep(step: Step) {
    step.AlertTick? || step.AlertDone? || step.AlertShard? || step.AlertEnd?
  }

  function Next(c: Config, st: State, step: Step): (next: State)
    requires Shaped(c, st)
    ensures Shaped(c, next)
  {
    if IsPacketStep(step) then NextPacket(c, st, step)
    else if IsSnapshotStep(step) then NextSnapshotter(c, st, step)
    else if IsResetStep(step) then NextResetter(c, st, step)
    else if IsAlertStep(step) then NextAlerter(c, st, step)
    else NextStop(c, st, step)
  }

  function Execute(c: Config, steps: seq<Step>): (st: State)
    ensures Shaped(c, st)
  {
    if steps == [] then Initial(c) else Next(c, Execute(c, steps[..|steps| - 1]), steps[|steps| - 1])
  }

  // Packets: nothing lost, nothing twice.

  /** How often p is among the items. */
  function Times(items: seq<Item>, p: PacketInfo): nat {
    if items == [] then 0 else (if items[0] == Packet(p) then 1 else 0) + Times(items[1..], p)
  }

  lemma {:induction false} TimesAppend(items: seq<Item>, item: Item, p: PacketInfo)
    ensures Times(items + [item], p) == Times(items, p) + (if item == Packet(p) then 1 else 0)
  {
    if items == [] {
      assert items + [item] == [item];
    } else {
      assert (items + [item])[1..] == items[1..] + [item];
      TimesAppend(items[1..], item, p);
    }
  }

  /** Whether a worker still owes p to task t. */
  function Owes(w: Worker, t: nat, p: PacketInfo): nat {
    if w.Busy? && w.p == p && w.next <= t then 1 else 0
  }

  function Held(ws: seq<Worker>, t: nat, p: PacketInfo): nat {
    if ws == [] then 0 else Owes(ws[0], t, p) + Held(ws[1..], t, p)
  }

  lemma {:induction false} HeldUpdate(ws: seq<Worker>, i: nat, w: Worker, t: nat, p: PacketInfo)
    requires i < |ws|
    ensures Held(ws[i := w], t, p) + Owes(ws[i], t, p) == Held(ws, t, p) + Owes(w, t, p)
  {
    if i > 0 {
      assert ws[i := w][1..] == ws[1..][i - 1 := w];
      HeldUpdate(ws[1..], i - 1, w, t, p);
    } else {
      assert ws[0 := w][1..] == ws[1..];
    }
  }

  lemma {:induction false} NothingHeld(ws: seq<Worker>, t: nat, p: PacketInfo)
    requires forall i :: 0 <= i < |ws| ==> !ws[i].Busy?
    ensures Held(ws, t, p) == 0
  {
    if ws != [] {
      NothingHeld(ws[1..], t, p);
    }
  }

  /** Of the times p was accepted, every one has reached task t, waits in the channel, or is in the hands of
      a worker that still has task t before it: exactly one of the three. */
  predicate ConservedFor(st: State, t: nat, p: PacketInfo)
    requires t < |st.delivered|
  {
    multiset(st.delivered[t])[p] + Times(st.channel, p) + Held(st.workers, t, p) == Times(st.accepted, p)
  }

  ghost predicate Conserved(c: Config, st: State)
    requires Shaped(c, st)
  {
    forall t, p :: 0 <= t < c.Tasks() ==> ConservedFor(st, t, p)
  }

  predicate WorkersOk(c: Config, st: State)
    requires Shaped(c, st)
  {
    && |st.channel| <= c.capacity
    && (forall w :: 0 <= w < c.workers && st.workers[w].Busy? ==> st.workers[w].next <= c.Tasks())
    && (forall w :: 0 <= w < c.workers && st.workers[w].WorkerGone? ==> Closed(st) && st.channel == [])
    && (Done(st) ==> AllGone(st.workers))
  }

  lemma ProcessConserves(c: Config, st: State, w: nat, t: nat, p: PacketInfo)
    requires Shaped(c, st) && t < c.Tasks() && ConservedFor(st, t, p) && w < c.workers && st.workers[w].Busy?
    requires st.workers[w].next <= c.Tasks()
    ensures ConservedFor(NextPacket(c, st, Process(w)), t, p)
  {
    var next := NextPacket(c, st, Process(w));
    HeldUpdate(st.workers, w, next.workers[w], t, p);
    var held := st.workers[w];
    if held.next == t {
      assert next.delivered[t] == st.delivered[t] + [held.p];
      assert multiset(next.delivered[t]) == multiset(st.delivered[t]) + multiset{held.p};
    }
  }

  lemma PacketStepConserves(c: Config, st: State, step: Step, t: nat, p: PacketInfo)
    requires Shaped(c, st) && WorkersOk(c, st) && t < c.Tasks() && ConservedFor(st, t, p) && IsPacketStep(step)
    ensures ConservedFor(NextPacket(c, st, step), t, p)
  {
    var next := NextPacket(c, st, step);
    match step {
      case Send(item) =>
        TimesAppend(st.accepted, item, p);
        TimesAppend(st.channel, item, p);
      case HandOff(item, w) =>
        if next != st {
          TimesAppend(st.accepted, item, p);
          HeldUpdate(st.workers, w, Taking(item), t, p);
        }
      case Receive(w) =>
        if next != st {
          HeldUpdate(st.workers, w, Taking(st.channel[0]), t, p);
        }
      case Process(w) =>
        if w < c.workers && st.workers[w].Busy? {
          ProcessConserves(c, st, w, t, p);
        }
      case ExitWorker(w) =>
        if next != st {
          HeldUpdate(st.workers, w, WorkerGone, t, p);
        }
    }
  }

  lemma PacketStepKeepsWorkers(c: Config, st: State, step: Step)
    requires Shaped(c, st) && WorkersOk(c, st) && IsPacketStep(step)
    ensures WorkersOk(c, NextPacket(c, st, step))
  {
  }

  /** Once done is closed no packet moves. */
  lemma NoPacketAfterDone(c: Config, st: State, step: Step)
    requires Shaped(c, st) && WorkersOk(c, st) && Done(st) && IsPacketStep(step)
    ensures NextPacket(c, st, step) == st
  {
  }

  /** Once done is closed every task has every accepted packet exactly as often as it was accepted. */
  lemma {:induction false} AllDelivered(c: Config, st: State, t: nat, p: PacketInfo)
    requires Shaped(c, st) && WorkersOk(c, st) && Done(st) && c.workers > 0 && t < c.Tasks() && ConservedFor(st, t, p)
    ensures multiset(st.delivered[t])[p] == Times(st.accepted, p)
  {
    assert st.workers[0].WorkerGone?;
    NothingHeld(st.workers, t, p);
  }

  // One worker keeps the order.

  function PacketsIn(items: seq<Item>): seq<PacketInfo> {
    if items == [] then []
    else
      var rest := PacketsIn(items[..|items| - 1]);
      if items[|items| - 1].Packet? then rest + [items[|items| - 1].p] else rest
  }

  lemma {:induction false} PacketsConcat(a: seq<Item>, b: seq<Item>)
    ensures PacketsIn(a + b) == PacketsIn(a) + PacketsIn(b)
  {
    if b == [] {
      assert a + b == a;
    } else {
      var init := b[..|b| - 1];
      PacketsConcat(a, init);
      assert (a + b)[..|a + b| - 1] == a + init;
    }
  }

  /** What the only worker has in hand for task t. */
  function InHand(w: Worker, t: nat): seq<PacketInfo> {
    if w.Busy? && w.next <= t then [w.p] else []
  }

  predicate Queued(c: Config, st: State, t: nat)
    requires Shaped(c, st) && c.workers == 1 && t < c.Tasks()
  {
    PacketsIn(st.accepted) == st.delivered[t] + InHand(st.workers[0], t) + PacketsIn(st.channel)
  }

  lemma OneItem(item: Item)
    ensures PacketsIn([item]) == (if item.Packet? then [item.p] else [])
  {
    assert [item][..0] == [];
  }

  lemma PacketStepKeepsOrder(c: Config, st: State, step: Step, t: nat)
    requires Shaped(c, st) && WorkersOk(c, st) && c.workers == 1 && t < c.Tasks() && IsPacketStep(step)
    requires Queued(c, st, t)
    ensures Queued(c, NextPacket(c, st, step), t)
  {
    match step {
      case Send(item) => SendKeepsOrder(c, st, item, t);
      case HandOff(item, w) => HandOffKeepsOrder(c, st, item, w, t);
      case Receive(w) => ReceiveKeepsOrder(c, st, w, t);
      case Process(w) => ProcessKeepsOrder(c, st, w, t);
      case ExitWorker(w) =>
    }
  }

  lemma SendKeepsOrder(c: Config, st: State, item: Item, t: nat)
    requires Shaped(c, st) && c.workers == 1 && t < c.Tasks() && Queued(c, st, t)
    ensures Queued(c, NextPacket(c, st, Send(item)), t)
  {
    PacketsConcat(st.accepted, [item]);
    PacketsConcat(st.channel, [item]);
    Regroup(st.delivered[t] + InHand(st.workers[0], t), PacketsIn(st.channel), PacketsIn([item]));
  }

  lemma Regroup<T>(a: seq<T>, b: seq<T>, e: seq<T>)
    ensures a + (b + e) == (a + b) + e
  {
  }

  lemma HandOffKeepsOrder(c: Config, st: State, item: Item, w: nat, t: nat)
    requires Shaped(c, st) && c.workers == 1 && t < c.Tasks() && Queued(c, st, t)
    ensures Queued(c, NextPacket(c, st, HandOff(item, w)), t)
  {
    PacketsConcat(st.accepted, [item]);
    OneItem(item);
    var next := NextPacket(c, st, HandOff(item, w));
    if next != st {
      assert next.workers[0] == Taking(item);
      assert InHand(next.workers[0], t) == PacketsIn([item]);
    }
  }

  lemma ReceiveKeepsOrder(c: Config, st: State, w: nat, t: nat)
    requires Shaped(c, st) && c.workers == 1 && t < c.Tasks() && Queued(c, st, t)
    ensures Queued(c, NextPacket(c, st, Receive(w)), t)
  {
    var next := NextPacket(c, st, Receive(w));
    if st.channel != [] && next != st {
      var first, rest := st.channel[0], st.channel[1..];
      PacketsConcat([first], rest);
      assert [first] + rest == st.channel;
      OneItem(first);
      assert next.workers[0] == Taking(first);
      assert InHand(next.workers[0], t) == PacketsIn([first]);
      Regroup(st.delivered[t], PacketsIn([first]), PacketsIn(rest));
    }
  }

  lemma ProcessKeepsOrder(c: Config, st: State, w: nat, t: nat)
    requires Shaped(c, st) && WorkersOk(c, st) && c.workers == 1 && t < c.Tasks() && Queued(c, st, t)
    ensures Queued(c, NextPacket(c, st, Process(w)), t)
  {
    var next := NextPacket(c, st, Process(w));
    if next != st {
      var held := st.workers[0];
      assert held.Busy? && held.next <= c.Tasks();
      assert next.delivered[t] + InHand(next.workers[0], t) == st.delivered[t] + InHand(held, t);
    }
  }

  /** With one worker every task has the accepted packets in the order in which they were accepted, less those
      still in hand or in the channel. */
  lemma {:induction false} OneWorkerKeepsOrder(c: Config, steps: seq<Step>, t: nat)
    requires c.workers == 1 && t < c.Tasks()
    ensures Queued(c, Execute(c, steps), t)
    ensures Execute(c, steps).delivered[t] <= PacketsIn(Execute(c, steps).accepted)
  {
    if steps != [] {
      var was, step := Execute(c, steps[..|steps| - 1]), steps[|steps| - 1];
      OneWorkerKeepsOrder(c, steps[..|steps| - 1], t);
      EveryRunKeepsInv(c, steps[..|steps| - 1]);
      if IsPacketStep(step) {
        PacketStepKeepsOrder(c, was, step, t);
      } else {
        OtherStepsLeavePackets(c, was, step);
      }
    }
  }

  // Snapshots.

  predicate HasFinal(looks: seq<Look>, reader: nat, x: Shard) {
    exists k :: 0 <= k < |looks| && looks[k].reader == reader && looks[k].shard == x && looks[k].final
  }

  predicate NoFinal(looks: seq<Look>, reader: nat) {
    forall k :: 0 <= k < |looks| && looks[k].reader == reader ==> !looks[k].final
  }

  /** A snapshotter takes final snapshots only after done, of its own group, and leaves only when it has one
      of every shard. One without a positive interval never runs. */
  predicate SnapshotterOk(c: Config, st: State, s: nat)
    requires Shaped(c, st) && s < |c.writers|
  {
    match st.snapshotters[s]
    case Selecting => c.writers[s].positiveInterval && NoFinal(st.shots, s)
    case Working(final, todo) =>
      && c.writers[s].positiveInterval && todo <= c.ShardsOf(s)
      && (if final then Done(st) && forall x :: x in c.ShardsOf(s) - todo ==> HasFinal(st.shots, s, x)
          else NoFinal(st.shots, s))
    case LoopGone =>
      c.writers[s].positiveInterval ==> Done(st) && forall x :: x in c.ShardsOf(s) ==> HasFinal(st.shots, s, x)
  }

  /** A copy is of a shard of the writer's group; a final one is taken with everything delivered. */
  predicate ShotOk(c: Config, st: State, look: Look)
    requires Shaped(c, st)
  {
    && look.reader < |c.writers| && look.shard in c.ShardsOf(look.reader)
    && look.from <= look.upto <= |st.delivered[look.shard.task]|
    && (look.final ==> Done(st) && look.upto == |st.delivered[look.shard.task]|)
  }

  /** After a final snapshot a writer takes no other kind. */
  predicate FinalsLast(shots: seq<Look>) {
    forall i, j :: 0 <= i < j < |shots| && shots[i].reader == shots[j].reader && shots[i].final ==> shots[j].final
  }

  predicate SinceOk(c: Config, st: State)
    requires Shaped(c, st)
  {
    forall x :: x in c.AllShards() ==> st.since[x] <= |st.delivered[x.task]|
  }

  predicate ShotsOk(c: Config, st: State)
    requires Shaped(c, st)
  {
    && SinceOk(c, st)
    && (forall s :: 0 <= s < |c.writers| ==> SnapshotterOk(c, st, s))
    && (forall k :: 0 <= k < |st.shots| ==> ShotOk(c, st, st.shots[k]))
    && FinalsLast(st.shots)
  }

  lemma SnapshotShardKeeps(c: Config, st: State, s: nat, x: Shard)
    requires Shaped(c, st) && ShotsOk(c, st) && s < |c.writers| && x in c.AllShards()
    requires st.snapshotters[s].Working? && x in st.snapshotters[s].todo
    ensures ShotsOk(c, NextSnapshotter(c, st, SnapshotShard(s, x)))
  {
    var next := NextSnapshotter(c, st, SnapshotShard(s, x));
    var l := st.snapshotters[s];
    var look := LookAt(st, s, x, l.final);
    assert SnapshotterOk(c, st, s);
    assert next.shots == st.shots + [look];
    MoreLooks(st.shots, look);
    forall r | 0 <= r < |c.writers| ensures SnapshotterOk(c, next, r) {
      assert SnapshotterOk(c, st, r);
    }
    forall k | 0 <= k < |next.shots| ensures ShotOk(c, next, next.shots[k]) {
      if k < |st.shots| {
        assert ShotOk(c, st, st.shots[k]);
      }
    }
  }

  lemma MoreLooks(looks: seq<Look>, look: Look)
    ensures forall r, x :: HasFinal(looks, r, x) ==> HasFinal(looks + [look], r, x)
    ensures look.final ==> HasFinal(looks + [look], look.reader, look.shard)
    ensures forall r :: NoFinal(looks, r) && (r != look.reader || !look.final) ==> NoFinal(looks + [look], r)
  {
    var more := looks + [look];
    assert more[|looks|] == look;
    forall r, x | HasFinal(looks, r, x) ensures HasFinal(more, r, x) {
      var k :| 0 <= k < |looks| && looks[k].reader == r && looks[k].shard == x && looks[k].final;
      assert more[k] == looks[k];
    }
  }

  lemma SnapshotStepKeeps(c: Config, st: State, step: Step)
    requires Shaped(c, st) && ShotsOk(c, st) && IsSnapshotStep(step)
    ensures ShotsOk(c, NextSnapshotter(c, st, step))
  {
    var next := NextSnapshotter(c, st, step);
    if next != st {
      if step.SnapshotShard? {
        SnapshotShardKeeps(c, st, step.s, step.x);
      } else {
        assert SnapshotterOk(c, st, step.s);
        forall r | 0 <= r < |c.writers| ensures SnapshotterOk(c, next, r) {
          assert SnapshotterOk(c, st, r);
        }
        forall k | 0 <= k < |next.shots| ensures ShotOk(c, next, next.shots[k]) {
          assert ShotOk(c, st, st.shots[k]);
        }
      }
    }
  }

  /** Packets, resets, the alerter and Stop do not disturb snapshots: before done there is no final one to
      outdate, and after it no packet moves. */
  lemma OtherStepKeepsShots(c: Config, st: State, step: Step)
    requires Shaped(c, st) && WorkersOk(c, st) && ShotsOk(c, st) && !IsSnapshotStep(step)
    ensures ShotsOk(c, Next(c, st, step))
  {
    if IsPacketStep(step) && Done(st) {
      NoPacketAfterDone(c, st, step);
    } else {
      OtherStepFrame(c, st, step);
      ShotsCarryOver(c, st, Next(c, st, step));
    }
  }

  lemma OtherStepFrame(c: Config, st: State, step: Step)
    requires Shaped(c, st) && SinceOk(c, st) && !IsSnapshotStep(step) && (IsPacketStep(step) ==> !Done(st))
    ensures var next := Next(c, st, step);
            && next.shots == st.shots && next.snapshotters == st.snapshotters && (Done(st) ==> Done(next))
            && (forall t :: 0 <= t < c.Tasks() ==> |st.delivered[t]| <= |next.delivered[t]|)
            && (Done(st) ==> next.delivered == st.delivered) && SinceOk(c, next)
  {
    SinceFrame(c, st, step);
  }

  lemma SinceFrame(c: Config, st: State, step: Step)
    requires Shaped(c, st) && SinceOk(c, st)
    ensures SinceOk(c, Next(c, st, step))
  {
    var next := Next(c, st, step);
    forall x | x in c.AllShards() ensures next.since[x] <= |next.delivered[x.task]| {
      SinceOf(c, st, step, x);
    }
  }

  lemma SinceOf(c: Config, st: State, step: Step, x: Shard)
    requires Shaped(c, st) && SinceOk(c, st) && x in c.AllShards()
    ensures Next(c, st, step).since[x] <= |Next(c, st, step).delivered[x.task]|
  {
    assert st.since[x] <= |st.delivered[x.task]|;
    if IsPacketStep(step) {
      PacketsSince(c, st, step, x);
    } else if IsResetStep(step) {
      ResetsSince(c, st, step, x);
    }
  }

  lemma PacketsSince(c: Config, st: State, step: Step, x: Shard)
    requires Shaped(c, st) && x in c.AllShards()
    ensures var next := NextPacket(c, st, step);
            next.since == st.since && |next.delivered[x.task]| >= |st.delivered[x.task]|
  {
  }

  lemma ResetsSince(c: Config, st: State, step: Step, x: Shard)
    requires Shaped(c, st) && x in c.AllShards()
    ensures var next := NextResetter(c, st, step);
            next.delivered == st.delivered && (next.since[x] == st.since[x] || next.since[x] == |st.delivered[x.task]|)
  {
  }

  lemma ShotsCarryOver(c: Config, st: State, next: State)
    requires Shaped(c, st) && ShotsOk(c, st) && Shaped(c, next) && SinceOk(c, next)
    requires next.shots == st.shots && next.snapshotters == st.snapshotters && (Done(st) ==> Done(next))
    requires forall t :: 0 <= t < c.Tasks() ==> |st.delivered[t]| <= |next.delivered[t]|
    requires Done(st) ==> next.delivered == st.delivered
    ensures ShotsOk(c, next)
  {
    forall r | 0 <= r < |c.writers| ensures SnapshotterOk(c, next, r) {
      assert SnapshotterOk(c, st, r);
    }
    forall k | 0 <= k < |next.shots| ensures ShotOk(c, next, next.shots[k]) {
      assert ShotOk(c, st, st.shots[k]);
    }
  }

  // The order of Stop and the alerter's last look.

  predicate StopOk(c: Config, st: State)
    requires Shaped(c, st)
  {
    && (st.phase.ForResetter? || st.phase.ForAlerter? || st.phase.Evaluating? || st.phase.Stopped? ==>
          LoopsGone(st.snapshotters))
    && (st.phase.ForAlerter? || st.phase.Evaluating? || st.phase.Stopped? ==> st.resetter.LoopGone?)
    && (st.phase.Evaluating? || st.phase.Stopped? || !c.alerter ==> st.alerter.LoopGone?)
    && (st.phase.Evaluating? || st.phase.ForAlerter? ==> c.alerter)
    && (st.resetter.Working? ==> !st.resetter.final && st.resetter.todo <= c.AllShards())
    && (st.alerter.Working? ==> !st.alerter.final && st.alerter.todo <= c.AllShards())
    && (st.phase.Evaluating? ==> st.phase.todo <= c.AllShards())
  }

  /** The alerter's final evaluation saw the shard as it is now. */
  predicate FinallyEvaluated(st: State, x: Shard)
    requires x.task < |st.delivered| && x in st.since
  {
    LookAt(st, 0, x, true) in st.evaluations
  }

  predicate EvaluationsOk(c: Config, st: State)
    requires Shaped(c, st)
  {
    && (st.phase.Evaluating? ==> forall x :: x in c.AllShards() - st.phase.todo ==> FinallyEvaluated(st, x))
    && (st.phase.Stopped? && c.alerter ==> forall x :: x in c.AllShards() ==> FinallyEvaluated(st, x))
  }

  ghost predicate Inv(c: Config, st: State) {
    Shaped(c, st) && Conserved(c, st) && WorkersOk(c, st) && ShotsOk(c, st) && StopOk(c, st) && EvaluationsOk(c, st)
  }

  /** When the alerter takes its last look, and ever after, no step of any goroutine changes a task. */
  lemma TasksAreFixed(c: Config, st: State, step: Step)
    requires Inv(c, st) && (st.phase.ForAlerter? || st.phase.Evaluating? || st.phase.Stopped?)
    ensures Next(c, st, step).delivered == st.delivered && Next(c, st, step).since == st.since
  {
    if IsPacketStep(step) {
      NoPacketAfterDone(c, st, step);
    }
  }

  lemma StepKeepsStop(c: Config, st: State, step: Step)
    requires Inv(c, st)
    ensures StopOk(c, Next(c, st, step))
  {
  }

  lemma StepKeepsEvaluations(c: Config, st: State, step: Step)
    requires Inv(c, st)
    ensures EvaluationsOk(c, Next(c, st, step))
  {
    if IsPacketStep(step) || IsSnapshotStep(step) || IsResetStep(step) || IsAlertStep(step) {
      OnlyStopMovesPhase(c, st, step);
      if st.phase.Evaluating? || st.phase.Stopped? {
        TasksAreFixed(c, st, step);
      }
      EvaluationsCarryOver(c, st, Next(c, st, step));
    } else {
      StopStepKeepsEvaluations(c, st, step);
    }
  }

  lemma OnlyStopMovesPhase(c: Config, st: State, step: Step)
    requires Shaped(c, st) && (IsPacketStep(step) || IsSnapshotStep(step) || IsResetStep(step) || IsAlertStep(step))
    ensures Next(c, st, step).phase == st.phase
    ensures forall e :: e in st.evaluations ==> e in Next(c, st, step).evaluations
  {
  }

  lemma EvaluationsCarryOver(c: Config, st: State, next: State)
    requires Shaped(c, st) && Shaped(c, next) && EvaluationsOk(c, st) && next.phase == st.phase
    requires st.phase.Evaluating? || st.phase.Stopped? ==> next.delivered == st.delivered && next.since == st.since
    requires forall e :: e in st.evaluations ==> e in next.evaluations
    ensures EvaluationsOk(c, next)
  {
    forall x | x in c.AllShards() && next.delivered == st.delivered && next.since == st.since && FinallyEvaluated(st, x)
      ensures FinallyEvaluated(next, x)
    {
    }
  }

  lemma StopStepKeepsEvaluations(c: Config, st: State, step: Step)
    requires Shaped(c, st) && StopOk(c, st) && EvaluationsOk(c, st)
    ensures EvaluationsOk(c, NextStop(c, st, step))
  {
    var next := NextStop(c, st, step);
    assert next.delivered == st.delivered && next.since == st.since;
    forall x | x in c.AllShards() && FinallyEvaluated(st, x) ensures FinallyEvaluated(next, x) {
    }
  }

  lemma StepKeepsWorkers(c: Config, st: State, step: Step)
    requires Inv(c, st)
    ensures WorkersOk(c, Next(c, st, step)) && Conserved(c, Next(c, st, step))
  {
    var next := Next(c, st, step);
    if IsPacketStep(step) {
      PacketStepKeepsWorkers(c, st, step);
      forall t, p | 0 <= t < c.Tasks() ensures ConservedFor(next, t, p) {
        assert ConservedFor(st, t, p);
        PacketStepConserves(c, st, step, t, p);
      }
    } else {
      OtherStepsLeavePackets(c, st, step);
      forall t, p | 0 <= t < c.Tasks() ensures ConservedFor(next, t, p) {
        assert ConservedFor(st, t, p);
      }
    }
  }

  lemma OtherStepsLeavePackets(c: Config, st: State, step: Step)
    requires Shaped(c, st) && !IsPacketStep(step)
    ensures var next := Next(c, st, step);
            && next.accepted == st.accepted && next.channel == st.channel && next.workers == st.workers
            && next.delivered == st.delivered && (Closed(st) ==> Closed(next))
            && (Done(next) ==> Done(st) || AllGone(st.workers))
  {
  }

  lemma InitialInv(c: Config)
    ensures Inv(c, Initial(c))
  {
    var st := Initial(c);
    forall t, p | 0 <= t < c.Tasks() ensures ConservedFor(st, t, p) {
      NothingHeld(st.workers, t, p);
    }
  }

  lemma {:induction false} EveryRunKeepsInv(c: Config, steps: seq<Step>)
    ensures Inv(c, Execute(c, steps))
  {
    if steps == [] {
      InitialInv(c);
    } else {
      var st, step := Execute(c, steps[..|steps| - 1]), steps[|steps| - 1];
      EveryRunKeepsInv(c, steps[..|steps| - 1]);
      StepKeepsWorkers(c, st, step);
      if IsSnapshotStep(step) {
        SnapshotStepKeeps(c, st, step);
      } else {
        OtherStepKeepsShots(c, st, step);
      }
      StepKeepsStop(c, st, step);
      StepKeepsEvaluations(c, st, step);
    }
  }

  // What a run of the manager guarantees.

  /** For any worker count, channel capacity and interleaving: no task ever has a packet more often than it
      was accepted, and once done is closed each has every packet exactly as often; from then on no packet
      moves. */
  lemma {:induction false} ExactlyOnce(c: Config, steps: seq<Step>, t: nat, p: PacketInfo)
    requires t < c.Tasks() && c.workers > 0
    ensures var st := Execute(c, steps);
            && multiset(st.delivered[t])[p] <= Times(st.accepted, p)
            && (Done(st) ==> multiset(st.delivered[t])[p] == Times(st.accepted, p))
            && (Done(st) ==> forall step :: Next(c, st, step).delivered == st.delivered)
  {
    EveryRunKeepsInv(c, steps);
    var st := Execute(c, steps);
    assert ConservedFor(st, t, p);
    if Done(st) {
      AllDelivered(c, st, t, p);
      forall step ensures Next(c, st, step).delivered == st.delivered {
        if IsPacketStep(step) {
          NoPacketAfterDone(c, st, step);
        } else {
          OtherStepsLeavePackets(c, st, step);
        }
      }
    }
  }

  /** A writer with a positive interval leaves only after a copy, its last, of every shard of its group's
      tasks, taken after every accepted packet was delivered; and no writer ever sees another group's task. */
  lemma {:induction false} LastSnapshotSeesEverything(c: Config, steps: seq<Step>, s: nat)
    requires s < |c.writers|
    ensures var st := Execute(c, steps);
            && (forall k :: 0 <= k < |st.shots| ==>
                  st.shots[k].reader < |c.writers| && st.shots[k].shard in c.ShardsOf(st.shots[k].reader))
            && FinalsLast(st.shots)
            && (forall k :: 0 <= k < |st.shots| && st.shots[k].final ==>
                  Done(st) && st.shots[k].upto == |st.delivered[st.shots[k].shard.task]|)
            && (st.snapshotters[s].LoopGone? && c.writers[s].positiveInterval ==>
                  forall x :: x in c.ShardsOf(s) ==> HasFinal(st.shots, s, x))
  {
    EveryRunKeepsInv(c, steps);
    var st := Execute(c, steps);
    assert SnapshotterOk(c, st, s);
    assert forall k :: 0 <= k < |st.shots| ==> ShotOk(c, st, st.shots[k]);
  }

  /** When Stop has returned, the alerter has looked at every shard as it is then and will stay. */
  lemma {:induction false} LastEvaluationIsFinal(c: Config, steps: seq<Step>, x: Shard)
    requires x in c.AllShards() && Execute(c, steps).phase.Stopped?
    ensures var st := Execute(c, steps);
            && (c.alerter ==> FinallyEvaluated(st, x))
            && LoopsGone(st.snapshotters) && st.resetter.LoopGone? && st.alerter.LoopGone? && AllGone(st.workers)
            && forall step :: Next(c, st, step).delivered == st.delivered && Next(c, st, step).since == st.since
  {
    EveryRunKeepsInv(c, steps);
    var st := Execute(c, steps);
    forall step ensures Next(c, st, step).delivered == st.delivered && Next(c, st, step).since == st.since {
      TasksAreFixed(c, st, step);
    }
  }

  /** The resetter stays until done is closed, the alerter until Stop stops it. */
  predicate LoopsStay(c: Config, st: State) {
    && (st.resetter.LoopGone? ==> Done(st))
    && (c.alerter && st.alerter.LoopGone? ==> st.phase.ForAlerter? || st.phase.Evaluating? || st.phase.Stopped?)
  }

  lemma StepKeepsLoops(c: Config, st: State, step: Step)
    requires Shaped(c, st) && LoopsStay(c, st)
    ensures LoopsStay(c, Next(c, st, step))
  {
  }

  lemma {:induction false} StayUntilStopped(c: Config, steps: seq<Step>)
    ensures LoopsStay(c, Execute(c, steps))
  {
    if steps != [] {
      StayUntilStopped(c, steps[..|steps| - 1]);
      StepKeepsLoops(c, Execute(c, steps[..|steps| - 1]), steps[|steps| - 1]);
    }
  }

  /** No loop leaves before its time: a snapshotter with a positive interval and the resetter stay until done is
      closed, the alerter until Stop, past all of them, stops it. */
  lemma {:induction false} NoLoopLeavesEarly(c: Config, steps: seq<Step>)
    ensures var st := Execute(c, steps);
            && (st.phase.Running? || st.phase.ForWorkers? ==>
                  && !st.resetter.LoopGone?
                  && forall s :: 0 <= s < |c.writers| && c.writers[s].positiveInterval ==>
                                   !st.snapshotters[s].LoopGone?)
            && (c.alerter && !st.phase.ForAlerter? && !st.phase.Evaluating? && !st.phase.Stopped? ==>
                  !st.alerter.LoopGone?)
  {
    StayUntilStopped(c, steps);
    EveryRunKeepsInv(c, steps);
    forall s | 0 <= s < |c.writers| && c.writers[s].positiveInterval && Execute(c, steps).snapshotters[s].LoopGone?
      ensures Done(Execute(c, steps))
    {
      assert SnapshotterOk(c, Execute(c, steps), s);
    }
  }

  function Sends(items: seq<Item>): seq<Step> {
    if items == [] then [] else Sends(items[..|items| - 1]) + [Send(items[|items| - 1])]
  }

  /** Producers alone fill the channel to its capacity, in order, and are blocked from then on. */
  lemma {:induction false} ChannelFills(c: Config, items: seq<Item>)
    requires |items| <= c.capacity
    ensures var st := Execute(c, Sends(items));
            && st.accepted == items && st.channel == items && st.phase.Running?
            && (|items| == c.capacity ==> forall item :: Next(c, st, Send(item)) == st)
  {
    if items != [] {
      var init, item := items[..|items| - 1], items[|items| - 1];
      ChannelFills(c, init);
      assert Sends(items)[..|Sends(items)| - 1] == Sends(init);
      assert items == init + [item];
    }
  }

  function Processes(w: nat, n: nat): seq<Step> {
    if n == 0 then [] else Processes(w, n - 1) + [Process(w)]
  }

  /** A worker has the only packet, and the tasks below n have it. */
  predicate DeliveredTo(c: Config, st: State, p: PacketInfo, w: nat, n: nat)
    requires Shaped(c, st)
  {
    && st.accepted == [Packet(p)] && st.channel == [] && st.phase.Running?
    && w < c.workers && st.workers[w] == Busy(p, n)
    && forall t :: 0 <= t < c.Tasks() ==> st.delivered[t] == if t < n then [p] else []
  }

  lemma HandedOver(c: Config, p: PacketInfo, w: nat)
    requires w < c.workers
    ensures DeliveredTo(c, Next(c, Initial(c), HandOff(Packet(p), w)), p, w, 0)
  {
  }

  lemma OneMoreTask(c: Config, st: State, p: PacketInfo, w: nat, n: nat)
    requires Shaped(c, st) && n < c.Tasks() && DeliveredTo(c, st, p, w, n)
    ensures DeliveredTo(c, Next(c, st, Process(w)), p, w, n + 1)
  {
  }

  /** A packet handed to a waiting worker is delivered to one task after the other. */
  lemma {:induction false} HandedPacketIsDelivered(c: Config, p: PacketInfo, w: nat, n: nat)
    requires w < c.workers && n <= c.Tasks()
    ensures DeliveredTo(c, Execute(c, [HandOff(Packet(p), w)] + Processes(w, n)), p, w, n)
  {
    var steps := [HandOff(Packet(p), w)] + Processes(w, n);
    if n == 0 {
      assert steps[..|steps| - 1] == [];
      assert Execute(c, []) == Initial(c);
      HandedOver(c, p, w);
    } else {
      HandedPacketIsDelivered(c, p, w, n - 1);
      assert steps[..|steps| - 1] == [HandOff(Packet(p), w)] + Processes(w, n - 1);
      OneMoreTask(c, Execute(c, steps[..|steps| - 1]), p, w, n - 1);
    }
  }

  /** No reset is under way and none has taken anything from a task or a snapshot. */
  predicate NeverReset(c: Config, st: State)
    requires Shaped(c, st)
  {
    && !st.resetter.Working?
    && (forall x :: x in c.AllShards() ==> st.since[x] == 0)
    && (forall k :: 0 <= k < |st.shots| ==> st.shots[k].from == 0)
  }

  lemma StepWithoutReset(c: Config, st: State, step: Step)
    requires Shaped(c, st) && NeverReset(c, st) && step != ResetTick
    ensures NeverReset(c, Next(c, st, step))
  {
  }

  /** If the period never elapses, nothing is forgotten: a final snapshot is of all packets delivered. */
  lemma {:induction false} WithoutReset(c: Config, steps: seq<Step>)
    requires ResetTick !in steps
    ensures NeverReset(c, Execute(c, steps))
  {
    if steps != [] {
      var before, step := steps[..|steps| - 1], steps[|steps| - 1];
      assert step in steps && forall x :: x in before ==> x in steps;
      WithoutReset(c, before);
      StepWithoutReset(c, Execute(c, before), step);
    }
  }

  // What resets take away, exactly.

  lemma {:induction false} OwnAppend(c: Config, x: Shard, h: seq<PacketInfo>, p: PacketInfo)
    ensures c.Own(x, h + [p]) == if c.route(x.task, p) == x.index then c.Own(x, h) + [p] else c.Own(x, h)
  {
    assert (h + [p])[..|h|] == h;
  }

  lemma {:induction false} OwnConcat(c: Config, x: Shard, g: seq<PacketInfo>, h: seq<PacketInfo>)
    ensures c.Own(x, g + h) == c.Own(x, g) + c.Own(x, h)
  {
    if h == [] {
      assert g + h == g;
    } else {
      var init, p := h[..|h| - 1], h[|h| - 1];
      OwnConcat(c, x, g, init);
      assert h == init + [p] && g + h == (g + init) + [p];
      OwnAppend(c, x, g + init, p);
    }
  }

  lemma {:induction false} OwnSplits(c: Config, x: Shard, h: seq<PacketInfo>, n: nat)
    requires n <= |h|
    ensures c.Own(x, h) == c.Own(x, h[..n]) + c.Own(x, h[n..])
  {
    assert h == h[..n] + h[n..];
    OwnConcat(c, x, h[..n], h[n..]);
  }

  /** The packets that a shard holds, and those that resets took from it. */
  function Holds(c: Config, st: State, x: Shard): seq<PacketInfo>
    requires Shaped(c, st) && SinceOk(c, st) && x in c.AllShards()
  {
    c.Own(x, st.delivered[x.task][st.since[x]..])
  }

  function Lost(c: Config, st: State, x: Shard): seq<PacketInfo>
    requires Shaped(c, st) && SinceOk(c, st) && x in c.AllShards()
  {
    c.Own(x, st.delivered[x.task][..st.since[x]])
  }

  /** This step makes the resetter empty a shard that holds something. */
  predicate Empties(c: Config, st: State, step: Step, x: Shard)
    requires Shaped(c, st) && SinceOk(c, st) && x in c.AllShards()
  {
    step == ResetShard(x) && st.resetter.Working? && x in st.resetter.todo && Holds(c, st, x) != []
  }

  lemma {:induction false} RunIsOk(c: Config, steps: seq<Step>)
    ensures Shaped(c, Execute(c, steps)) && SinceOk(c, Execute(c, steps))
  {
    EveryRunKeepsInv(c, steps);
  }

  /** Step j of a run does so. */
  predicate Forgets(c: Config, steps: seq<Step>, j: nat, x: Shard)
    requires x in c.AllShards()
  {
    RunIsOk(c, steps[..if j < |steps| then j else 0]);
    j < |steps| && Empties(c, Execute(c, steps[..j]), steps[j], x)
  }

  lemma LostStep(c: Config, st: State, step: Step, x: Shard)
    requires Shaped(c, st) && SinceOk(c, st) && x in c.AllShards() && SinceOk(c, Next(c, st, step))
    ensures Lost(c, Next(c, st, step), x) ==
            if Empties(c, st, step, x) then Lost(c, st, x) + Holds(c, st, x) else Lost(c, st, x)
  {
    var next, d, n := Next(c, st, step), st.delivered[x.task], st.since[x];
    DeliveredGrows(c, st, step, x.task);
    OwnSplits(c, x, d, n);
    if next.since[x] == n {
      assert next.delivered[x.task][..n] == d[..n];
    } else {
      assert step == ResetShard(x) && next.since[x] == |d|;
      assert next.delivered[x.task][..|d|] == d;
    }
    if Empties(c, st, step, x) {
      EmptiedIsShort(c, x, d, n);
    }
  }

  lemma {:induction false} EmptiedIsShort(c: Config, x: Shard, d: seq<PacketInfo>, n: nat)
    requires n <= |d| && c.Own(x, d[n..]) != []
    ensures n < |d|
  {
  }

  lemma DeliveredGrows(c: Config, st: State, step: Step, t: nat)
    requires Shaped(c, st) && t < c.Tasks()
    ensures st.delivered[t] <= Next(c, st, step).delivered[t]
  {
  }

  lemma {:induction false} DeliveredOnlyGrows(c: Config, steps: seq<Step>, i: nat, t: nat)
    requires i <= |steps| && t < c.Tasks()
    ensures Execute(c, steps[..i]).delivered[t] <= Execute(c, steps).delivered[t]
  {
    if i == |steps| {
      assert steps[..i] == steps;
    } else {
      var n := |steps| - 1;
      assert steps[..n][..i] == steps[..i];
      DeliveredOnlyGrows(c, steps[..n], i, t);
      DeliveredGrows(c, Execute(c, steps[..n]), steps[n], t);
    }
  }

  lemma ForgetsInPrefix(c: Config, steps: seq<Step>, n: nat, j: nat, x: Shard)
    requires x in c.AllShards() && j < n <= |steps|
    ensures Forgets(c, steps[..n], j, x) <==> Forgets(c, steps, j, x)
  {
    assert steps[..n][..j] == steps[..j];
  }

  /** Some step from i on empties the shard while it holds something. */
  ghost predicate ForgetsFrom(c: Config, steps: seq<Step>, i: nat, x: Shard)
    requires x in c.AllShards()
  {
    exists j: nat :: i <= j && Forgets(c, steps, j, x)
  }

  function LostBy(c: Config, steps: seq<Step>, x: Shard): seq<PacketInfo>
    requires x in c.AllShards()
  {
    RunIsOk(c, steps);
    Lost(c, Execute(c, steps), x)
  }

  /** Something that only grows has grown between two moments exactly when it did at some step in between. */
  lemma {:induction false} GrownIff<T>(value: nat -> seq<T>, grows: nat -> bool, i: nat, n: nat)
    requires i <= n && forall j :: i <= j < n ==> GrowsAt(value, grows, j)
    ensures value(i) <= value(n)
    ensures value(i) != value(n) <==> exists j :: i <= j < n && grows(j)
  {
    if i < n {
      GrownIff(value, grows, i, n - 1);
      assert GrowsAt(value, grows, n - 1);
    }
  }

  ghost predicate GrowsAt<T>(value: nat -> seq<T>, grows: nat -> bool, j: nat) {
    value(j) <= value(j + 1) && (value(j) != value(j + 1) <==> grows(j))
  }

  function LostAt(c: Config, steps: seq<Step>, x: Shard): nat -> seq<PacketInfo>
    requires x in c.AllShards()
  {
    (j: nat) => LostBy(c, steps[..if j <= |steps| then j else 0], x)
  }

  function ForgetsAt(c: Config, steps: seq<Step>, x: Shard): nat -> bool
    requires x in c.AllShards()
  {
    (j: nat) => Forgets(c, steps, j, x)
  }

  /** Between two moments of a run a shard forgets something exactly when some step in between empties it
      while it holds something. */
  lemma LosesIff(c: Config, steps: seq<Step>, i: nat, x: Shard)
    requires i <= |steps| && x in c.AllShards()
    ensures LostBy(c, steps[..i], x) <= LostBy(c, steps, x)
    ensures LostBy(c, steps[..i], x) != LostBy(c, steps, x) <==> ForgetsFrom(c, steps, i, x)
  {
    forall j | i <= j < |steps| ensures GrowsAt(LostAt(c, steps, x), ForgetsAt(c, steps, x), j) {
      LosesAt(c, steps, j, x);
    }
    GrownIff(LostAt(c, steps, x), ForgetsAt(c, steps, x), i, |steps|);
    assert steps[..|steps|] == steps;
    ForgetsMarked(c, steps, i, x);
  }

  lemma LosesAt(c: Config, steps: seq<Step>, j: nat, x: Shard)
    requires j < |steps| && x in c.AllShards()
    ensures GrowsAt(LostAt(c, steps, x), ForgetsAt(c, steps, x), j)
  {
    assert steps[..j + 1][..j] == steps[..j];
    LosesOneMore(c, steps[..j + 1], x);
    ForgetsInPrefix(c, steps, j + 1, j, x);
  }

  lemma ForgetsMarked(c: Config, steps: seq<Step>, i: nat, x: Shard)
    requires x in c.AllShards()
    ensures ForgetsFrom(c, steps, i, x) <==> exists j :: i <= j < |steps| && ForgetsAt(c, steps, x)(j)
  {
    if ForgetsFrom(c, steps, i, x) {
      var j: nat :| i <= j && Forgets(c, steps, j, x);
      assert ForgetsAt(c, steps, x)(j);
    }
  }

  lemma LosesOneMore(c: Config, steps: seq<Step>, x: Shard)
    requires steps != [] && x in c.AllShards()
    ensures var n := |steps| - 1;
            && LostBy(c, steps[..n], x) <= LostBy(c, steps, x)
            && (LostBy(c, steps[..n], x) != LostBy(c, steps, x) <==> Forgets(c, steps, n, x))
  {
    var n := |steps| - 1;
    RunIsOk(c, steps[..n]);
    RunIsOk(c, steps);
    LostStep(c, Execute(c, steps[..n]), steps[n], x);
  }

  /** A shard has forgotten a packet exactly when some step of the run emptied it while it held one. */
  lemma ForgottenIff(c: Config, steps: seq<Step>, x: Shard)
    requires x in c.AllShards()
    ensures LostBy(c, steps, x) != [] <==> exists j: nat :: Forgets(c, steps, j, x)
  {
    LosesIff(c, steps, 0, x);
    assert steps[..0] == [];
  }

  function HeldBy(c: Config, steps: seq<Step>, x: Shard): seq<PacketInfo>
    requires x in c.AllShards()
  {
    RunIsOk(c, steps);
    Holds(c, Execute(c, steps), x)
  }

  /** What is lost and what is held make up what was delivered. */
  lemma {:induction false} LostAndHeld(c: Config, steps: seq<Step>, x: Shard)
    requires x in c.AllShards()
    ensures c.Own(x, Execute(c, steps).delivered[x.task]) == LostBy(c, steps, x) + HeldBy(c, steps, x)
  {
    RunIsOk(c, steps);
    var st := Execute(c, steps);
    OwnSplits(c, x, st.delivered[x.task], st.since[x]);
  }

  /** If nothing was lost since an earlier moment, a shard holds what it held then and what came since. */
  lemma {:induction false} HoldsWhatCame(c: Config, steps: seq<Step>, i: nat, x: Shard)
    requires i <= |steps| && x in c.AllShards()
    ensures var d, n := Execute(c, steps).delivered[x.task], |Execute(c, steps[..i]).delivered[x.task]|;
            && n <= |d|
            && (HeldBy(c, steps, x) == HeldBy(c, steps[..i], x) + c.Own(x, d[n..]) <==> !ForgetsFrom(c, steps, i, x))
  {
    DeliveredOnlyGrows(c, steps, i, x.task);
    LostAndHeld(c, steps, x);
    LostAndHeld(c, steps[..i], x);
    LosesIff(c, steps, i, x);
    SameLostSameHeld(c, x, Execute(c, steps[..i]).delivered[x.task], Execute(c, steps).delivered[x.task],
                     LostBy(c, steps[..i], x), HeldBy(c, steps[..i], x), LostBy(c, steps, x), HeldBy(c, steps, x));
  }

  lemma {:induction false} SameLostSameHeld(c: Config, x: Shard, was: seq<PacketInfo>, d: seq<PacketInfo>,
                                            lostThen: seq<PacketInfo>,
                                            heldThen: seq<PacketInfo>, lost: seq<PacketInfo>, held: seq<PacketInfo>)
    requires was <= d && c.Own(x, was) == lostThen + heldThen && c.Own(x, d) == lost + held
    ensures held == heldThen + c.Own(x, d[|was|..]) <==> lost == lostThen
  {
    assert d[..|was|] == was;
    OwnSplits(c, x, d, |was|);
    SameRest(lost, held, lostThen, heldThen + c.Own(x, d[|was|..]));
  }

  /** Of two ways to cut a sequence the fronts agree exactly when the backs do. */
  lemma SameRest<T>(a: seq<T>, b: seq<T>, e: seq<T>, f: seq<T>)
    requires a + b == e + f
    ensures a == e <==> b == f
  {
    if a == e {
      assert b == (a + b)[|a|..] && f == (e + f)[|e|..];
    }
    if b == f {
      assert |a| == |e|;
      assert a == (a + b)[..|a|] && e == (e + f)[..|e|];
    }
  }

  /** A shard holds everything delivered since the last step that emptied it of something. */
  lemma {:induction false} HoldsSinceLastReset(c: Config, steps: seq<Step>, j: nat, x: Shard)
    requires x in c.AllShards() && Forgets(c, steps, j, x) && forall i: nat :: j < i ==> !Forgets(c, steps, i, x)
    ensures var d, n := Execute(c, steps).delivered[x.task], |Execute(c, steps[..j]).delivered[x.task]|;
            n <= |d| && HeldBy(c, steps, x) == c.Own(x, d[n..])
  {
    EmptiedNow(c, steps, j, x);
    HoldsWhatCame(c, steps, j + 1, x);
    ForgetsNoMore(c, steps, j + 1, x);
  }

  lemma ForgetsNoMore(c: Config, steps: seq<Step>, i: nat, x: Shard)
    requires x in c.AllShards() && forall j: nat :: i <= j ==> !Forgets(c, steps, j, x)
    ensures !ForgetsFrom(c, steps, i, x)
  {
  }

  lemma {:induction false} EmptiedNow(c: Config, steps: seq<Step>, j: nat, x: Shard)
    requires x in c.AllShards() && Forgets(c, steps, j, x)
    ensures j < |steps| && HeldBy(c, steps[..j + 1], x) == []
    ensures |Execute(c, steps[..j + 1]).delivered[x.task]| == |Execute(c, steps[..j]).delivered[x.task]|
  {
    var was := Execute(c, steps[..j]);
    RunIsOk(c, steps[..j]);
    RunIsOk(c, steps[..j + 1]);
    assert steps[..j + 1] == steps[..j] + [steps[j]];
    OneMore(c, steps[..j], steps[j]);
    EmptiesAll(c, was, x);
  }

  lemma EmptiesAll(c: Config, st: State, x: Shard)
    requires Shaped(c, st) && SinceOk(c, st) && x in c.AllShards() && Empties(c, st, ResetShard(x), x)
    ensures var next := Next(c, st, ResetShard(x));
            && next.delivered == st.delivered && SinceOk(c, next) && Holds(c, next, x) == []
  {
    var d := st.delivered[x.task];
    assert d[|d|..] == [];
  }

  /** Look k of the snapshots was taken by step j. */
  predicate TakenAt(c: Config, steps: seq<Step>, k: nat, j: nat) {
    j < |steps| && |Execute(c, steps[..j]).shots| == k && |Execute(c, steps[..j + 1]).shots| == k + 1
  }

  /** Only copying a shard adds a look, at the shard as it is. */
  lemma ShotStep(c: Config, st: State, step: Step)
    requires Shaped(c, st)
    ensures var shots := Next(c, st, step).shots;
            shots != st.shots ==>
              && step.SnapshotShard? && step.x in c.AllShards()
              && exists final :: shots == st.shots + [LookAt(st, step.s, step.x, final)]
  {
  }

  /** Every copy was taken by one step of the run, and shows the shard as it was then. */
  lemma {:induction false} SnapshotWasTaken(c: Config, steps: seq<Step>, k: nat) returns (j: nat)
    requires k < |Execute(c, steps).shots|
    ensures TakenAt(c, steps, k, j)
    ensures var look, was := Execute(c, steps).shots[k], Execute(c, steps[..j]);
            && look.shard in c.AllShards()
            && steps[j] == SnapshotShard(look.reader, look.shard)
            && look == LookAt(was, look.reader, look.shard, look.final)
  {
    assert steps == [] ==> Execute(c, steps) == Initial(c);
    var n := |steps| - 1;
    var before := steps[..n];
    ShotStep(c, Execute(c, before), steps[n]);
    if k < |Execute(c, before).shots| {
      j := SnapshotWasTaken(c, before, k);
      assert before[..j] == steps[..j] && before[..j + 1] == steps[..j + 1];
    } else {
      j := n;
      LastStepTook(c, steps, k);
    }
  }

  lemma {:induction false} LastStepTook(c: Config, steps: seq<Step>, k: nat)
    requires steps != [] && k < |Execute(c, steps).shots| && k >= |Execute(c, steps[..|steps| - 1]).shots|
    ensures var j := |steps| - 1;
            var look, was := Execute(c, steps).shots[k], Execute(c, steps[..j]);
            && TakenAt(c, steps, k, j) && look.shard in c.AllShards()
            && steps[j] == SnapshotShard(look.reader, look.shard)
            && look == LookAt(was, look.reader, look.shard, look.final)
  {
    var n := |steps| - 1;
    ShotStep(c, Execute(c, steps[..n]), steps[n]);
    assert steps[..n + 1] == steps;
  }

  /** What a copy shows. */
  function Seen(c: Config, st: State, look: Look): seq<PacketInfo>
    requires look.shard.task < |st.delivered| && look.from <= look.upto <= |st.delivered[look.shard.task]|
  {
    c.Own(look.shard, st.delivered[look.shard.task][look.from..look.upto])
  }

  lemma SeenFromState(c: Config, was: State, st: State, look: Look)
    requires Shaped(c, was) && SinceOk(c, was) && Shaped(c, st) && look.shard in c.AllShards()
    requires look == LookAt(was, look.reader, look.shard, look.final)
    requires was.delivered[look.shard.task] <= st.delivered[look.shard.task]
    ensures look.from <= look.upto <= |st.delivered[look.shard.task]|
    ensures look.upto == |was.delivered[look.shard.task]| && Seen(c, st, look) == Holds(c, was, look.shard)
  {
    assert st.delivered[look.shard.task][look.from..look.upto] == was.delivered[look.shard.task][look.from..];
  }

  /** It is what the shard held when step j took it. */
  lemma {:induction false} SeenIsHeld(c: Config, steps: seq<Step>, k: nat, j: nat)
    requires k < |Execute(c, steps).shots| && TakenAt(c, steps, k, j)
    ensures var st, was, look := Execute(c, steps), Execute(c, steps[..j]), Execute(c, steps).shots[k];
            && look.shard in c.AllShards() && look.from <= look.upto <= |st.delivered[look.shard.task]|
            && look.upto == |was.delivered[look.shard.task]|
            && was.delivered[look.shard.task] <= st.delivered[look.shard.task]
            && Seen(c, st, look) == HeldBy(c, steps[..j], look.shard)
  {
    var i := SnapshotWasTaken(c, steps, k);
    TakenOnce(c, steps, k, i, j);
    RunIsOk(c, steps[..j]);
    DeliveredOnlyGrows(c, steps, j, Execute(c, steps).shots[k].shard.task);
    SeenFromState(c, Execute(c, steps[..j]), Execute(c, steps), Execute(c, steps).shots[k]);
  }

  /** A copy shows what its shard held at an earlier moment and all that was delivered to it from then until the
      copy, exactly when no step in between emptied the shard while it held something. With the start of the
      run as that moment, or the closing of done, this says when a snapshot is complete. */
  lemma {:induction false} SnapshotIsCompleteIff(c: Config, steps: seq<Step>, k: nat, d: nat, j: nat)
    requires k < |Execute(c, steps).shots| && d <= j && TakenAt(c, steps, k, j)
    ensures var st, look := Execute(c, steps), Execute(c, steps).shots[k];
            && look.shard in c.AllShards() && look.from <= look.upto <= |st.delivered[look.shard.task]|
            && var n := |Execute(c, steps[..d]).delivered[look.shard.task]|;
               && n <= look.upto
               && (Seen(c, st, look) ==
                   HeldBy(c, steps[..d], look.shard) + c.Own(look.shard, st.delivered[look.shard.task][n..look.upto])
                   <==> forall i: nat :: d <= i < j ==> !Forgets(c, steps, i, look.shard))
  {
    SeenIsHeld(c, steps, k, j);
    HeldAtCopy(c, steps, Execute(c, steps), Execute(c, steps).shots[k].shard, d, j);
  }

  lemma {:induction false} HeldAtCopy(c: Config, steps: seq<Step>, st: State, x: Shard, d: nat, j: nat)
    requires Shaped(c, st) && x in c.AllShards() && d <= j <= |steps|
    requires Execute(c, steps[..j]).delivered[x.task] <= st.delivered[x.task]
    ensures var n, m := |Execute(c, steps[..d]).delivered[x.task]|, |Execute(c, steps[..j]).delivered[x.task]|;
            && n <= m <= |st.delivered[x.task]|
            && (HeldBy(c, steps[..j], x) == HeldBy(c, steps[..d], x) + c.Own(x, st.delivered[x.task][n..m])
                <==> forall i: nat :: d <= i < j ==> !Forgets(c, steps, i, x))
  {
    assert steps[..j][..d] == steps[..d];
    HoldsWhatCame(c, steps[..j], d, x);
    ForgetsBefore(c, steps, d, j, x);
    CutShorter(Execute(c, steps[..j]).delivered[x.task], st.delivered[x.task],
               |Execute(c, steps[..d]).delivered[x.task]|);
  }

  lemma CutShorter<T>(g: seq<T>, h: seq<T>, n: nat)
    requires n <= |g| && g <= h
    ensures h[n..|g|] == g[n..]
  {
  }

  lemma ForgetsBefore(c: Config, steps: seq<Step>, d: nat, j: nat, x: Shard)
    requires j <= |steps| && x in c.AllShards()
    ensures !ForgetsFrom(c, steps[..j], d, x) <==> forall i: nat :: d <= i < j ==> !Forgets(c, steps, i, x)
  {
    forall i: nat | i < j ensures Forgets(c, steps[..j], i, x) <==> Forgets(c, steps, i, x) {
      ForgetsInPrefix(c, steps, j, i, x);
    }
  }

  /** From the start of the run: everything delivered until the copy. */
  lemma {:induction false} SnapshotShowsAllIff(c: Config, steps: seq<Step>, k: nat, j: nat)
    requires k < |Execute(c, steps).shots| && TakenAt(c, steps, k, j)
    ensures var st, look := Execute(c, steps), Execute(c, steps).shots[k];
            && look.shard in c.AllShards() && look.from <= look.upto <= |st.delivered[look.shard.task]|
            && (Seen(c, st, look) == c.Own(look.shard, st.delivered[look.shard.task][..look.upto])
                <==> forall i: nat :: i < j ==> !Forgets(c, steps, i, look.shard))
  {
    var st, look := Execute(c, steps), Execute(c, steps).shots[k];
    SnapshotIsCompleteIff(c, steps, k, 0, j);
    assert steps[..0] == [];
    assert st.delivered[look.shard.task][0..look.upto] == st.delivered[look.shard.task][..look.upto];
  }

  /** Snapshots are only added. */
  lemma {:induction false} ShotsGrow(c: Config, steps: seq<Step>, i: nat, j: nat)
    requires i <= j <= |steps|
    ensures |Execute(c, steps[..i]).shots| <= |Execute(c, steps[..j]).shots|
  {
    var count := (k: nat) => |Execute(c, steps[..if k <= |steps| then k else 0]).shots|;
    forall k: nat | k < |steps| ensures ClimbsAt(count, k) {
      OneMoreShot(c, steps, k);
    }
    Climbs(count, i, j, |steps|);
  }

  lemma {:induction false} OneMoreShot(c: Config, steps: seq<Step>, k: nat)
    requires k < |steps|
    ensures |Execute(c, steps[..k]).shots| <= |Execute(c, steps[..k + 1]).shots|
  {
    assert steps[..k + 1] == steps[..k] + [steps[k]];
    OneMore(c, steps[..k], steps[k]);
    ShotStep(c, Execute(c, steps[..k]), steps[k]);
  }

  lemma {:induction false} Climbs(count: nat -> nat, i: nat, j: nat, n: nat)
    requires i <= j <= n && forall k: nat :: k < n ==> ClimbsAt(count, k)
    ensures count(i) <= count(j)
    decreases j
  {
    if i < j {
      Climbs(count, i, j - 1, n);
      assert ClimbsAt(count, j - 1);
    }
  }

  predicate ClimbsAt(count: nat -> nat, k: nat) {
    count(k) <= count(k + 1)
  }

  lemma TakenOnce(c: Config, steps: seq<Step>, k: nat, i: nat, j: nat)
    requires TakenAt(c, steps, k, i) && TakenAt(c, steps, k, j)
    ensures i == j
  {
    if i < j {
      ShotsGrow(c, steps, i + 1, j);
    } else if j < i {
      ShotsGrow(c, steps, j + 1, i);
    }
  }

  lemma {:induction false} OneMore(c: Config, steps: seq<Step>, step: Step)
    ensures Execute(c, steps + [step]) == Next(c, Execute(c, steps), step)
  {
    assert (steps + [step])[..|steps|] == steps;
  }

  /** One task of one shard. */
  const ONE_OF_EACH: Config := Config([0], {THE_SHARD}, (t, p) => 0, [Writer(0, true)], 1, 0, false)
  const THE_SHARD: Shard := Shard(0, 0)

  lemma OnlyShard()
    ensures ONE_OF_EACH.AllShards() == {THE_SHARD}
  {
  }

  /** One packet through the unbuffered channel and the one worker. */
  lemma OnePacketThrough(p: PacketInfo) returns (steps: seq<Step>)
    ensures Execute(ONE_OF_EACH, steps)
            == State(Running, [Packet(p)], [], [Waiting], [[p]], map[THE_SHARD := 0], [Selecting], Selecting, LoopGone,
                     [], [])
  {
    var c := ONE_OF_EACH;
    OnlyShard();
    assert Initial(c) ==
           State(Running, [], [], [Waiting], [[]], map[THE_SHARD := 0], [Selecting], Selecting, LoopGone, [], []);
    var s1 := [HandOff(Packet(p), 0)];
    OneMore(c, [], HandOff(Packet(p), 0));
    assert [] + s1 == s1;
    assert Execute(c, s1) == Initial(c).(accepted := [Packet(p)], workers := [Busy(p, 0)]);
    var s2 := s1 + [Process(0)];
    OneMore(c, s1, Process(0));
    assert [] + [p] == [p];
    assert Execute(c, s2).workers == [Busy(p, 1)] && Execute(c, s2).delivered == [[p]];
    steps := s2 + [Process(0)];
    OneMore(c, s2, Process(0));
    assert Execute(c, steps).workers == [Waiting];
  }

  /** A reset that was due when done was closed may still come before the last snapshot: the packet below
      is delivered, and the final snapshot of its task is empty. */
  lemma ResetCanEmptyLastSnapshot(p: PacketInfo) returns (steps: seq<Step>)
    ensures var st := Execute(ONE_OF_EACH, steps);
            && st.accepted == [Packet(p)] && st.delivered == [[p]]
            && st.snapshotters == [LoopGone] && st.shots == [Look(0, THE_SHARD, true, 1, 1)]
  {
    var c := ONE_OF_EACH;
    OnlyShard();
    var s3 := OnePacketThrough(p);
    steps := ResetBetween(p, s3);
  }

  lemma ResetBetween(p: PacketInfo, s3: seq<Step>) returns (steps: seq<Step>)
    requires Execute(ONE_OF_EACH, s3) == State(Running, [Packet(p)], [], [Waiting], [[p]], map[THE_SHARD := 0],
                                               [Selecting], Selecting, LoopGone, [], [])
    ensures var st := Execute(ONE_OF_EACH, steps);
            && st.accepted == [Packet(p)] && st.delivered == [[p]]
            && st.snapshotters == [LoopGone] && st.shots == [Look(0, THE_SHARD, true, 1, 1)]
  {
    var c := ONE_OF_EACH;
    OnlyShard();
    var s4 := s3 + [ResetTick];
    OneMore(c, s3, ResetTick);
    var s5 := s4 + [Stop];
    OneMore(c, s4, Stop);
    var s6 := s5 + [ExitWorker(0)];
    OneMore(c, s5, ExitWorker(0));
    assert Execute(c, s6) == State(ForWorkers, [Packet(p)], [], [WorkerGone], [[p]], map[THE_SHARD := 0],
                                   [Selecting], Working(false, {THE_SHARD}), LoopGone, [], []);
    steps := ResetAfterDone(p, s6);
  }

  lemma ResetAfterDone(p: PacketInfo, s6: seq<Step>) returns (steps: seq<Step>)
    requires Execute(ONE_OF_EACH, s6) == State(ForWorkers, [Packet(p)], [], [WorkerGone], [[p]], map[THE_SHARD := 0],
                                               [Selecting], Working(false, {THE_SHARD}), LoopGone, [], [])
    ensures var st := Execute(ONE_OF_EACH, steps);
            && st.accepted == [Packet(p)] && st.delivered == [[p]]
            && st.snapshotters == [LoopGone] && st.shots == [Look(0, THE_SHARD, true, 1, 1)]
  {
    var c := ONE_OF_EACH;
    OnlyShard();
    var s7 := s6 + [StopGoesOn];
    OneMore(c, s6, StopGoesOn);
    var was := State(ForSnapshotters, [Packet(p)], [], [WorkerGone], [[p]], map[THE_SHARD := 0], [Selecting],
                     Working(false, {THE_SHARD}), LoopGone, [], []);
    assert Execute(c, s7) == was;
    OneMore(c, s7, ResetShard(THE_SHARD));
    ResetTheShard(was, p);
    steps := LastSnapshotOfOne(s7 + [ResetShard(THE_SHARD)]);
  }

  lemma ResetTheShard(was: State, p: PacketInfo)
    requires Shaped(ONE_OF_EACH, was) && was.resetter == Working(false, {THE_SHARD}) && was.delivered == [[p]]
    requires was.since == map[THE_SHARD := 0]
    ensures Next(ONE_OF_EACH, was, ResetShard(THE_SHARD)) ==
            was.(resetter := Working(false, {}), since := map[THE_SHARD := 1])
  {
    OnlyShard();
    assert {THE_SHARD} - {THE_SHARD} == {};
    assert was.since[THE_SHARD := 1] == map[THE_SHARD := 1] && THE_SHARD.task == 0;
  }

  lemma LastSnapshotOfOne(before: seq<Step>) returns (steps: seq<Step>)
    requires var st := Execute(ONE_OF_EACH, before); st.snapshotters == [Selecting] && Done(st) && st.shots == []
    ensures var was, st := Execute(ONE_OF_EACH, before), Execute(ONE_OF_EACH, steps);
            st == was.(snapshotters := [LoopGone], shots := [LookAt(was, 0, THE_SHARD, true)])
  {
    var c, was := ONE_OF_EACH, Execute(ONE_OF_EACH, before);
    var s1 := before + [SnapshotDone(0)];
    OneMore(c, before, SnapshotDone(0));
    var s2 := s1 + [SnapshotShard(0, THE_SHARD)];
    OneMore(c, s1, SnapshotShard(0, THE_SHARD));
    steps := s2 + [SnapshotEnd(0)];
    OneMore(c, s2, SnapshotEnd(0));
    ThreeSteps(was);
  }

  lemma ThreeSteps(was: State)
    requires Shaped(ONE_OF_EACH, was) && was.snapshotters == [Selecting] && Done(was) && was.shots == []
    ensures var c := ONE_OF_EACH;
            Next(c, Next(c, Next(c, was, SnapshotDone(0)), SnapshotShard(0, THE_SHARD)), SnapshotEnd(0)) ==
            was.(snapshotters := [LoopGone], shots := [LookAt(was, 0, THE_SHARD, true)])
  {
    var c := ONE_OF_EACH;
    OnlyShard();
    assert c.ShardsOf(0) == {THE_SHARD};
    var one := was.(snapshotters := [Working(true, {THE_SHARD})]);
    assert Next(c, was, SnapshotDone(0)) == one;
    assert {THE_SHARD} - {THE_SHARD} == {};
    var two := was.(snapshotters := [Working(true, {})], shots := [LookAt(was, 0, THE_SHARD, true)]);
    assert [] + [LookAt(was, 0, THE_SHARD, true)] == [LookAt(was, 0, THE_SHARD, true)];
    assert Next(c, one, SnapshotShard(0, THE_SHARD)) == two;
  }

  // What a tick brings about.

  /** Step j changes the state. */
  predicate Effective(c: Config, steps: seq<Step>, j: nat) {
    j < |steps| && Execute(c, steps[..j + 1]) != Execute(c, steps[..j])
  }

  /** Between moments a and b a thing leaves the work left exactly when it is done. */
  ghost predicate WorkedOff(todo: nat -> set<Shard>, done: (nat, Shard) -> bool, a: nat, b: nat) {
    forall j: nat :: a < j < b ==> StepOfWork(todo, done, j)
  }

  ghost predicate StepOfWork(todo: nat -> set<Shard>, done: (nat, Shard) -> bool, j: nat) {
    && todo(j + 1) <= todo(j)
    && forall x :: done(j, x) <==> x in todo(j) && x !in todo(j + 1)
  }

  ghost predicate DoneOnce(done: (nat, Shard) -> bool, a: nat, b: nat, x: Shard) {
    exists j: nat :: a < j < b && done(j, x) && OnlyAt(done, a, b, x, j)
  }

  ghost predicate OnlyAt(done: (nat, Shard) -> bool, a: nat, b: nat, x: Shard, j: nat) {
    forall k: nat :: a < k < b && done(k, x) ==> k == j
  }

  ghost predicate DoneNever(done: (nat, Shard) -> bool, a: nat, b: nat, x: Shard) {
    forall j: nat :: a < j < b ==> !done(j, x)
  }

  lemma {:induction false} DoneOrLeft(todo: nat -> set<Shard>, done: (nat, Shard) -> bool, a: nat, b: nat, x: Shard)
    requires a < b && WorkedOff(todo, done, a, b)
    ensures x in todo(b) ==> x in todo(a + 1)
    ensures if x in todo(a + 1) && x !in todo(b) then DoneOnce(done, a, b, x) else DoneNever(done, a, b, x)
    decreases b
  {
    if a + 1 < b {
      DoneOrLeft(todo, done, a, b - 1, x);
      OneMoreStepOfWork(todo, done, a, b - 1, x);
    }
  }

  lemma OneMoreStepOfWork(todo: nat -> set<Shard>, done: (nat, Shard) -> bool, a: nat, n: nat, x: Shard)
    requires a < n && StepOfWork(todo, done, n) && (x in todo(n) ==> x in todo(a + 1))
    requires if x in todo(a + 1) && x !in todo(n) then DoneOnce(done, a, n, x) else DoneNever(done, a, n, x)
    ensures if x in todo(a + 1) && x !in todo(n + 1) then DoneOnce(done, a, n + 1, x) else DoneNever(done, a, n + 1, x)
  {
    if x in todo(a + 1) && x !in todo(n) {
      var j: nat :| a < j < n && done(j, x) && OnlyAt(done, a, n, x, j);
      assert !done(n, x) && OnlyAt(done, a, n + 1, x, j);
    } else if done(n, x) {
      assert OnlyAt(done, a, n + 1, x, n);
    }
  }

  // Snapshots.

  /** Shard x belongs to a task of the group of writer s. */
  predicate InGroup(c: Config, s: nat, x: Shard)
    requires s < |c.writers|
  {
    x in c.shards && x.task < |c.groupOf| && c.groupOf[x.task] == c.writers[s].group
  }

  /** Writer s copies shard x in step j. */
  function CopiesOf(c: Config, steps: seq<Step>, s: nat): (nat, Shard) -> bool {
    (j: nat, x: Shard) => j < |steps| && steps[j] == SnapshotShard(s, x) && Effective(c, steps, j)
  }

  function ToCopy(c: Config, steps: seq<Step>, s: nat): nat -> set<Shard>
    requires s < |c.writers|
  {
    (j: nat) => if j <= |steps| && Execute(c, steps[..j]).snapshotters[s].Working?
                then Execute(c, steps[..j]).snapshotters[s].todo else {}
  }

  /** The select of writer s takes a tick at a; the snapshot that it starts ends at b. */
  ghost predicate SnapshotFrom(c: Config, steps: seq<Step>, s: nat, a: nat, b: nat) {
    && s < |c.writers| && a < b < |steps|
    && steps[a] == SnapshotTick(s) && Execute(c, steps[..a]).snapshotters[s].Selecting?
    && (forall n :: a < n <= b ==> Execute(c, steps[..n]).snapshotters[s].Working?)
    && steps[b] == SnapshotEnd(s) && Effective(c, steps, b)
  }

  /** A tick in the select starts a snapshot that is not final, and a finished one goes back to the select. */
  lemma SnapshotStarts(c: Config, st: State, s: nat)
    requires Shaped(c, st) && s < |c.writers|
    ensures st.snapshotters[s].Selecting? ==>
              var l := Next(c, st, SnapshotTick(s)).snapshotters[s];
              l.Working? && !l.final && forall x :: x in l.todo <==> InGroup(c, s, x)
    ensures st.snapshotters[s] == Working(false, {}) ==> Next(c, st, SnapshotEnd(s)).snapshotters[s].Selecting?
    ensures st.snapshotters[s].Working? && Next(c, st, SnapshotEnd(s)) != st ==> st.snapshotters[s].todo == {}
  {
  }

  /** What one step does to the work of a snapshotter that goes on. */
  lemma SnapshotGoesOn(c: Config, st: State, step: Step, s: nat, x: Shard)
    requires Shaped(c, st) && s < |c.writers|
    requires st.snapshotters[s].Working? && Next(c, st, step).snapshotters[s].Working?
    ensures var l, m := st.snapshotters[s], Next(c, st, step).snapshotters[s];
            && m.todo <= l.todo && m.final == l.final
            && (x in l.todo && x !in m.todo <==> step == SnapshotShard(s, x) && Next(c, st, step) != st)
            && (x in l.todo && x !in m.todo ==>
                  x in st.since && x.task < |st.delivered|
                  && Next(c, st, step).shots == st.shots + [LookAt(st, s, x, l.final)])
  {
    if step.SnapshotShard? && step.s == s {
      SnapshotShardGoesOn(c, st, step.x, s, x);
    } else {
      OtherSnapshotStep(c, st, step, s);
    }
  }

  lemma SnapshotShardGoesOn(c: Config, st: State, y: Shard, s: nat, x: Shard)
    requires Shaped(c, st) && s < |c.writers| && st.snapshotters[s].Working?
    ensures var l, next := st.snapshotters[s], NextSnapshotter(c, st, SnapshotShard(s, y));
            && next.snapshotters[s].Working? && next.snapshotters[s].todo <= l.todo
            && next.snapshotters[s].final == l.final
            && (x in l.todo && x !in next.snapshotters[s].todo <==> y == x && next != st)
            && (x in l.todo && x !in next.snapshotters[s].todo ==>
                  x in st.since && x.task < |st.delivered| && next.shots == st.shots + [LookAt(st, s, x, l.final)])
  {
    var next := NextSnapshotter(c, st, SnapshotShard(s, y));
    if next != st {
      assert y !in next.snapshotters[s].todo;
    }
  }

  lemma OtherSnapshotStep(c: Config, st: State, step: Step, s: nat)
    requires Shaped(c, st) && s < |c.writers| && !(step.SnapshotShard? && step.s == s)
    requires st.snapshotters[s].Working? && Next(c, st, step).snapshotters[s].Working?
    ensures Next(c, st, step).snapshotters[s] == st.snapshotters[s]
  {
  }

  lemma {:induction false} StepAt(c: Config, steps: seq<Step>, j: nat)
    requires j < |steps|
    ensures Execute(c, steps[..j + 1]) == Next(c, Execute(c, steps[..j]), steps[j])
  {
    assert steps[..j + 1][..j] == steps[..j];
  }

  lemma {:induction false} SnapshotStepOfWork(c: Config, steps: seq<Step>, s: nat, j: nat)
    requires s < |c.writers| && j < |steps|
    requires Execute(c, steps[..j]).snapshotters[s].Working? && Execute(c, steps[..j + 1]).snapshotters[s].Working?
    ensures StepOfWork(ToCopy(c, steps, s), CopiesOf(c, steps, s), j)
    ensures Execute(c, steps[..j + 1]).snapshotters[s].final == Execute(c, steps[..j]).snapshotters[s].final
  {
    StepAt(c, steps, j);
    var st := Execute(c, steps[..j]);
    SnapshotGoesOn(c, st, steps[j], s, Shard(0, 0));
    forall x ensures CopiesOf(c, steps, s)(j, x) <==> x in ToCopy(c, steps, s)(j) && x !in ToCopy(c, steps, s)(j + 1) {
      SnapshotGoesOn(c, st, steps[j], s, x);
    }
  }

  /** Every snapshot that a tick starts copies each shard of the tasks of the writer's group exactly once
      between the tick and its end, and no other shard. */
  lemma SnapshotIsServed(c: Config, steps: seq<Step>, s: nat, a: nat, b: nat, x: Shard)
    requires SnapshotFrom(c, steps, s, a, b)
    ensures if InGroup(c, s, x) then DoneOnce(CopiesOf(c, steps, s), a, b, x)
            else DoneNever(CopiesOf(c, steps, s), a, b, x)
  {
    SnapshotBegins(c, steps, s, a, b, x);
    SnapshotFinishes(c, steps, s, a, b);
    forall j: nat | a < j < b ensures StepOfWork(ToCopy(c, steps, s), CopiesOf(c, steps, s), j) {
      SnapshotStepOfWork(c, steps, s, j);
    }
    DoneOrLeft(ToCopy(c, steps, s), CopiesOf(c, steps, s), a, b, x);
  }

  lemma SnapshotBegins(c: Config, steps: seq<Step>, s: nat, a: nat, b: nat, x: Shard)
    requires SnapshotFrom(c, steps, s, a, b)
    ensures x in ToCopy(c, steps, s)(a + 1) <==> InGroup(c, s, x)
  {
    StepAt(c, steps, a);
    SnapshotStarts(c, Execute(c, steps[..a]), s);
  }

  lemma SnapshotFinishes(c: Config, steps: seq<Step>, s: nat, a: nat, b: nat)
    requires SnapshotFrom(c, steps, s, a, b)
    ensures ToCopy(c, steps, s)(b) == {}
  {
    StepAt(c, steps, b);
    SnapshotStarts(c, Execute(c, steps[..b]), s);
  }

  lemma {:induction false} NeverSet(flag: nat -> bool, a: nat, n: nat)
    requires a < n && !flag(a + 1) && forall j: nat :: a < j < n ==> SameFlag(flag, j)
    ensures !flag(n)
    decreases n
  {
    if a + 1 < n {
      NeverSet(flag, a, n - 1);
      assert SameFlag(flag, n - 1);
    }
  }

  predicate SameFlag(flag: nat -> bool, j: nat) {
    flag(j + 1) == flag(j)
  }

  function FinalAt(c: Config, steps: seq<Step>, s: nat): nat -> bool
    requires s < |c.writers|
  {
    (j: nat) => j <= |steps| && Execute(c, steps[..j]).snapshotters[s].Working?
                && Execute(c, steps[..j]).snapshotters[s].final
  }

  lemma NotFinalMeanwhile(c: Config, steps: seq<Step>, s: nat, a: nat, b: nat, n: nat)
    requires SnapshotFrom(c, steps, s, a, b) && a < n <= b
    ensures !FinalAt(c, steps, s)(n)
  {
    SnapshotBeginsNotFinal(c, steps, s, a, b);
    forall j: nat | a < j < n ensures SameFlag(FinalAt(c, steps, s), j) {
      FinalStays(c, steps, s, a, b, j);
    }
    NeverSet(FinalAt(c, steps, s), a, n);
  }

  lemma FinalStays(c: Config, steps: seq<Step>, s: nat, a: nat, b: nat, j: nat)
    requires SnapshotFrom(c, steps, s, a, b) && a < j < b
    ensures SameFlag(FinalAt(c, steps, s), j)
  {
    SnapshotStepOfWork(c, steps, s, j);
  }

  lemma SnapshotBeginsNotFinal(c: Config, steps: seq<Step>, s: nat, a: nat, b: nat)
    requires SnapshotFrom(c, steps, s, a, b)
    ensures !FinalAt(c, steps, s)(a + 1)
  {
    StepAt(c, steps, a);
    SnapshotStarts(c, Execute(c, steps[..a]), s);
  }

  /** Each of these copies is a snapshot that is not final, of the shard as it is at that moment. */
  lemma {:induction false} CopyIsALook(c: Config, steps: seq<Step>, s: nat, a: nat, b: nat, j: nat, x: Shard)
    requires SnapshotFrom(c, steps, s, a, b) && a < j < b && CopiesOf(c, steps, s)(j, x)
    ensures var was := Execute(c, steps[..j]);
            && x in was.since && x.task < |was.delivered|
            && Execute(c, steps[..j + 1]).shots
               == was.shots + [Look(s, x, false, was.since[x], |was.delivered[x.task]|)]
  {
    NotFinalMeanwhile(c, steps, s, a, b, j);
    StepAt(c, steps, j);
    assert !Execute(c, steps[..j]).snapshotters[s].final;
    SnapshotGoesOn(c, Execute(c, steps[..j]), steps[j], s, x);
  }

  // Resets.

  function ResetsOf(c: Config, steps: seq<Step>): (nat, Shard) -> bool {
    (j: nat, x: Shard) => j < |steps| && steps[j] == ResetShard(x) && Effective(c, steps, j)
  }

  function ToReset(c: Config, steps: seq<Step>): nat -> set<Shard> {
    (j: nat) => if j <= |steps| && Execute(c, steps[..j]).resetter.Working?
                then Execute(c, steps[..j]).resetter.todo else {}
  }

  /** The select of the resetter takes a tick at a; the reset that it starts ends at b. */
  ghost predicate ResetFrom(c: Config, steps: seq<Step>, a: nat, b: nat) {
    && a < b < |steps|
    && steps[a] == ResetTick && Execute(c, steps[..a]).resetter.Selecting?
    && (forall n :: a < n <= b ==> Execute(c, steps[..n]).resetter.Working?)
    && steps[b] == ResetEnd && Effective(c, steps, b)
  }

  lemma ResetStarts(c: Config, st: State)
    requires Shaped(c, st)
    ensures st.resetter.Selecting? ==>
              var l := Next(c, st, ResetTick).resetter;
              l.Working? && forall x :: x in l.todo <==> x in c.shards && x.task < |c.groupOf|
    ensures st.resetter == Working(false, {}) ==> Next(c, st, ResetEnd).resetter.Selecting?
    ensures st.resetter.Working? && Next(c, st, ResetEnd) != st ==> st.resetter.todo == {}
  {
  }

  lemma ResetGoesOn(c: Config, st: State, step: Step, x: Shard)
    requires Shaped(c, st) && st.resetter.Working? && Next(c, st, step).resetter.Working?
    ensures var l, m := st.resetter, Next(c, st, step).resetter;
            && m.todo <= l.todo
            && (x in l.todo && x !in m.todo <==> step == ResetShard(x) && Next(c, st, step) != st)
            && (x in l.todo && x !in m.todo ==>
                  && x in st.since && x.task < |st.delivered| && Next(c, st, step).delivered == st.delivered
                  && Next(c, st, step).since == st.since[x := |st.delivered[x.task]|])
  {
    if step.ResetShard? {
      ResetShardGoesOn(c, st, step.x, x);
    } else {
      OtherResetStep(c, st, step);
    }
  }

  lemma ResetShardGoesOn(c: Config, st: State, y: Shard, x: Shard)
    requires Shaped(c, st) && st.resetter.Working?
    ensures var l, next := st.resetter, NextResetter(c, st, ResetShard(y));
            && next.resetter.Working? && next.resetter.todo <= l.todo && next.delivered == st.delivered
            && (x in l.todo && x !in next.resetter.todo <==> y == x && NextResetter(c, st, ResetShard(y)).resetter != l)
            && (x in l.todo && x !in next.resetter.todo ==>
                  && x in st.since && x.task < |st.delivered|
                  && next.since == st.since[x := |st.delivered[x.task]|])
            && (next != st ==> y in l.todo && y !in next.resetter.todo)
  {
  }

  lemma OtherResetStep(c: Config, st: State, step: Step)
    requires Shaped(c, st) && !step.ResetShard? && st.resetter.Working? && Next(c, st, step).resetter.Working?
    ensures Next(c, st, step).resetter == st.resetter
  {
  }

  lemma {:induction false} ResetStepOfWork(c: Config, steps: seq<Step>, j: nat)
    requires j < |steps| && Execute(c, steps[..j]).resetter.Working? && Execute(c, steps[..j + 1]).resetter.Working?
    ensures StepOfWork(ToReset(c, steps), ResetsOf(c, steps), j)
  {
    StepAt(c, steps, j);
    var st := Execute(c, steps[..j]);
    ResetGoesOn(c, st, steps[j], Shard(0, 0));
    forall x ensures ResetsOf(c, steps)(j, x) <==> x in ToReset(c, steps)(j) && x !in ToReset(c, steps)(j + 1) {
      ResetGoesOn(c, st, steps[j], x);
    }
  }

  /** When the period has elapsed, every shard of every task is emptied exactly once before the reset ends. */
  lemma ResetIsServed(c: Config, steps: seq<Step>, a: nat, b: nat, x: Shard)
    requires ResetFrom(c, steps, a, b) && x in c.shards && x.task < |c.groupOf|
    ensures DoneOnce(ResetsOf(c, steps), a, b, x)
  {
    ResetBegins(c, steps, a, b, x);
    ResetFinishes(c, steps, a, b);
    forall j: nat | a < j < b ensures StepOfWork(ToReset(c, steps), ResetsOf(c, steps), j) {
      ResetStepOfWork(c, steps, j);
    }
    DoneOrLeft(ToReset(c, steps), ResetsOf(c, steps), a, b, x);
  }

  lemma ResetBegins(c: Config, steps: seq<Step>, a: nat, b: nat, x: Shard)
    requires ResetFrom(c, steps, a, b)
    ensures x in ToReset(c, steps)(a + 1) <==> x in c.shards && x.task < |c.groupOf|
  {
    StepAt(c, steps, a);
    ResetStarts(c, Execute(c, steps[..a]));
  }

  lemma ResetFinishes(c: Config, steps: seq<Step>, a: nat, b: nat)
    requires ResetFrom(c, steps, a, b)
    ensures ToReset(c, steps)(b) == {}
  {
    StepAt(c, steps, b);
    ResetStarts(c, Execute(c, steps[..b]));
  }

  /** And at that moment it holds nothing. */
  lemma ResetLeavesNothing(c: Config, steps: seq<Step>, a: nat, b: nat, j: nat, x: Shard)
    requires ResetFrom(c, steps, a, b) && x in c.AllShards() && a < j < b && ResetsOf(c, steps)(j, x)
    ensures HeldBy(c, steps[..j + 1], x) == []
  {
    StepAt(c, steps, j);
    RunIsOk(c, steps[..j + 1]);
    ResetGoesOn(c, Execute(c, steps[..j]), steps[j], x);
    HoldsNothing(c, Execute(c, steps[..j]), Execute(c, steps[..j + 1]), x);
  }

  lemma HoldsNothing(c: Config, st: State, next: State, x: Shard)
    requires Shaped(c, st) && Shaped(c, next) && SinceOk(c, next) && x in c.AllShards()
    requires next.delivered == st.delivered && next.since == st.since[x := |st.delivered[x.task]|]
    ensures Holds(c, next, x) == []
  {
    assert next.delivered[x.task][|next.delivered[x.task]|..] == [];
  }

  // Alerts.

  function AlertsOf(c: Config, steps: seq<Step>): (nat, Shard) -> bool {
    (j: nat, x: Shard) => j < |steps| && steps[j] == AlertShard(x) && Effective(c, steps, j)
  }

  function ToAlert(c: Config, steps: seq<Step>): nat -> set<Shard> {
    (j: nat) => if j <= |steps| && Execute(c, steps[..j]).alerter.Working?
                then Execute(c, steps[..j]).alerter.todo else {}
  }

  /** The select of the alerter takes a tick at a; the evaluation that it starts ends at b. */
  ghost predicate AlertFrom(c: Config, steps: seq<Step>, a: nat, b: nat) {
    && a < b < |steps|
    && steps[a] == AlertTick && Execute(c, steps[..a]).alerter.Selecting?
    && (forall n :: a < n <= b ==> Execute(c, steps[..n]).alerter.Working?)
    && steps[b] == AlertEnd && Effective(c, steps, b)
  }

  lemma AlertStarts(c: Config, st: State)
    requires Shaped(c, st)
    ensures st.alerter.Selecting? ==>
              var l := Next(c, st, AlertTick).alerter;
              l.Working? && forall x :: x in l.todo <==> x in c.shards && x.task < |c.groupOf|
    ensures st.alerter == Working(false, {}) ==> Next(c, st, AlertEnd).alerter.Selecting?
    ensures st.alerter.Working? && Next(c, st, AlertEnd) != st ==> st.alerter.todo == {}
  {
  }

  lemma AlertGoesOn(c: Config, st: State, step: Step, x: Shard)
    requires Shaped(c, st) && st.alerter.Working? && Next(c, st, step).alerter.Working?
    ensures var l, m := st.alerter, Next(c, st, step).alerter;
            && m.todo <= l.todo
            && (x in l.todo && x !in m.todo <==> step == AlertShard(x) && Next(c, st, step) != st)
            && (x in l.todo && x !in m.todo ==>
                  && x in st.since && x.task < |st.delivered|
                  && Next(c, st, step).evaluations == st.evaluations + [LookAt(st, 0, x, false)])
  {
    if step.AlertShard? {
      AlertShardGoesOn(c, st, step.x, x);
    } else {
      OtherAlertStep(c, st, step);
    }
  }

  lemma AlertShardGoesOn(c: Config, st: State, y: Shard, x: Shard)
    requires Shaped(c, st) && st.alerter.Working?
    ensures var l, next := st.alerter, NextAlerter(c, st, AlertShard(y));
            && next.alerter.Working? && next.alerter.todo <= l.todo
            && (x in l.todo && x !in next.alerter.todo <==> y == x && next.alerter != l)
            && (x in l.todo && x !in next.alerter.todo ==>
                  && x in st.since && x.task < |st.delivered|
                  && next.evaluations == st.evaluations + [LookAt(st, 0, x, false)])
            && (next != st ==> y in l.todo && y !in next.alerter.todo)
  {
  }

  lemma OtherAlertStep(c: Config, st: State, step: Step)
    requires Shaped(c, st) && !step.AlertShard? && st.alerter.Working? && Next(c, st, step).alerter.Working?
    ensures Next(c, st, step).alerter == st.alerter
  {
  }

  lemma {:induction false} AlertStepOfWork(c: Config, steps: seq<Step>, j: nat)
    requires j < |steps| && Execute(c, steps[..j]).alerter.Working? && Execute(c, steps[..j + 1]).alerter.Working?
    ensures StepOfWork(ToAlert(c, steps), AlertsOf(c, steps), j)
  {
    StepAt(c, steps, j);
    var st := Execute(c, steps[..j]);
    AlertGoesOn(c, st, steps[j], Shard(0, 0));
    forall x ensures AlertsOf(c, steps)(j, x) <==> x in ToAlert(c, steps)(j) && x !in ToAlert(c, steps)(j + 1) {
      AlertGoesOn(c, st, steps[j], x);
    }
  }

  /** A tick of the alerter looks at every shard of every task exactly once before its evaluation ends. */
  lemma AlertIsServed(c: Config, steps: seq<Step>, a: nat, b: nat, x: Shard)
    requires AlertFrom(c, steps, a, b) && x in c.shards && x.task < |c.groupOf|
    ensures DoneOnce(AlertsOf(c, steps), a, b, x)
  {
    AlertBegins(c, steps, a, b, x);
    AlertFinishes(c, steps, a, b);
    forall j: nat | a < j < b ensures StepOfWork(ToAlert(c, steps), AlertsOf(c, steps), j) {
      AlertStepOfWork(c, steps, j);
    }
    DoneOrLeft(ToAlert(c, steps), AlertsOf(c, steps), a, b, x);
  }

  lemma AlertBegins(c: Config, steps: seq<Step>, a: nat, b: nat, x: Shard)
    requires AlertFrom(c, steps, a, b)
    ensures x in ToAlert(c, steps)(a + 1) <==> x in c.shards && x.task < |c.groupOf|
  {
    StepAt(c, steps, a);
    AlertStarts(c, Execute(c, steps[..a]));
  }

  lemma AlertFinishes(c: Config, steps: seq<Step>, a: nat, b: nat)
    requires AlertFrom(c, steps, a, b)
    ensures ToAlert(c, steps)(b) == {}
  {
    StepAt(c, steps, b);
    AlertStarts(c, Execute(c, steps[..b]));
  }

  /** As it is at that moment. */
  lemma {:induction false} AlertIsALook(c: Config, steps: seq<Step>, a: nat, b: nat, j: nat, x: Shard)
    requires AlertFrom(c, steps, a, b) && a < j < b && AlertsOf(c, steps)(j, x)
    ensures var was := Execute(c, steps[..j]);
            && x in was.since && x.task < |was.delivered|
            && Execute(c, steps[..j + 1]).evaluations
               == was.evaluations + [Look(0, x, false, was.since[x], |was.delivered[x.task]|)]
  {
    StepAt(c, steps, j);
    AlertGoesOn(c, Execute(c, steps[..j]), steps[j], x);
  }

  // Stop can always finish.

  predicate IsTick(step: Step) {
    step.SnapshotTick? || step.ResetTick? || step.AlertTick?
  }

  function WorkerWeight(c: Config, w: Worker): nat {
    match w
    case Waiting => 1
    case Busy(_, next) => if next <= c.Tasks() then c.Tasks() - next + 2 else 0
    case WorkerGone => 0
  }

  function WorkersWeight(c: Config, ws: seq<Worker>): nat {
    if ws == [] then 0 else WorkerWeight(c, ws[0]) + WorkersWeight(c, ws[1..])
  }

  lemma {:induction false} WorkersWeightUpdate(c: Config, ws: seq<Worker>, i: nat, w: Worker)
    requires i < |ws|
    ensures WorkersWeight(c, ws[i := w]) == WorkersWeight(c, ws) - WorkerWeight(c, ws[i]) + WorkerWeight(c, w)
  {
    if i > 0 {
      assert ws[i := w][1..] == ws[1..][i - 1 := w];
      WorkersWeightUpdate(c, ws[1..], i - 1, w);
    } else {
      assert ws[0 := w][1..] == ws[1..];
    }
  }

  function LoopWeight(c: Config, l: Loop): nat {
    match l
    case Selecting => c.Size() + 2
    case Working(final, todo) => |todo| + (if final then 1 else c.Size() + 3)
    case LoopGone => 0
  }

  function LoopsWeight(c: Config, ls: seq<Loop>): nat {
    if ls == [] then 0 else LoopWeight(c, ls[0]) + LoopsWeight(c, ls[1..])
  }

  lemma {:induction false} LoopsWeightUpdate(c: Config, ls: seq<Loop>, i: nat, l: Loop)
    requires i < |ls|
    ensures LoopsWeight(c, ls[i := l]) == LoopsWeight(c, ls) - LoopWeight(c, ls[i]) + LoopWeight(c, l)
  {
    if i > 0 {
      assert ls[i := l][1..] == ls[1..][i - 1 := l];
      LoopsWeightUpdate(c, ls[1..], i - 1, l);
    } else {
      assert ls[0 := l][1..] == ls[1..];
    }
  }

  function PhaseWeight(c: Config, phase: Phase): nat {
    match phase
    case Running => c.Size() + 6
    case ForWorkers => c.Size() + 5
    case ForSnapshotters => c.Size() + 4
    case ForResetter => c.Size() + 3
    case ForAlerter => c.Size() + 2
    case Evaluating(todo) => |todo| + 1
    case Stopped => 0
  }

  /** The work left until Stop returns if no ticker fires again. */
  function Remaining(c: Config, st: State): nat {
    (c.Tasks() + 3) * |st.channel| + WorkersWeight(c, st.workers) + LoopsWeight(c, st.snapshotters)
    + LoopWeight(c, st.resetter) + LoopWeight(c, st.alerter) + PhaseWeight(c, st.phase)
  }

  lemma GroupFits(c: Config, s: nat)
    requires s < |c.writers|
    ensures |c.ShardsOf(s)| <= c.Size()
  {
    SubsetSize(c.ShardsOf(s), c.AllShards());
  }

  // Every step that has an effect, except a tick, leaves less to do.

  lemma PacketStepLowers(c: Config, st: State, step: Step)
    requires Shaped(c, st) && WorkersOk(c, st) && Closed(st) && IsPacketStep(step) && NextPacket(c, st, step) != st
    ensures Remaining(c, NextPacket(c, st, step)) < Remaining(c, st)
  {
    var next := NextPacket(c, st, step);
    WorkersWeightUpdate(c, st.workers, step.w, next.workers[step.w]);
    assert next.workers == st.workers[step.w := next.workers[step.w]];
    if step.Receive? {
      OneLess(c.Tasks() + 3, |st.channel|);
    }
  }

  lemma OneLess(a: nat, n: nat)
    requires n > 0
    ensures a * (n - 1) == a * n - a
  {
  }

  lemma SnapshotStepLowers(c: Config, st: State, step: Step)
    requires Shaped(c, st) && IsSnapshotStep(step) && NextSnapshotter(c, st, step) != st
    ensures var next := NextSnapshotter(c, st, step);
            if IsTick(step) then Remaining(c, next) <= Remaining(c, st) + c.Size() + 1
            else Remaining(c, next) < Remaining(c, st)
  {
    var next := NextSnapshotter(c, st, step);
    var s := step.s;
    GroupFits(c, s);
    LoopsWeightUpdate(c, st.snapshotters, s, next.snapshotters[s]);
    assert next.snapshotters == st.snapshotters[s := next.snapshotters[s]];
    if step.SnapshotShard? {
      assert |st.snapshotters[s].todo - {step.x}| == |st.snapshotters[s].todo| - 1;
    }
  }

  lemma ResetStepLowers(c: Config, st: State, step: Step)
    requires Shaped(c, st) && StopOk(c, st) && IsResetStep(step) && NextResetter(c, st, step) != st
    ensures var next := NextResetter(c, st, step);
            if IsTick(step) then Remaining(c, next) <= Remaining(c, st) + c.Size() + 1
            else Remaining(c, next) < Remaining(c, st)
  {
    if step.ResetShard? {
      assert |st.resetter.todo - {step.x}| == |st.resetter.todo| - 1;
    }
  }

  lemma AlertStepLowers(c: Config, st: State, step: Step)
    requires Shaped(c, st) && StopOk(c, st) && IsAlertStep(step) && NextAlerter(c, st, step) != st
    ensures var next := NextAlerter(c, st, step);
            if IsTick(step) then Remaining(c, next) <= Remaining(c, st) + c.Size() + 1
            else Remaining(c, next) < Remaining(c, st)
  {
    if step.AlertShard? {
      assert |st.alerter.todo - {step.x}| == |st.alerter.todo| - 1;
    }
  }

  lemma StopStepLowers(c: Config, st: State, step: Step)
    requires Shaped(c, st) && Closed(st) && NextStop(c, st, step) != st
    ensures Remaining(c, NextStop(c, st, step)) < Remaining(c, st)
  {
    PhaseLowers(c, st, step);
  }

  lemma PhaseLowers(c: Config, st: State, step: Step)
    requires Shaped(c, st) && Closed(st) && NextStop(c, st, step) != st
    ensures var next := NextStop(c, st, step);
            && PhaseWeight(c, next.phase) < PhaseWeight(c, st.phase)
            && next.channel == st.channel && next.workers == st.workers && next.snapshotters == st.snapshotters
            && next.resetter == st.resetter && next.alerter == st.alerter
  {
    if step.FinalAlert? {
      assert |st.phase.todo - {step.x}| == |st.phase.todo| - 1;
    }
  }

  lemma StepLowers(c: Config, st: State, step: Step)
    requires Inv(c, st) && Closed(st) && Next(c, st, step) != st
    ensures if IsTick(step) then Remaining(c, Next(c, st, step)) <= Remaining(c, st) + c.Size() + 1
            else Remaining(c, Next(c, st, step)) < Remaining(c, st)
  {
    if IsPacketStep(step) {
      PacketStepLowers(c, st, step);
    } else if IsSnapshotStep(step) {
      SnapshotStepLowers(c, st, step);
    } else if IsResetStep(step) {
      ResetStepLowers(c, st, step);
    } else if IsAlertStep(step) {
      AlertStepLowers(c, st, step);
    } else {
      StopStepLowers(c, st, step);
    }
  }

  // Until Stop has returned, some step has an effect.

  lemma WorkerCanGoOn(c: Config, st: State, w: nat) returns (step: Step)
    requires Shaped(c, st) && Closed(st) && w < c.workers && !st.workers[w].WorkerGone?
    ensures IsPacketStep(step) && NextPacket(c, st, step) != st
  {
    var worker := st.workers[w];
    if worker.Busy? {
      step := Process(w);
    } else if st.channel == [] {
      step := ExitWorker(w);
    } else {
      step := Receive(w);
      assert |st.channel[1..]| < |st.channel|;
    }
  }

  lemma SnapshotterCanGoOn(c: Config, st: State, s: nat) returns (step: Step)
    requires Shaped(c, st) && Done(st) && s < |c.writers| && SnapshotterOk(c, st, s) && !st.snapshotters[s].LoopGone?
    ensures IsSnapshotStep(step) && !IsTick(step) && NextSnapshotter(c, st, step) != st
  {
    var l := st.snapshotters[s];
    if l.Selecting? {
      step := SnapshotDone(s);
    } else if l.todo == {} {
      step := SnapshotEnd(s);
    } else {
      var x :| x in l.todo;
      step := SnapshotShard(s, x);
      assert x !in l.todo - {x};
    }
  }

  lemma ResetterCanGoOn(c: Config, st: State) returns (step: Step)
    requires Shaped(c, st) && Done(st) && StopOk(c, st) && !st.resetter.LoopGone?
    ensures IsResetStep(step) && !IsTick(step) && NextResetter(c, st, step) != st
  {
    if st.resetter.Selecting? {
      step := ResetDone;
    } else if st.resetter.todo == {} {
      step := ResetEnd;
    } else {
      var x :| x in st.resetter.todo;
      step := ResetShard(x);
      assert x !in st.resetter.todo - {x};
    }
  }

  lemma AlerterCanGoOn(c: Config, st: State) returns (step: Step)
    requires Shaped(c, st) && st.phase.ForAlerter? && StopOk(c, st) && !st.alerter.LoopGone?
    ensures IsAlertStep(step) && !IsTick(step) && NextAlerter(c, st, step) != st
  {
    if st.alerter.Selecting? {
      step := AlertDone;
    } else if st.alerter.todo == {} {
      step := AlertEnd;
    } else {
      var x :| x in st.alerter.todo;
      step := AlertShard(x);
      assert x !in st.alerter.todo - {x};
    }
  }

  lemma StopItselfGoesOn(c: Config, st: State) returns (step: Step)
    requires Shaped(c, st) && StopOk(c, st) && Closed(st) && !st.phase.Stopped?
    requires st.phase.ForWorkers? ==> AllGone(st.workers)
    requires st.phase.ForSnapshotters? ==> LoopsGone(st.snapshotters)
    requires st.phase.ForResetter? ==> st.resetter.LoopGone?
    requires st.phase.ForAlerter? ==> st.alerter.LoopGone?
    ensures (step.FinalAlert? || step.StopGoesOn?) && NextStop(c, st, step) != st
  {
    if st.phase.Evaluating? && st.phase.todo != {} {
      var x :| x in st.phase.todo;
      step := FinalAlert(x);
      assert x !in st.phase.todo - {x};
    } else {
      step := StopGoesOn;
    }
  }

  /** In every reachable state after Stop was called and before it returns, some goroutine can take a step
      that has an effect and is no tick: nothing waits for anything that cannot come. */
  lemma StopCanGoOn(c: Config, st: State) returns (step: Step)
    requires Inv(c, st) && Closed(st) && !st.phase.Stopped?
    ensures !IsTick(step) && Next(c, st, step) != st
  {
    if st.phase.ForWorkers? && !AllGone(st.workers) {
      var w :| 0 <= w < c.workers && !st.workers[w].WorkerGone?;
      step := WorkerCanGoOn(c, st, w);
    } else if st.phase.ForSnapshotters? && !LoopsGone(st.snapshotters) {
      var s :| 0 <= s < |c.writers| && !st.snapshotters[s].LoopGone?;
      assert SnapshotterOk(c, st, s);
      step := SnapshotterCanGoOn(c, st, s);
    } else if st.phase.ForResetter? && !st.resetter.LoopGone? {
      step := ResetterCanGoOn(c, st);
    } else if st.phase.ForAlerter? && !st.alerter.LoopGone? {
      step := AlerterCanGoOn(c, st);
    } else {
      step := StopItselfGoesOn(c, st);
    }
  }

  lemma StaysClosed(c: Config, st: State, step: Step)
    requires Shaped(c, st) && Closed(st)
    ensures Closed(Next(c, st, step))
  {
  }

  // Every run after Stop comes to its end.

  function Ticks(steps: seq<Step>): nat {
    if steps == [] then 0 else Ticks(steps[..|steps| - 1]) + (if IsTick(steps[|steps| - 1]) then 1 else 0)
  }

  /** The step after the first k of more has an effect. */
  predicate EffectiveAt(c: Config, steps: seq<Step>, more: seq<Step>, k: nat)
    requires k < |more|
  {
    Next(c, Execute(c, steps + more[..k]), more[k]) != Execute(c, steps + more[..k])
  }

  function WorkLeft(c: Config, steps: seq<Step>): nat {
    Remaining(c, Execute(c, steps))
  }

  /** A step leaves less, unless it is a tick, which may add less than a. */
  predicate Spends(left: seq<Step> -> nat, a: nat, before: seq<Step>, step: Step) {
    left(before + [step]) + 1 <= left(before) + (if IsTick(step) then a else 0)
  }

  lemma {:induction false} Spending(left: seq<Step> -> nat, a: nat, steps: seq<Step>, more: seq<Step>)
    requires forall k: nat :: k < |more| ==> Spends(left, a, steps + more[..k], more[k])
    ensures |more| + left(steps + more) <= left(steps) + a * Ticks(more)
  {
    if more == [] {
      assert steps + more == steps;
    } else {
      var n := |more| - 1;
      var init := more[..n];
      forall k: nat | k < n ensures Spends(left, a, steps + init[..k], init[k]) {
        assert init[..k] == more[..k] && Spends(left, a, steps + more[..k], more[k]);
      }
      Spending(left, a, steps, init);
      assert Spends(left, a, steps + init, more[n]);
      assert steps + more == steps + init + [more[n]];
      OneMoreTick(Ticks(init), a);
    }
  }

  lemma OneMoreTick(k: nat, a: nat)
    ensures a * (k + 1) == a * k + a
  {
  }

  /** From the call of Stop on, effective steps use up the work left, and each tick adds a bounded amount. */
  lemma {:induction false} WorkRunsOut(c: Config, steps: seq<Step>, more: seq<Step>)
    requires Closed(Execute(c, steps)) && forall k: nat :: k < |more| ==> EffectiveAt(c, steps, more, k)
    ensures |more| + WorkLeft(c, steps + more) <= WorkLeft(c, steps) + (c.Size() + 2) * Ticks(more)
  {
    var left := Left(c);
    forall k: nat | k < |more| ensures Spends(left, c.Size() + 2, steps + more[..k], more[k]) {
      ClosedFromThen(c, steps, more[..k]);
      assert EffectiveAt(c, steps, more, k);
      WorkOfStep(c, steps + more[..k], more[k]);
    }
    Spending(left, c.Size() + 2, steps, more);
  }

  function Left(c: Config): seq<Step> -> nat {
    steps => WorkLeft(c, steps)
  }

  lemma {:induction false} ClosedFromThen(c: Config, steps: seq<Step>, more: seq<Step>)
    requires Closed(Execute(c, steps))
    ensures Closed(Execute(c, steps + more))
  {
    if more == [] {
      assert steps + more == steps;
    } else {
      var n := |more| - 1;
      ClosedFromThen(c, steps, more[..n]);
      assert steps + more == steps + more[..n] + [more[n]];
      OneMore(c, steps + more[..n], more[n]);
      StaysClosed(c, Execute(c, steps + more[..n]), more[n]);
    }
  }

  lemma {:induction false} WorkOfStep(c: Config, steps: seq<Step>, step: Step)
    requires Closed(Execute(c, steps)) && Next(c, Execute(c, steps), step) != Execute(c, steps)
    ensures Closed(Execute(c, steps + [step]))
    ensures WorkLeft(c, steps + [step]) + 1 <= WorkLeft(c, steps) + (if IsTick(step) then c.Size() + 2 else 0)
  {
    OneMore(c, steps, step);
    EveryRunKeepsInv(c, steps);
    StepLowers(c, Execute(c, steps), step);
    StaysClosed(c, Execute(c, steps), step);
  }

  /** The first m steps of an endless run. */
  function Prefix(run: nat -> Step, m: nat): (steps: seq<Step>)
    ensures |steps| == m
  {
    if m == 0 then [] else Prefix(run, m - 1) + [run(m - 1)]
  }

  lemma {:induction false} PrefixOfPrefix(run: nat -> Step, m: nat, k: nat)
    requires k < m
    ensures Prefix(run, m)[..k] == Prefix(run, k) && Prefix(run, m)[k] == run(k)
  {
    if k < m - 1 {
      PrefixOfPrefix(run, m - 1, k);
      assert Prefix(run, m)[..k] == Prefix(run, m - 1)[..k];
    } else {
      assert Prefix(run, m)[..k] == Prefix(run, k);
    }
  }

  function StateAt(c: Config, steps: seq<Step>, run: nat -> Step, m: nat): State {
    Execute(c, steps + Prefix(run, m))
  }

  /** As long as Stop has not returned, the run does not stall. */
  ghost predicate GoesOn(c: Config, steps: seq<Step>, run: nat -> Step) {
    forall m: nat :: MovesAt(c, steps, run, m)
  }

  predicate MovesAt(c: Config, steps: seq<Step>, run: nat -> Step, m: nat) {
    StateAt(c, steps, run, m).phase.Stopped?
    || Next(c, StateAt(c, steps, run, m), run(m)) != StateAt(c, steps, run, m)
  }

  /** However the goroutines interleave after the call of Stop, a run that does not stall and has at most k
      ticks comes, within a bounded number of steps, to where Stop has returned. */
  lemma StopReturns(c: Config, steps: seq<Step>, run: nat -> Step, k: nat) returns (n: nat)
    requires Closed(Execute(c, steps)) && GoesOn(c, steps, run) && forall m: nat :: Ticks(Prefix(run, m)) <= k
    ensures n <= WorkLeft(c, steps) + (c.Size() + 2) * k
    ensures StoppedAt(c, steps, run, n)
  {
    var bound := WorkLeft(c, steps) + (c.Size() + 2) * k;
    SomewhereStopped(c, steps, run, k, bound);
    n :| n <= bound && StoppedAt(c, steps, run, n);
  }

  predicate StoppedAt(c: Config, steps: seq<Step>, run: nat -> Step, m: nat) {
    StateAt(c, steps, run, m).phase.Stopped?
  }

  lemma {:induction false} SomewhereStopped(c: Config, steps: seq<Step>, run: nat -> Step, k: nat, bound: nat)
    requires Closed(Execute(c, steps)) && GoesOn(c, steps, run) && forall m: nat :: Ticks(Prefix(run, m)) <= k
    requires bound == WorkLeft(c, steps) + (c.Size() + 2) * k
    ensures exists n: nat :: n <= bound && StoppedAt(c, steps, run, n)
  {
    if forall n: nat :: n <= bound ==> !StoppedAt(c, steps, run, n) {
      AllEffective(c, steps, run, bound + 1);
      var more := Prefix(run, bound + 1);
      WorkRunsOut(c, steps, more);
      FewTicks(Ticks(more), k, c.Size() + 2);
      assert false;
    }
  }

  lemma {:induction false} AllEffective(c: Config, steps: seq<Step>, run: nat -> Step, n: nat)
    requires GoesOn(c, steps, run) && forall m: nat :: m < n ==> !StoppedAt(c, steps, run, m)
    ensures forall m: nat :: m < n ==> EffectiveAt(c, steps, Prefix(run, n), m)
  {
    forall m: nat | m < n ensures EffectiveAt(c, steps, Prefix(run, n), m) {
      PrefixOfPrefix(run, n, m);
      assert MovesAt(c, steps, run, m) && !StoppedAt(c, steps, run, m);
    }
  }

  lemma FewTicks(j: nat, k: nat, a: nat)
    requires j <= k
    ensures a * j <= a * k
  {
  }

  /** However the run got there, Stop can be brought to return. */
  lemma StopCanFinish(c: Config, steps: seq<Step>) returns (more: seq<Step>)
    requires Closed(Execute(c, steps))
    ensures Execute(c, steps + more).phase.Stopped?
  {
    var all := RunToTheEnd(c, steps);
    more := all[|steps|..];
    assert steps + more == all;
  }

  lemma {:induction false} RunToTheEnd(c: Config, steps: seq<Step>) returns (all: seq<Step>)
    requires Closed(Execute(c, steps))
    ensures steps <= all && Execute(c, all).phase.Stopped?
    decreases WorkLeft(c, steps)
  {
    if Execute(c, steps).phase.Stopped? {
      all := steps;
    } else {
      var step := NearerTheEnd(c, steps);
      all := RunToTheEnd(c, steps + [step]);
    }
  }

  lemma NearerTheEnd(c: Config, steps: seq<Step>) returns (step: Step)
    requires Closed(Execute(c, steps)) && !Execute(c, steps).phase.Stopped?
    ensures Closed(Execute(c, steps + [step])) && WorkLeft(c, steps + [step]) < WorkLeft(c, steps)
  {
    EveryRunKeepsInv(c, steps);
    step := StopCanGoOn(c, Execute(c, steps));
    WorkOfStep(c, steps, step);
  }
}
