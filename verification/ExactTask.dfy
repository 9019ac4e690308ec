/** The exact task (exact/task.go): flow objects in a sharded map, one call at a time. SnapshotCut has the
    interleavings of a snapshot with packets. */
module ExactTask {
  import opened Words
  import opened Text
  import opened Packets
  import opened FlowKey
  import opened FlowTotals

  const DEFAULT_SHARD_COUNT: uint32 := 256

  class Flow {
    const key: string
    const fields: map<Field, Shown>
    var startTime: int
    var endTime: int
    var byteCount: uint64
    var packetCount: uint64

    constructor (key: string, fields: map<Field, Shown>, startTime: int, endTime: int,
                 packetCount: uint64, byteCount: uint64)
      ensures this.key == key && Value() == Record(fields, startTime, endTime, packetCount, byteCount)
    {
      this.key, this.fields, this.startTime, this.endTime := key, fields, startTime, endTime;
      this.packetCount, this.byteCount := packetCount, byteCount;
    }

    function Value(): Record
      reads this
    {
      Record(fields, startTime, endTime, packetCount, byteCount)
    }
  }

  class Shard {
    var flows: map<string, Flow>

    constructor (flows: map<string, Flow>)
      ensures this.flows == flows
    {
      this.flows := flows;
    }

    /** The values of the flows. */
    ghost function Contents(): map<string, Record>
      reads this, flows.Values
    {
      map k | k in flows :: flows[k].Value()
    }
  }

  datatype SnapshotData = SnapshotData(taskName: string, shards: seq<Shard>)

  ghost function ShardSet(shards: seq<Shard>): set<Shard> {
    set s | s in shards
  }

  ghost function FlowSet(shards: seq<Shard>): set<Flow>
    reads ShardSet(shards)
  {
    set s, k | s in shards && k in s.flows :: s.flows[k]
  }

  ghost function View(shards: seq<Shard>): seq<map<string, Record>>
    reads ShardSet(shards), FlowSet(shards)
  {
    seq(|shards|, i requires 0 <= i < |shards| reads ShardSet(shards), FlowSet(shards) => shards[i].Contents())
  }

  class Task {
    const name: string
    const scheme: Scheme
    const shards: seq<Shard>
    /** maphash.String with a fixed random seed, cut to 32 bits. */
    const hash: string -> uint32
    /** The packets processed since construction or the last Reset. */
    ghost var history: seq<PacketInfo>

    ghost predicate Shaped()
    {
      |shards| > 0 && forall i, j :: 0 <= i < j < |shards| ==> shards[i] != shards[j]
    }

    function Route(k: string): nat
      requires |shards| > 0
    {
      hash(k) % |shards|
    }

    /** Every flow sits in the shard of its key and is what the plain map has for the key. */
    ghost predicate FlowOk(i: nat, k: string, m: map<string, Record>)
      requires |shards| > 0 && i < |shards| && k in shards[i].flows
      reads shards[i], shards[i].flows[k]
    {
      Route(k) == i && shards[i].flows[k].key == k && k in m && shards[i].flows[k].Value() == m[k]
    }

    /** The shards hold the plain map m. */
    ghost predicate Holds(m: map<string, Record>)
      reads ShardSet(shards), FlowSet(shards)
    {
      && Shaped()
      && (forall i, k :: 0 <= i < |shards| && k in shards[i].flows ==> FlowOk(i, k, m))
      && (forall k :: k in m ==> k in shards[Route(k)].flows)
    }

    ghost predicate Valid()
      reads this`history, ShardSet(shards), FlowSet(shards)
    {
      Holds(Replay(scheme, history))
    }

    constructor (name: string, scheme: Scheme, numShards: uint32, hash: string -> uint32)
      ensures Valid() && history == []
      ensures this.name == name && this.scheme == scheme && this.hash == hash
      ensures |shards| == if numShards == 0 || numShards >= 32768 then 256 else numShards
      ensures fresh(ShardSet(shards)) && FlowSet(shards) == {}
    {
      this.name, this.scheme, this.hash := name, scheme, hash;
      var n := if numShards == 0 || numShards >= 32768 then DEFAULT_SHARD_COUNT else numShards;
      var made: seq<Shard> := [];
      while |made| < n
        invariant |made| <= n
        invariant forall i :: 0 <= i < |made| ==> fresh(made[i]) && made[i].flows == map[]
        invariant forall i, j :: 0 <= i < j < |made| ==> made[i] != made[j]
      {
        var shard := new Shard(map[]);
        made := made + [shard];
      }
      shards := made;
      history := [];
    }

    /** One case of the loop below. */
    method FieldPart(f: Field, ft: FiveTuple) returns (ok: bool, part: string, shown: Shown)
      ensures ok <==> !f.Unknown?
      ensures ok ==> FieldText(Selected(f, ft), scheme.ipText) == [part] && shown == scheme.Show(f, ft)
    {
      ok := true;
      match f {
        case SrcIP => part := scheme.ipText(ft.srcIP); shown := Label(part);
        case DstIP => part := scheme.ipText(ft.dstIP); shown := Label(part);
        case SrcPort => part := Itoa(ft.srcPort); shown := Amount(ft.srcPort);
        case DstPort => part := Itoa(ft.dstPort); shown := Amount(ft.dstPort);
        case Protocol => part := Itoa(ft.protocol); shown := Amount(ft.protocol);
        case Unknown(_) => ok, part, shown := false, "", Amount(0);
      }
    }

    /** The loop over the key fields; fails on the first unknown name. */
    method GenerateKeyAndFields(ft: FiveTuple) returns (ok: bool, fields: map<Field, Shown>, key: string)
      ensures ok <==> scheme.Known()
      ensures ok ==> key == scheme.KeyOf(ft) && fields == scheme.FieldsOf(ft)
    {
      ok, fields, key := true, map[], "";
      var parts := [];
      var i := 0;
      while i < |scheme.fields|
        invariant 0 <= i <= |scheme.fields|
        invariant forall j :: 0 <= j < i ==> !scheme.fields[j].Unknown?
        invariant parts == Texts(scheme.fields[..i], ft, scheme.ipText)
        invariant fields == map f | f in scheme.fields[..i] :: scheme.Show(f, ft)
      {
        var f := scheme.fields[i];
        var known, part, shown := FieldPart(f, ft);
        if !known {
          ok := false;
          return;
        }
        TextsSnoc(scheme.fields[..i], f, ft, scheme.ipText);
        assert scheme.fields[..i + 1] == scheme.fields[..i] + [f];
        parts, fields := parts + [part], fields[f := shown];
        i := i + 1;
      }
      assert scheme.fields[..i] == scheme.fields;
      key := Join(parts, '-');
    }

    /** Counts the packet in its flow's record, in place. */
    method CountPacket(key: string, ghost fields: map<Field, Shown>, p: PacketInfo, ghost m: map<string, Record>)
      requires Holds(m) && key in m
      modifies shards[Route(key)].flows[key]
      ensures Holds(m[key := Extend(m, key, fields, p)])
      ensures FlowSet(shards) == old(FlowSet(shards))
    {
      var flow := shards[Route(key)].flows[key];
      assert FlowOk(Route(key), key, m);
      flow.endTime := p.timestamp;
      flow.packetCount := Add64(flow.packetCount, 1);
      flow.byteCount := Add64(flow.byteCount, Size64(p));
      ghost var n := m[key := Extend(m, key, fields, p)];
      forall i, k | 0 <= i < |shards| && k in shards[i].flows ensures FlowOk(i, k, n) {
        assert old(FlowOk(i, k, m));
        assert k != key ==> shards[i].flows[k] != flow;
      }
    }

    /** Starts a record. */
    method AddFlow(key: string, fields: map<Field, Shown>, p: PacketInfo, ghost m: map<string, Record>)
      requires Holds(m) && key !in m
      modifies shards[Route(key)]
      ensures Holds(m[key := Extend(m, key, fields, p)])
      ensures fresh(FlowSet(shards) - old(FlowSet(shards)))
    {
      var shard := shards[Route(key)];
      var flow := new Flow(key, fields, p.timestamp, p.timestamp, 1, Size64(p));
      shard.flows := shard.flows[key := flow];
      ghost var n := m[key := Extend(m, key, fields, p)];
      forall i, k | 0 <= i < |shards| && k in shards[i].flows ensures FlowOk(i, k, n) {
        if k != key || i != Route(key) {
          assert old(FlowOk(i, k, m));
        }
      }
    }

    method CountOrAdd(key: string, fields: map<Field, Shown>, p: PacketInfo, ghost m: map<string, Record>)
      requires Holds(m)
      modifies ShardSet(shards), FlowSet(shards)
      ensures Holds(m[key := Extend(m, key, fields, p)])
      ensures fresh(FlowSet(shards) - old(FlowSet(shards)))
    {
      if key in shards[Route(key)].flows {
        assert FlowOk(Route(key), key, m);
        CountPacket(key, fields, p, m);
      } else {
        AddFlow(key, fields, p, m);
      }
    }

    method TouchShards(p: PacketInfo, ghost m: map<string, Record>)
      requires Holds(m)
      modifies ShardSet(shards), FlowSet(shards)
      ensures Holds(Touch(scheme, m, p))
      ensures fresh(FlowSet(shards) - old(FlowSet(shards)))
    {
      var ok, fields, key := GenerateKeyAndFields(p.fiveTuple);
      if ok {
        CountOrAdd(key, fields, p, m);
      }
    }

    method ProcessPacket(p: PacketInfo)
      requires Valid()
      modifies this`history, ShardSet(shards), FlowSet(shards)
      ensures Valid() && history == old(history) + [p]
      ensures fresh(FlowSet(shards) - old(FlowSet(shards)))
    {
      ReplayAppend(scheme, history, p);
      TouchShards(p, Replay(scheme, history));
      history := history + [p];
    }

    /** Copies the flows of one shard, object by object. */
    method CopyShard(shard: Shard) returns (copy: Shard)
      ensures fresh(copy) && fresh(copy.flows.Values)
      ensures copy.Contents() == shard.Contents()
    {
      var copied: map<string, Flow> := map[];
      var todo := shard.flows.Keys;
      while todo != {}
        invariant todo <= shard.flows.Keys && copied.Keys == shard.flows.Keys - todo
        invariant forall k :: k in copied ==> fresh(copied[k])
        invariant forall k :: k in copied ==> copied[k].Value() == shard.flows[k].Value()
      {
        var k :| k in todo;
        var v := shard.flows[k];
        var flowCopy := new Flow(v.key, v.fields, v.startTime, v.endTime, v.packetCount, v.byteCount);
        copied := copied[k := flowCopy];
        todo := todo - {k};
      }
      copy := new Shard(copied);
    }

    /** A snapshot shares no object with the live shards. */
    ghost predicate Detached(data: SnapshotData)
      reads ShardSet(shards), FlowSet(shards), ShardSet(data.shards)
    {
      ShardSet(data.shards) !! ShardSet(shards) && FlowSet(data.shards) !! FlowSet(shards)
    }

    method CopyShards() returns (copies: seq<Shard>)
      ensures |copies| == |shards|
      ensures forall i :: 0 <= i < |copies| ==> fresh(copies[i]) && fresh(copies[i].flows.Values)
      ensures forall i :: 0 <= i < |copies| ==> copies[i].Contents() == old(shards[i].Contents())
    {
      copies := [];
      while |copies| < |shards|
        invariant |copies| <= |shards|
        invariant forall i :: 0 <= i < |copies| ==> fresh(copies[i]) && fresh(copies[i].flows.Values)
        invariant forall i :: 0 <= i < |copies| ==> copies[i].Contents() == old(shards[i].Contents())
      {
        var copy := CopyShard(shards[|copies|]);
        copies := copies + [copy];
      }
    }

    /** A deep copy: the same values in fresh objects, so nothing that happens later can reach it. */
    method Snapshot() returns (data: SnapshotData)
      requires Valid()
      ensures Valid()
      ensures data.taskName == name && |data.shards| == |shards|
      ensures fresh(ShardSet(data.shards)) && fresh(FlowSet(data.shards)) && Detached(data)
      ensures View(data.shards) == old(View(shards))
    {
      var copies := CopyShards();
      data := SnapshotData(name, copies);
      forall f | f in FlowSet(copies) ensures fresh(f) {
        var i, k :| 0 <= i < |copies| && k in copies[i].flows && copies[i].flows[k] == f;
        assert f in copies[i].flows.Values;
      }
    }

    /** Replaces every shard's map. */
    method Reset()
      requires Valid()
      modifies this`history, ShardSet(shards)
      ensures Valid() && history == [] && FlowSet(shards) == {}
    {
      var i := 0;
      while i < |shards|
        invariant 0 <= i <= |shards|
        invariant forall j :: 0 <= j < i ==> shards[j].flows == map[]
      {
        shards[i].flows := map[];
        i := i + 1;
      }
      history := [];
    }

    /** Shards that hold a plain map split it. */
    lemma HoldsSplits(m: map<string, Record>)
      requires Holds(m)
      ensures Splits(View(shards), m, k => hash(k) % |shards|)
    {
      var views := View(shards);
      forall i, k | 0 <= i < |views| && k in views[i] ensures Route(k) == i && k in m && views[i][k] == m[k] {
        assert FlowOk(i, k, m);
      }
      forall k | k in m ensures k in views[Route(k)] {
        assert views[Route(k)] == shards[Route(k)].Contents();
      }
    }

    /** The inner loop over one shard's flows. */
    method AddShard(shard: Shard, start: Totals, ghost m: map<string, Record>) returns (t: Totals)
      requires m == shard.Contents() && start.packets < TWO_64 && start.bytes < TWO_64
      ensures AddedUp(m, {}, start, t)
    {
      t := start;
      var todo := shard.flows.Keys;
      KeysOfContents(shard);
      NothingAdded(m, start);
      while todo != {}
        invariant todo <= m.Keys && AddedUp(m, todo, start, t)
      {
        var k :| k in todo;
        var flow := shard.flows[k];
        OneMoreFlow(m, todo, k, flow.Value(), start);
        t := Totals(Add64(t.packets, flow.packetCount), Add64(t.bytes, flow.byteCount), t.flows + 1);
        todo := todo - {k};
      }
    }

    lemma KeysOfContents(shard: Shard)
      ensures shard.Contents().Keys == shard.flows.Keys
    {
    }

    method AddUp(data: SnapshotData, ghost views: seq<map<string, Record>>) returns (t: Totals)
      requires views == View(data.shards)
      ensures t == TableTotals(views)
    {
      t := Totals(0, 0, 0);
      var i := 0;
      while i < |data.shards|
        invariant 0 <= i <= |data.shards| && views == View(data.shards)
        invariant t == TableTotals(views[..i])
      {
        t := AddShard(data.shards[i], t, views[i]);
        TableTotalsStep(views, i, t);
        i := i + 1;
      }
      assert views[..i] == views;
    }

    lemma ReportedTotals()
      requires Valid()
      ensures var seen := scheme.Accepted(history);
              TableTotals(View(shards)) == Totals(|seen| % TWO_64, Lengths(seen) % TWO_64, |scheme.Flows(history)|)
    {
      var m := Replay(scheme, history);
      HoldsSplits(m);
      SplitTotals(View(shards), m, k => hash(k) % |shards|, PACKET_COUNT);
      SplitTotals(View(shards), m, k => hash(k) % |shards|, BYTE_COUNT);
      TotalsAreOfTraffic(scheme, history);
    }

    /** The alerts are those of the traffic itself: the packets and bytes processed since the last reset,
        modulo 2^64, whatever the key fields, and the number of flows. */
    method AlerterMsg(rules: seq<Rule>) returns (alerts: seq<Alert>)
      requires Valid()
      ensures var seen := scheme.Accepted(history);
              alerts == Alerts(rules, name, Totals(|seen| % TWO_64, Lengths(seen) % TWO_64, |scheme.Flows(history)|))
    {
      ReportedTotals();
      ghost var views := View(shards);
      var data := Snapshot();
      var totals := AddUp(data, views);
      alerts := TriggeredAlerts(rules, totals);
    }

    /** The loop over the rules. */
    method TriggeredAlerts(rules: seq<Rule>, t: Totals) returns (alerts: seq<Alert>)
      ensures alerts == Alerts(rules, name, t)
    {
      alerts := [];
      var i := 0;
      while i < |rules|
        invariant 0 <= i <= |rules|
        invariant alerts == Alerts(rules[..i], name, t)
      {
        var rule := rules[i];
        assert rules[..i + 1][..i] == rules[..i];
        if rule.taskName == name {
          var triggered, currentValue := false, 0;
          match rule.metric {
            case TotalPackets =>
              currentValue := t.packets;
              triggered := Check(currentValue as real, rule.threshold, rule.operator);
            case TotalBytes =>
              currentValue := t.bytes;
              triggered := Check(currentValue as real, rule.threshold, rule.operator);
            case TotalFlows =>
              currentValue := t.flows;
              triggered := Check(currentValue as real, rule.threshold, rule.operator);
            case OtherMetric(_) =>
          }
          if triggered {
            alerts := alerts + [Alert(rule, currentValue)];
          }
        }
        i := i + 1;
      }
      assert rules[..i] == rules;
    }

    /** The loop below stands at field i and byte index. */
    ghost predicate ReadSoFar(flow: Key, i: nat, index: nat, parts: seq<string>) {
      && i <= |scheme.fields| && index <= |flow| && |flow| - index >= Needed(scheme.fields[i..])
      && (scheme.Known() ==>
            && |flow| >= Total(scheme.fields) && |flow| - index >= Total(scheme.fields[i..])
            && parts + Remaining(scheme.fields, i, flow, index, scheme.ipText) ==
               Decoded(scheme.fields, flow, scheme.ipText))
    }

    lemma ReadFromStart(flow: Key)
      requires |flow| >= Needed(scheme.fields)
      ensures ReadSoFar(flow, 0, 0, [])
    {
      assert scheme.fields[0..] == scheme.fields;
      if scheme.Known() {
        NeededOfKnown(scheme.fields);
        RemainingEnds(scheme.fields, flow, 0, scheme.ipText);
      }
    }

    lemma EnoughLeft(flow: Key, i: nat, index: nat, parts: seq<string>)
      requires ReadSoFar(flow, i, index, parts) && i < |scheme.fields| && !scheme.fields[i].Unknown?
      ensures index + FieldByteSize(scheme.fields[i]) <= |flow|
    {
    }

    lemma ReadOneMore(flow: Key, i: nat, index: nat, parts: seq<string>, part: seq<string>, next: nat)
      requires ReadSoFar(flow, i, index, parts) && i < |scheme.fields| && !scheme.fields[i].Unknown?
      requires next == index + FieldByteSize(scheme.fields[i]) <= |flow|
      requires part == FieldText(ReadField(scheme.fields[i], flow[index..]), scheme.ipText)
      ensures ReadSoFar(flow, i + 1, next, parts + part)
    {
      assert scheme.fields[i..][1..] == scheme.fields[i + 1..];
      if scheme.Known() {
        RemainingCons(scheme.fields, i, flow, index, scheme.ipText);
        Regroup(parts, FieldText(ReadField(scheme.fields[i], flow[index..]), scheme.ipText),
                Remaining(scheme.fields, i + 1, flow, next, scheme.ipText));
      }
    }

    lemma {:induction false} ReadToEnd(flow: Key, index: nat, parts: seq<string>)
      requires ReadSoFar(flow, |scheme.fields|, index, parts)
      requires forall j :: 0 <= j < |scheme.fields| ==> !scheme.fields[j].Unknown?
      ensures scheme.Known() && |flow| >= Total(scheme.fields) && parts == Decoded(scheme.fields, flow, scheme.ipText)
    {
      RemainingEnds(scheme.fields, flow, index, scheme.ipText);
      assert parts + [] == parts;
    }

    /** The loop that turns an encoded flow into a key; 0 and nothing else for an unknown name. */
    method KeyOfEncoded(flow: Key) returns (ok: bool, key: string)
      requires |flow| >= Needed(scheme.fields)
      ensures ok <==> scheme.Known()
      ensures ok ==> |flow| >= Total(scheme.fields) && key == Join(Decoded(scheme.fields, flow, scheme.ipText), '-')
    {
      ok, key := true, "";
      var parts: seq<string> := [];
      var index := 0;
      var i := 0;
      ReadFromStart(flow);
      while i < |scheme.fields|
        invariant forall j :: 0 <= j < i <= |scheme.fields| ==> !scheme.fields[j].Unknown?
        invariant ReadSoFar(flow, i, index, parts)
      {
        var f := scheme.fields[i];
        if f.Unknown? {
          ok := false;
          return;
        }
        EnoughLeft(flow, i, index, parts);
        var part, next := DecodeField(flow, index, f, scheme.ipText);
        ReadOneMore(flow, i, index, parts, part, next);
        parts, index := parts + part, next;
        i := i + 1;
      }
      ReadToEnd(flow, index, parts);
      key := Join(parts, '-');
    }

    /** What the plain map has for the key that an encoded flow stands for. By LayoutAsksForKey that is
        the flow of the packets it was encoded from, and by PackedSplitsIff both counters can be read off
        exactly when they fit. */
    method Query(flow: Key) returns (r: nat)
      requires Valid() && |flow| >= Needed(scheme.fields)
      ensures !scheme.Known() ==> r == 0
      ensures scheme.Known() ==>
                && |flow| >= Total(scheme.fields)
                && var key := Join(Decoded(scheme.fields, flow, scheme.ipText), '-');
                   r == if key in Replay(scheme, history) then Packed(Replay(scheme, history)[key]) else 0
    {
      var ok, key := KeyOfEncoded(flow);
      if !ok {
        return 0;
      }
      r := Lookup(key, Replay(scheme, history));
    }

    method Lookup(key: string, ghost m: map<string, Record>) returns (r: nat)
      requires Holds(m)
      ensures r == if key in m then Packed(m[key]) else 0
    {
      var shard := shards[Route(key)];
      if key in shard.flows {
        assert FlowOk(Route(key), key, m);
        r := Or(shard.flows[key].packetCount * TWO_32 % TWO_64, shard.flows[key].byteCount);
      } else {
        r := 0;
      }
    }

    method ProcessBeside(p: PacketInfo, ghost data: SnapshotData)
      requires Valid() && Detached(data)
      modifies this`history, ShardSet(shards), FlowSet(shards)
      ensures Valid() && history == old(history) + [p]
      ensures fresh(FlowSet(shards) - old(FlowSet(shards)))
      ensures Detached(data) && View(data.shards) == old(View(data.shards))
    {
      ProcessPacket(p);
      assert FlowSet(data.shards) == old(FlowSet(data.shards));
      assert forall i :: 0 <= i < |data.shards| ==> data.shards[i].Contents() == old(data.shards[i].Contents());
    }

    method ResetBeside(ghost data: SnapshotData)
      requires Valid() && Detached(data)
      modifies this`history, ShardSet(shards)
      ensures Valid() && history == [] && View(data.shards) == old(View(data.shards))
    {
      Reset();
      assert forall i :: 0 <= i < |data.shards| ==> data.shards[i].Contents() == old(data.shards[i].Contents());
    }

    /** Any packets and a reset after a snapshot leave the snapshot as it was. */
    method SnapshotOutlives(later: seq<PacketInfo>) returns (data: SnapshotData)
      requires Valid()
      modifies this`history, ShardSet(shards), FlowSet(shards)
      ensures Valid() && history == [] && View(data.shards) == old(View(shards))
    {
      ghost var views := View(shards);
      data := Snapshot();
      var i := 0;
      while i < |later|
        invariant Valid() && Detached(data) && View(data.shards) == views
        invariant fresh(FlowSet(shards) - old(FlowSet(shards)))
      {
        ProcessBeside(later[i], data);
        i := i + 1;
      }
      ResetBeside(data);
    }
  }
}
