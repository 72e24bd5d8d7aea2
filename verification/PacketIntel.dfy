/** Per-node profiles of a window of packets, and what is conserved when packets are grouped by sender. */
module PacketIntel {
  import opened Prelude
  import opened LoraAirtime

  datatype Packet = Packet(
    sender: Option<int>, port: string, size: Option<nat>, observedAt: int,
    hopsUsed: Option<int>, hopStart: Option<int>, viaMqtt: Option<bool>, snr: Option<real>)

  /** A confirmed zero-hop packet; a hop start of 0 means the firmware did not say. */
  predicate IsDirectRf(p: Packet) {
    p.hopsUsed == Some(0) && p.hopStart.Some? && p.hopStart.value > 0 && p.viaMqtt != Some(true)
  }

  predicate ViaMqtt(p: Packet) {
    !IsDirectRf(p) && p.viaMqtt == Some(true)
  }

  predicate Relayed(p: Packet) {
    !IsDirectRf(p) && p.viaMqtt != Some(true)
  }

  /** compute_hops_used: unknown without both fields, for firmware that says 0, and when more is left than there was. */
  function HopsUsed(hopStart: Option<int>, hopLimit: Option<int>): Option<int> {
    if hopStart.None? || hopLimit.None? || hopStart.value == 0 || hopLimit.value > hopStart.value then None
    else Some(hopStart.value - hopLimit.value)
  }

  /** A packet is direct when it still has the whole of a real hop allowance and did not come over MQTT. */
  lemma DirectIff(p: Packet, hopLimit: Option<int>)
    requires p.hopsUsed == HopsUsed(p.hopStart, hopLimit)
    ensures IsDirectRf(p) <==>
      (exists allowance: int :: allowance > 0 && p.hopStart == hopLimit == Some(allowance)) && p.viaMqtt != Some(true)
  {
    if IsDirectRf(p) { assert p.hopStart == Some(p.hopStart.value); }
  }

  /** Every packet comes one way: over MQTT if it says so, else direct or relayed. */
  lemma OneWay(p: Packet)
    ensures ViaMqtt(p) <==> p.viaMqtt == Some(true)
    ensures !ViaMqtt(p) ==> (Relayed(p) <==> !IsDirectRf(p))
    ensures !(IsDirectRf(p) && ViaMqtt(p)) && !(IsDirectRf(p) && Relayed(p)) && !(ViaMqtt(p) && Relayed(p))
  {}

  /** What a packet counts for. */
  type Measure = Packet -> real

  // ---------------------------------------------------------------------------------------
  // One node's record
  // ---------------------------------------------------------------------------------------

  datatype Tally = Tally(
    packets: nat, airtime: real, direct: nat, relayed: nat, mqtt: nat, snr: seq<real>, ports: multiset<string>,
    first: Option<int>, last: Option<int>, unfamiliar: bool, unsized: nat)

  const NEW := Tally(0, 0.0, 0, 0, 0, [], multiset{}, None, None, false, 0)

  /** One more packet of the node. */
  function Counted(t: Tally, p: Packet, cost: Measure, known: set<int>): Tally
    requires p.sender.Some?
  {
    t.(packets := t.packets + 1,
       ports := t.ports + multiset{p.port},
       unsized := t.unsized + if p.size.None? then 1 else 0,
       airtime := t.airtime + cost(p),
       direct := t.direct + if IsDirectRf(p) then 1 else 0,
       mqtt := t.mqtt + if ViaMqtt(p) then 1 else 0,
       relayed := t.relayed + if Relayed(p) then 1 else 0,
       snr := if p.snr.Some? then t.snr + [p.snr.value] else t.snr,
       first := if t.first.None? || p.observedAt < t.first.value then Some(p.observedAt) else t.first,
       last := if t.last.None? || p.observedAt > t.last.value then Some(p.observedAt) else t.last,
       unfamiliar := t.unfamiliar || p.sender.value !in known)
  }

  type Sent = p: Packet | p.sender.Some? witness Packet(Some(0), "", None, 0, None, None, None, None)

  /** The record of a node that sent exactly these packets. */
  function TallyOf(own: seq<Sent>, cost: Measure, known: set<int>): Tally
  {
    if own == [] then NEW else Counted(TallyOf(own[..|own| - 1], cost, known), own[|own| - 1], cost, known)
  }

  function Own(packets: seq<Packet>, num: int): (own: seq<Sent>)
    ensures forall i | 0 <= i < |own| :: own[i].sender == Some(num)
  {
    if packets == [] then []
    else
      var n := |packets| - 1;
      Own(packets[..n], num) + if packets[n].sender == Some(num) then [packets[n]] else []
  }

  function Unattributed(packets: seq<Packet>): nat {
    if packets == [] then 0
    else Unattributed(packets[..|packets| - 1]) + if packets[|packets| - 1].sender.None? then 1 else 0
  }

  // ---------------------------------------------------------------------------------------
  // The report
  // ---------------------------------------------------------------------------------------

  datatype NodeIntel = NodeIntel(num: int, tally: Tally, share: real)

  datatype Report = Report(
    nodes: seq<NodeIntel>, totalAirtime: real, analysed: int, unsized: int, unattributed: int, ports: multiset<string>)

  /** Busiest first; the node number breaks ties. */
  predicate Before(a: NodeIntel, b: NodeIntel) {
    a.tally.airtime > b.tally.airtime || (a.tally.airtime == b.tally.airtime && a.num < b.num)
  }

  predicate Ranked(nodes: seq<NodeIntel>) {
    forall i, j | 0 <= i < j < |nodes| :: Before(nodes[i], nodes[j])
  }

  /** nodes.sort, an insertion at a time. */
  function Inserted(nodes: seq<NodeIntel>, x: NodeIntel): seq<NodeIntel> {
    if nodes == [] || Before(x, nodes[0]) then [x] + nodes else [nodes[0]] + Inserted(nodes[1..], x)
  }

  lemma {:induction false} InsertedHolds(nodes: seq<NodeIntel>, x: NodeIntel)
    ensures |Inserted(nodes, x)| == |nodes| + 1
    ensures forall y :: y in Inserted(nodes, x) <==> y == x || y in nodes
  {
    if nodes != [] {
      InsertedHolds(nodes[1..], x);
      assert nodes == [nodes[0]] + nodes[1..];
    }
  }

  lemma {:induction false} InsertedRanked(nodes: seq<NodeIntel>, x: NodeIntel)
    requires Ranked(nodes) && forall y <- nodes :: y.num != x.num
    ensures Ranked(Inserted(nodes, x))
  {
    if nodes != [] && !Before(x, nodes[0]) {
      InsertedRanked(nodes[1..], x);
      InsertedHolds(nodes[1..], x);
      var rest := Inserted(nodes[1..], x);
      assert nodes[0] in nodes;
      forall j | 0 <= j < |rest| ensures Before(nodes[0], rest[j]) {
        assert rest[j] in rest;
      }
    }
  }

  // ---------------------------------------------------------------------------------------
  // Sums over packets and over nodes
  // ---------------------------------------------------------------------------------------

  function Sum(f: Measure, packets: seq<Packet>): real {
    if packets == [] then 0.0 else Sum(f, packets[..|packets| - 1]) + f(packets[|packets| - 1])
  }

  /** The total over the packets that name a sender. */
  function TotalAttributed(f: Measure, packets: seq<Packet>): real {
    if packets == [] then 0.0
    else
      var n := |packets| - 1;
      TotalAttributed(f, packets[..n]) + if packets[n].sender.Some? then f(packets[n]) else 0.0
  }

  /** Node by node: the total over each one's own packets. */
  function GroupTotal(f: Measure, nums: seq<int>, packets: seq<Packet>): real {
    if nums == [] then 0.0
    else GroupTotal(f, nums[..|nums| - 1], packets) + Sum(f, Own(packets, nums[|nums| - 1]))
  }

  lemma OwnTotalStep(f: Measure, packets: seq<Packet>, num: int)
    requires packets != []
    ensures var (n, p) := (|packets| - 1, packets[|packets| - 1]);
            Sum(f, Own(packets, num)) == Sum(f, Own(packets[..n], num)) + if p.sender == Some(num) then f(p) else 0.0
  {
    var before := Own(packets[..|packets| - 1], num);
    if packets[|packets| - 1].sender == Some(num) {
      assert Own(packets, num)[..|before|] == before;
    } else {
      assert Own(packets, num) == before;
    }
  }

  lemma LastOfDistinct(nums: seq<int>, num: int)
    requires nums != [] && Distinct(nums)
    ensures var k := |nums| - 1;
            (num in nums <==> num in nums[..k] || num == nums[k]) && nums[k] !in nums[..k] && Distinct(nums[..k])
  {
    SplitLast(nums);
  }

  /** What a packet adds to the groups of these senders. */
  function Added(f: Measure, nums: seq<int>, p: Packet): real {
    if p.sender.Some? && p.sender.value in nums then f(p) else 0.0
  }

  lemma {:induction false} GroupTotalStep(f: Measure, nums: seq<int>, packets: seq<Packet>)
    requires packets != [] && Distinct(nums)
    ensures var (n, p) := (|packets| - 1, packets[|packets| - 1]);
            GroupTotal(f, nums, packets) == GroupTotal(f, nums, packets[..n]) + Added(f, nums, p)
  {
    if nums != [] {
      var k := |nums| - 1;
      GroupTotalStep(f, nums[..k], packets);
      OwnTotalStep(f, packets, nums[k]);
      AddedSplits(f, nums, packets[|packets| - 1]);
    }
  }

  lemma AddedSplits(f: Measure, nums: seq<int>, p: Packet)
    requires nums != [] && Distinct(nums)
    ensures var k := |nums| - 1;
            Added(f, nums, p) == Added(f, nums[..k], p) + if p.sender == Some(nums[k]) then f(p) else 0.0
  {
    if p.sender.Some? { LastOfDistinct(nums, p.sender.value); }
  }

  lemma {:induction false} NothingToGroup(f: Measure, nums: seq<int>)
    ensures GroupTotal(f, nums, []) == 0.0
  {
    if nums != [] { NothingToGroup(f, nums[..|nums| - 1]); }
  }

  predicate AllSendersIn(packets: seq<Packet>, nums: seq<int>) {
    forall i | 0 <= i < |packets| && packets[i].sender.Some? :: packets[i].sender.value in nums
  }

  /** Whatever is measured: grouping by sender loses nothing and counts nothing twice. */
  lemma {:induction false} Regrouping(f: Measure, nums: seq<int>, packets: seq<Packet>)
    requires Distinct(nums) && AllSendersIn(packets, nums)
    ensures GroupTotal(f, nums, packets) == TotalAttributed(f, packets)
  {
    if packets == [] {
      NothingToGroup(f, nums);
    } else {
      GroupTotalStep(f, nums, packets);
      Regrouping(f, nums, packets[..|packets| - 1]);
    }
  }

  function One(): Measure { (p: Packet) => 1.0 }

  /** How many packets there are of a kind. */
  function Counting(kind: Packet -> bool): Measure { (p: Packet) => if kind(p) then 1.0 else 0.0 }

  function Unsized(): Measure { (p: Packet) => if p.size.None? then 1.0 else 0.0 }

  function Named(port: string): Measure { (p: Packet) => if p.port == port then 1.0 else 0.0 }

  /** What a node's record says about the packets it was made from. */
  lemma {:induction false} TallyMeaning(own: seq<Sent>, cost: Measure, known: set<int>, port: string)
    ensures var t := TallyOf(own, cost, known);
            && t.packets == |own| && t.direct + t.relayed + t.mqtt == t.packets
            && t.packets as real == Sum(One(), own)
            && t.airtime == Sum(cost, own)
            && t.unsized as real == Sum(Unsized(), own)
            && t.ports[port] as real == Sum(Named(port), own)
            && t.direct as real == Sum(Counting(IsDirectRf), own)
            && t.mqtt as real == Sum(Counting(ViaMqtt), own)
            && t.relayed as real == Sum(Counting(Relayed), own)
  {
    if own != [] {
      TallyMeaning(own[..|own| - 1], cost, known, port);
    }
  }

  /** Where the packets with a signal report stand, in order. */
  function Reporting(own: seq<Sent>): (at: seq<nat>)
    ensures forall k | 0 <= k < |at| :: at[k] < |own| && own[at[k]].snr.Some?
    ensures forall i | 0 <= i < |own| && own[i].snr.Some? :: i in at
    ensures forall j, k | 0 <= j < k < |at| :: at[j] < at[k]
  {
    if own == [] then []
    else
      var n := |own| - 1;
      var before := Reporting(own[..n]);
      ReportingOn(own, before);
      if own[n].snr.Some? then before + [n] else before
  }

  lemma ReportingOn(own: seq<Sent>, before: seq<nat>)
    requires own != []
    requires var front := own[..|own| - 1];
             && (forall k | 0 <= k < |before| :: before[k] < |front| && front[before[k]].snr.Some?)
             && forall i | 0 <= i < |front| && front[i].snr.Some? :: i in before
    ensures forall k | 0 <= k < |before| :: before[k] < |own| - 1 && own[before[k]].snr.Some?
    ensures forall i | 0 <= i < |own| - 1 && own[i].snr.Some? :: i in before
  {
    var front := own[..|own| - 1];
    assert forall i | 0 <= i < |front| :: front[i] == own[i];
  }

  /** The signal list is every report, in the order of arrival. */
  lemma {:induction false} TallySignals(own: seq<Sent>, cost: Measure, known: set<int>)
    ensures var (snr, at) := (TallyOf(own, cost, known).snr, Reporting(own));
            |snr| == |at| && forall k | 0 <= k < |at| :: own[at[k]].snr == Some(snr[k])
  {
    if own != [] {
      var n := |own| - 1;
      TallySignals(own[..n], cost, known);
      var (snr, at) := (TallyOf(own[..n], cost, known).snr, Reporting(own[..n]));
      forall k | 0 <= k < |at| ensures own[at[k]].snr == Some(snr[k]) {
        assert own[..n][at[k]] == own[at[k]];
      }
    }
  }

  /** The flag is raised by a sender the mesh had no record of, and stays. */
  lemma {:induction false} TallyFlag(own: seq<Sent>, cost: Measure, known: set<int>)
    ensures TallyOf(own, cost, known).unfamiliar <==> exists k :: 0 <= k < |own| && own[k].sender.value !in known
  {
    if own != [] {
      var n := |own| - 1;
      TallyFlag(own[..n], cost, known);
      if TallyOf(own[..n], cost, known).unfamiliar {
        var k :| 0 <= k < n && own[..n][k].sender.value !in known;
        assert own[k].sender.value !in known;
      }
    }
  }

  /** Among the packets of one node that is the same as asking for the node itself. */
  lemma UnfamiliarIff(packets: seq<Packet>, cost: Measure, known: set<int>, num: int)
    ensures TallyOf(Own(packets, num), cost, known).unfamiliar <==> Own(packets, num) != [] && num !in known
  {
    var own := Own(packets, num);
    TallyFlag(own, cost, known);
    if own != [] { assert own[0].sender.value == num; }
  }

  /** first_seen and last_heard bound the observation times, and each is one of them. */
  ghost predicate Spans(t: Tally, own: seq<Sent>) {
    && t.first.Some? && t.last.Some?
    && (exists i | 0 <= i < |own| :: own[i].observedAt == t.first.value)
    && (exists i | 0 <= i < |own| :: own[i].observedAt == t.last.value)
    && forall i | 0 <= i < |own| :: t.first.value <= own[i].observedAt <= t.last.value
  }

  lemma SpansOn(before: Tally, own: seq<Sent>, cost: Measure, known: set<int>)
    requires |own| > 1 && Spans(before, own[..|own| - 1])
    ensures Spans(Counted(before, own[|own| - 1], cost, known), own)
  {
    var n := |own| - 1;
    var i :| 0 <= i < n && own[..n][i].observedAt == before.first.value;
    var j :| 0 <= j < n && own[..n][j].observedAt == before.last.value;
    assert own[i].observedAt == before.first.value && own[j].observedAt == before.last.value;
    forall k | 0 <= k < n ensures before.first.value <= own[k].observedAt <= before.last.value {
      assert own[..n][k] == own[k];
    }
  }

  lemma {:induction false} TallyTimes(own: seq<Sent>, cost: Measure, known: set<int>)
    requires own != []
    ensures Spans(TallyOf(own, cost, known), own)
  {
    var n := |own| - 1;
    if n > 0 {
      TallyTimes(own[..n], cost, known);
      SpansOn(TallyOf(own[..n], cost, known), own, cost, known);
    }
  }

  // ---------------------------------------------------------------------------------------
  // analyse_packets
  // ---------------------------------------------------------------------------------------

  function RecordOf(records: map<int, Tally>, num: int): Tally {
    if num in records then records[num] else NEW
  }

  /** The node's record is what its packets alone would make it. */
  predicate RecordIs(records: map<int, Tally>, packets: seq<Packet>, cost: Measure, known: set<int>, num: int) {
    (num in records <==> Own(packets, num) != []) && RecordOf(records, num) == TallyOf(Own(packets, num), cost, known)
  }

  /** One record for each sender, the senders listed in order of first appearance. */
  ghost predicate Grouped(
    order: seq<int>, records: map<int, Tally>, packets: seq<Packet>, cost: Measure, known: set<int>)
  {
    && Distinct(order)
    && (forall num :: num in order <==> num in records)
    && (forall num :: RecordIs(records, packets, cost, known, num))
  }

  function PortsOf(packets: seq<Packet>): multiset<string> {
    if packets == [] then multiset{}
    else
      var n := |packets| - 1;
      PortsOf(packets[..n]) + if packets[n].sender.Some? then multiset{packets[n].port} else multiset{}
  }

  function UnsizedIn(packets: seq<Packet>): nat {
    if packets == [] then 0
    else
      var p := packets[|packets| - 1];
      UnsizedIn(packets[..|packets| - 1]) + if p.sender.Some? && p.size.None? then 1 else 0
  }

  /** The record goes on exactly as if only this node's packets existed. */
  lemma TallyStep(packets: seq<Packet>, num: int, cost: Measure, known: set<int>)
    requires packets != []
    ensures var (n, p) := (|packets| - 1, packets[|packets| - 1]);
            var before := TallyOf(Own(packets[..n], num), cost, known);
            if p.sender == Some(num) then TallyOf(Own(packets, num), cost, known) == Counted(before, p, cost, known)
            else Own(packets, num) == Own(packets[..n], num)
  {
    var (n, p) := (|packets| - 1, packets[|packets| - 1]);
    var own := Own(packets[..n], num);
    if p.sender == Some(num) {
      assert Own(packets, num)[..|own|] == own;
    }
  }

  lemma RecordStep(records: map<int, Tally>, packets: seq<Packet>, cost: Measure, known: set<int>, num: int)
    requires packets != [] && packets[|packets| - 1].sender.Some?
    requires RecordIs(records, packets[..|packets| - 1], cost, known, num)
    ensures var p := packets[|packets| - 1];
            var sender := p.sender.value;
            RecordIs(records[sender := Counted(RecordOf(records, sender), p, cost, known)], packets, cost, known, num)
  {
    TallyStep(packets, num, cost, known);
  }

  lemma GroupedStep(order: seq<int>, records: map<int, Tally>, packets: seq<Packet>, cost: Measure, known: set<int>)
    requires packets != [] && Grouped(order, records, packets[..|packets| - 1], cost, known)
    requires packets[|packets| - 1].sender.Some?
    ensures var p := packets[|packets| - 1];
            var sender := p.sender.value;
            Grouped(if sender in records then order else order + [sender],
                    records[sender := Counted(RecordOf(records, sender), p, cost, known)], packets, cost, known)
  {
    var p := packets[|packets| - 1];
    var sender := p.sender.value;
    var after := records[sender := Counted(RecordOf(records, sender), p, cost, known)];
    forall num ensures RecordIs(after, packets, cost, known, num) {
      RecordStep(records, packets, cost, known, num);
    }
  }

  lemma GroupedSkip(order: seq<int>, records: map<int, Tally>, packets: seq<Packet>, cost: Measure, known: set<int>)
    requires packets != [] && Grouped(order, records, packets[..|packets| - 1], cost, known)
    requires packets[|packets| - 1].sender.None?
    ensures Grouped(order, records, packets, cost, known)
  {
    forall num ensures RecordIs(records, packets, cost, known, num) {
      TallyStep(packets, num, cost, known);
      assert RecordIs(records, packets[..|packets| - 1], cost, known, num);
    }
  }

  function Nums(nodes: seq<NodeIntel>): (nums: seq<int>)
    ensures |nums| == |nodes| && forall i | 0 <= i < |nums| :: nums[i] == nodes[i].num
  {
    seq(|nodes|, i requires 0 <= i < |nodes| => nodes[i].num)
  }

  function Share(airtime: real, total: real): real {
    if total > 0.0 then airtime / total else 0.0
  }

  /** Exactly the senders, each with the record of its own packets, busiest first. */
  ghost predicate IsReport(r: Report, packets: seq<Packet>, cost: Measure, known: set<int>)
  {
    && Ranked(r.nodes)
    && (forall i | 0 <= i < |r.nodes| ::
          && Own(packets, r.nodes[i].num) != []
          && r.nodes[i].tally == TallyOf(Own(packets, r.nodes[i].num), cost, known)
          && r.nodes[i].share == Share(r.nodes[i].tally.airtime, r.totalAirtime))
    && Distinct(Nums(r.nodes)) && AllSendersIn(packets, Nums(r.nodes))
    && r.totalAirtime == GroupTotal(cost, Nums(r.nodes), packets)
    && r.analysed as real == GroupTotal(One(), Nums(r.nodes), packets)
    && r.unsized == UnsizedIn(packets) && r.unattributed == Unattributed(packets) && r.ports == PortsOf(packets)
  }

  lemma {:induction false} SendersHaveOwn(packets: seq<Packet>, i: nat)
    requires i < |packets| && packets[i].sender.Some?
    ensures Own(packets, packets[i].sender.value) != []
  {
    var n := |packets| - 1;
    if i < n { SendersHaveOwn(packets[..n], i); }
  }

  /** The loop over the packets: a dictionary of records in order of first appearance. */
  method Accumulate(packets: seq<Packet>, cost: Measure, known: set<int>)
    returns (order: seq<int>, records: map<int, Tally>, unattributed: nat, unsized: nat, ports: multiset<string>)
    ensures Grouped(order, records, packets, cost, known)
    ensures unattributed == Unattributed(packets) && unsized == UnsizedIn(packets) && ports == PortsOf(packets)
  {
    order, records, unattributed, unsized, ports := [], map[], 0, 0, multiset{};
    for i := 0 to |packets|
      invariant Grouped(order, records, packets[..i], cost, known)
      invariant unattributed == Unattributed(packets[..i]) && unsized == UnsizedIn(packets[..i])
      invariant ports == PortsOf(packets[..i])
    {
      var packet := packets[i];
      assert packets[..i + 1][..i] == packets[..i] && packets[..i + 1][i] == packet;
      if packet.sender.None? {
        unattributed := unattributed + 1;
        GroupedSkip(order, records, packets[..i + 1], cost, known);
        continue;
      }
      GroupedStep(order, records, packets[..i + 1], cost, known);
      var num := packet.sender.value;
      if num !in records {
        order := order + [num];
      }
      records := records[num := Counted(RecordOf(records, num), packet, cost, known)];
      ports := ports + multiset{packet.port};
      if packet.size.None? {
        unsized := unsized + 1;
      }
    }
    assert packets[..|packets|] == packets;
  }

  method Totals(
    order: seq<int>, records: map<int, Tally>, ghost packets: seq<Packet>, ghost cost: Measure, ghost known: set<int>)
    returns (total: real, analysed: int)
    requires Grouped(order, records, packets, cost, known)
    ensures total == GroupTotal(cost, order, packets) && analysed as real == GroupTotal(One(), order, packets)
  {
    total, analysed := 0.0, 0;
    for i := 0 to |order|
      invariant total == GroupTotal(cost, order[..i], packets)
      invariant analysed as real == GroupTotal(One(), order[..i], packets)
    {
      assert order[..i + 1][..i] == order[..i];
      assert order[i] in order;
      TallyMeaning(Own(packets, order[i]), cost, known, "");
      assert RecordIs(records, packets, cost, known, order[i]);
      total := total + records[order[i]].airtime;
      analysed := analysed + records[order[i]].packets;
    }
    assert order[..|order|] == order;
  }

  /** The profiles, ranked. */
  method Profiles(order: seq<int>, records: map<int, Tally>, total: real) returns (nodes: seq<NodeIntel>)
    requires Distinct(order) && forall i | 0 <= i < |order| :: order[i] in records
    ensures Ranked(nodes) && |nodes| == |order|
    ensures forall y :: y in nodes <==> IsProfile(y, order, records, total)
  {
    nodes := [];
    for i := 0 to |order|
      invariant Ranked(nodes) && |nodes| == i
      invariant forall y :: y in nodes <==> IsProfile(y, order[..i], records, total)
    {
      var node := NodeIntel(order[i], records[order[i]], Share(records[order[i]].airtime, total));
      assert forall num :: num in order[..i + 1] <==> num in order[..i] || num == order[i];
      assert order[i] !in order[..i];
      InsertedHolds(nodes, node);
      InsertedRanked(nodes, node);
      nodes := Inserted(nodes, node);
    }
    assert order[..|order|] == order;
  }

  predicate IsProfile(y: NodeIntel, order: seq<int>, records: map<int, Tally>, total: real) {
    y.num in order && y.num in records && y.tally == records[y.num] && y.share == Share(y.tally.airtime, total)
  }

  lemma OrderIsKnown(order: seq<int>, records: map<int, Tally>, packets: seq<Packet>, cost: Measure, known: set<int>)
    requires Grouped(order, records, packets, cost, known)
    ensures forall i | 0 <= i < |order| :: order[i] in records
  {
    forall i | 0 <= i < |order| ensures order[i] in records {
      var num := order[i];
      assert num in order;
    }
  }

  method Analyse(packets: seq<Packet>, cost: Measure, known: set<int>) returns (r: Report)
    ensures IsReport(r, packets, cost, known)
  {
    var order, records, unattributed, unsized, ports := Accumulate(packets, cost, known);
    var total, analysed := Totals(order, records, packets, cost, known);
    OrderIsKnown(order, records, packets, cost, known);
    var nodes := Profiles(order, records, total);
    r := Report(nodes, total, analysed, unsized, unattributed, ports);
    ReportHolds(r, order, records, packets, cost, known);
  }

  /** What a packet costs on air; one of unknown size costs nothing. */
  function Cost(m: Modem): Measure {
    (p: Packet) =>
      var ms := if p.size.None? then None else Airtime(p.size.value, m);
      if ms.None? then 0.0 else ms.value / 1000.0
  }

  /** A packet costs its time on air in seconds; one of unknown size costs nothing. */
  lemma CostIsTimeOnAir(m: Modem, p: Packet)
    ensures p.size.None? ==> Cost(m)(p) == 0.0
    ensures p.size.Some? && Airtime(p.size.value, m).Some? ==> Cost(m)(p) * 1000.0 == Airtime(p.size.value, m).value
    ensures p.size == Some(16) && m == LONG_FAST ==> Cost(m)(p) == 0.288768
  {
    LongFastSixteenBytes();
  }

  /** The calculation raises for a packet that is attributed and has a size. */
  predicate Raises(p: Packet, m: Modem) {
    p.sender.Some? && p.size.Some? && Airtime(p.size.value, m).None?
  }

  datatype AnalysisError = DivisionByZero

  /** analyse_packets, for any modem: the report, unless one packet's time on air cannot be calculated. */
  method AnalysePackets(packets: seq<Packet>, m: Modem, known: set<int>) returns (r: Result<Report, AnalysisError>)
    ensures r.Err? <==> exists i :: 0 <= i < |packets| && Raises(packets[i], m)
    ensures r.Ok? ==> IsReport(r.value, packets, Cost(m), known)
  {
    if exists i :: 0 <= i < |packets| && Raises(packets[i], m) {
      return Err(DivisionByZero);
    }
    var report := Analyse(packets, Cost(m), known);
    r := Ok(report);
  }

  lemma ReportHolds(
    r: Report, order: seq<int>, records: map<int, Tally>, packets: seq<Packet>, cost: Measure, known: set<int>)
    requires Grouped(order, records, packets, cost, known)
    requires Ranked(r.nodes) && |r.nodes| == |order|
    requires forall y :: y in r.nodes <==> IsProfile(y, order, records, r.totalAirtime)
    requires r.totalAirtime == GroupTotal(cost, order, packets)
    requires r.analysed as real == GroupTotal(One(), order, packets)
    requires r.unsized == UnsizedIn(packets) && r.unattributed == Unattributed(packets) && r.ports == PortsOf(packets)
    ensures IsReport(r, packets, cost, known)
  {
    var nums := Nums(r.nodes);
    forall i | 0 <= i < |packets| && packets[i].sender.Some?
      ensures packets[i].sender.value in order && packets[i].sender.value in nums
    {
      var num := packets[i].sender.value;
      SendersHaveOwn(packets, i);
      assert RecordIs(records, packets, cost, known, num);
      var y := NodeIntel(num, records[num], Share(records[num].airtime, r.totalAirtime));
      assert y in r.nodes;
      var j :| 0 <= j < |r.nodes| && r.nodes[j] == y;
      assert nums[j] == num;
    }
    forall i | 0 <= i < |r.nodes|
      ensures IsProfile(r.nodes[i], order, records, r.totalAirtime)
      ensures RecordIs(records, packets, cost, known, r.nodes[i].num)
    {
      assert r.nodes[i] in r.nodes;
    }
    forall i, j | 0 <= i < j < |nums| ensures nums[i] != nums[j] {
      assert Before(r.nodes[i], r.nodes[j]);
    }
    Regrouping(cost, order, packets);
    Regrouping(cost, nums, packets);
    Regrouping(One(), order, packets);
    Regrouping(One(), nums, packets);
  }

  // ---------------------------------------------------------------------------------------
  // Conservation
  // ---------------------------------------------------------------------------------------

  lemma {:induction false} AttributedOrNot(packets: seq<Packet>)
    ensures TotalAttributed(One(), packets) + Unattributed(packets) as real == |packets| as real
    ensures TotalAttributed(Unsized(), packets) == UnsizedIn(packets) as real
  {
    if packets != [] { AttributedOrNot(packets[..|packets| - 1]); }
  }

  lemma {:induction false} PortsAreCounted(packets: seq<Packet>, port: string)
    ensures PortsOf(packets)[port] as real == TotalAttributed(Named(port), packets)
  {
    if packets != [] { PortsAreCounted(packets[..|packets| - 1], port); }
  }

  function SumPackets(nodes: seq<NodeIntel>): int {
    if nodes == [] then 0 else SumPackets(nodes[..|nodes| - 1]) + nodes[|nodes| - 1].tally.packets
  }

  function SumPort(nodes: seq<NodeIntel>, port: string): int {
    if nodes == [] then 0 else SumPort(nodes[..|nodes| - 1], port) + nodes[|nodes| - 1].tally.ports[port]
  }

  function SumAirtime(nodes: seq<NodeIntel>): real {
    if nodes == [] then 0.0 else SumAirtime(nodes[..|nodes| - 1]) + nodes[|nodes| - 1].tally.airtime
  }

  function SumShares(nodes: seq<NodeIntel>): real {
    if nodes == [] then 0.0 else SumShares(nodes[..|nodes| - 1]) + nodes[|nodes| - 1].share
  }

  lemma GroupTotalSnoc(f: Measure, nodes: seq<NodeIntel>, packets: seq<Packet>)
    requires nodes != []
    ensures var n := |nodes| - 1;
            GroupTotal(f, Nums(nodes), packets)
            == GroupTotal(f, Nums(nodes[..n]), packets) + Sum(f, Own(packets, nodes[n].num))
  {
    assert Nums(nodes)[..|nodes| - 1] == Nums(nodes[..|nodes| - 1]);
  }

  lemma {:induction false} SumsAreGroupTotals(
    nodes: seq<NodeIntel>, packets: seq<Packet>, cost: Measure, known: set<int>, port: string)
    requires forall i | 0 <= i < |nodes| :: nodes[i].tally == TallyOf(Own(packets, nodes[i].num), cost, known)
    ensures SumPackets(nodes) as real == GroupTotal(One(), Nums(nodes), packets)
    ensures SumAirtime(nodes) == GroupTotal(cost, Nums(nodes), packets)
    ensures SumPort(nodes, port) as real == GroupTotal(Named(port), Nums(nodes), packets)
  {
    if nodes != [] {
      var n := |nodes| - 1;
      SumsAreGroupTotals(nodes[..n], packets, cost, known, port);
      GroupTotalSnoc(One(), nodes, packets);
      GroupTotalSnoc(cost, nodes, packets);
      GroupTotalSnoc(Named(port), nodes, packets);
      TallyMeaning(Own(packets, nodes[n].num), cost, known, port);
    }
  }

  lemma {:induction false} SharesAreParts(nodes: seq<NodeIntel>, total: real)
    requires total > 0.0 && forall i | 0 <= i < |nodes| :: nodes[i].share == Share(nodes[i].tally.airtime, total)
    ensures SumShares(nodes) == SumAirtime(nodes) / total
  {
    if nodes != [] {
      var n := |nodes| - 1;
      SharesAreParts(nodes[..n], total);
      AddFractions(SumAirtime(nodes[..n]), nodes[n].tally.airtime, total);
    }
  }

  lemma AddFractions(a: real, b: real, d: real)
    requires d > 0.0
    ensures a / d + b / d == (a + b) / d
  {}

  /** Every packet is counted once, for its sender or as unattributed, and every total is the sum of its parts. */
  lemma TrafficConserved(r: Report, packets: seq<Packet>, cost: Measure, known: set<int>, port: string)
    requires IsReport(r, packets, cost, known)
    ensures SumPackets(r.nodes) == r.analysed && r.analysed + r.unattributed == |packets|
    ensures SumPort(r.nodes, port) == r.ports[port]
    ensures SumAirtime(r.nodes) == r.totalAirtime == TotalAttributed(cost, packets)
  {
    var nums := Nums(r.nodes);
    SumsAreGroupTotals(r.nodes, packets, cost, known, port);
    Regrouping(One(), nums, packets);
    Regrouping(cost, nums, packets);
    Regrouping(Named(port), nums, packets);
    AttributedOrNot(packets);
    PortsAreCounted(packets, port);
  }

  /** Busiest first, the lower number first among equals. */
  lemma ReportOrder(r: Report, packets: seq<Packet>, cost: Measure, known: set<int>, i: nat, j: nat)
    requires IsReport(r, packets, cost, known) && i < j < |r.nodes|
    ensures r.nodes[i].tally.airtime >= r.nodes[j].tally.airtime
    ensures r.nodes[i].tally.airtime == r.nodes[j].tally.airtime ==> r.nodes[i].num < r.nodes[j].num
  {
    assert Before(r.nodes[i], r.nodes[j]);
  }

  /** A share of the total airtime is the node's; of no airtime nobody has a share. */
  lemma ReportShares(r: Report, packets: seq<Packet>, cost: Measure, known: set<int>, i: nat)
    requires IsReport(r, packets, cost, known) && i < |r.nodes|
    ensures r.totalAirtime <= 0.0 ==> r.nodes[i].share == 0.0
    ensures r.totalAirtime > 0.0 ==> r.nodes[i].share * r.totalAirtime == r.nodes[i].tally.airtime
  {
    var y := r.nodes[i];
    assert y.share == Share(y.tally.airtime, r.totalAirtime);
    ShareIs(y.share, y.tally.airtime, r.totalAirtime);
  }

  lemma ShareIs(share: real, airtime: real, total: real)
    requires share == Share(airtime, total)
    ensures total <= 0.0 ==> share == 0.0
    ensures total > 0.0 ==> share * total == airtime
  {
    if total > 0.0 { PartOfWhole(airtime, total); }
  }

  lemma PartOfWhole(airtime: real, total: real)
    requires total > 0.0
    ensures airtime / total * total == airtime
  {}

  /** Each of a node's packets came one of three ways. */
  lemma WaysConserved(r: Report, packets: seq<Packet>, cost: Measure, known: set<int>, i: nat)
    requires IsReport(r, packets, cost, known) && i < |r.nodes|
    ensures var t := r.nodes[i].tally;
            t.direct + t.relayed + t.mqtt == t.packets == |Own(packets, r.nodes[i].num)| > 0
  {
    TallyMeaning(Own(packets, r.nodes[i].num), cost, known, "");
  }

  lemma SharesSumToOne(r: Report, packets: seq<Packet>, cost: Measure, known: set<int>)
    requires IsReport(r, packets, cost, known) && r.totalAirtime > 0.0
    ensures SumShares(r.nodes) == 1.0
  {
    TrafficConserved(r, packets, cost, known, "");
    SharesAreParts(r.nodes, r.totalAirtime);
    Whole(r.totalAirtime);
  }

  lemma Whole(x: real)
    requires x > 0.0
    ensures x / x == 1.0
  {}

  /** The report lists exactly the senders, each once. */
  lemma ReportListsSenders(r: Report, packets: seq<Packet>, cost: Measure, known: set<int>, num: int)
    requires IsReport(r, packets, cost, known)
    ensures num in Nums(r.nodes) <==> exists i :: 0 <= i < |packets| && packets[i].sender == Some(num)
  {
    if num in Nums(r.nodes) {
      var k :| 0 <= k < |r.nodes| && Nums(r.nodes)[k] == num;
      OwnHasSender(packets, num);
    }
  }

  lemma {:induction false} OwnHasSender(packets: seq<Packet>, num: int)
    requires Own(packets, num) != []
    ensures exists i :: 0 <= i < |packets| && packets[i].sender == Some(num)
  {
    var n := |packets| - 1;
    if packets[n].sender != Some(num) {
      OwnHasSender(packets[..n], num);
      var i :| 0 <= i < n && packets[..n][i].sender == Some(num);
      assert packets[i].sender == Some(num);
    }
  }
}
