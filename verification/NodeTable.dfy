/** The `nodes` table: one row per node, and the merge an upsert performs on it. */
module NodeTable {
  import opened Prelude

  datatype Counters = Counters(packets: nat, texts: nat, rf: nat, mqtt: nat, positions: nat, telemetry: nat) {
    /** Column-wise MAX, which is what the upsert takes. */
    function Max(other: Counters): Counters {
      Counters(MaxNat(packets, other.packets), MaxNat(texts, other.texts), MaxNat(rf, other.rf),
               MaxNat(mqtt, other.mqtt), MaxNat(positions, other.positions), MaxNat(telemetry, other.telemetry))
    }

    predicate AtMost(other: Counters) {
      packets <= other.packets && texts <= other.texts && rf <= other.rf
      && mqtt <= other.mqtt && positions <= other.positions && telemetry <= other.telemetry
    }

    /** Each packet is counted at most once by transport and at most once by kind. */
    predicate Sound() {
      rf + mqtt <= packets && texts + positions + telemetry <= packets
    }
  }

  function MaxNat(a: nat, b: nat): nat { if a < b then b else a }

  const NO_PACKETS := Counters(0, 0, 0, 0, 0, 0)

  /** The `last_*` group: what the node's most recent packet looked like. */
  datatype Observation = Observation(
    snr: Option<real>, rssi: Option<int>, hopsUsed: Option<int>, hopStart: Option<int>, viaMqtt: Option<bool>)

  datatype Names = Names(
    longName: Option<string>, shortName: Option<string>, role: Option<string>, hwModel: Option<string>)

  /** A snapshot on its way to the table, and a row of it: the same columns. Times are ordered integers. */
  datatype NodeRecord = NodeRecord(
    num: int, nodeId: Option<string>, names: Names, firstSeen: Option<int>, lastHeard: Option<int>,
    counters: Counters, last: Observation)

  function Coalesce<T>(a: Option<T>, b: Option<T>): Option<T> {
    if a.Some? then a else b
  }

  /** SQLite's two-argument MAX: NULL as soon as either side is. */
  function SqlMax(a: Option<int>, b: Option<int>): Option<int> {
    if a.None? || b.None? then None else if a.value < b.value then b else a
  }

  /** ON CONFLICT(node_num) DO UPDATE: `row` is stored, `excluded` arrives. */
  function Upsert(row: NodeRecord, excluded: NodeRecord): NodeRecord {
    var fresher := excluded.lastHeard.Some?
      && (row.lastHeard.None? || excluded.lastHeard.value >= row.lastHeard.value);
    NodeRecord(
      row.num,
      excluded.nodeId,
      Names(Coalesce(excluded.names.longName, row.names.longName),
            Coalesce(excluded.names.shortName, row.names.shortName),
            Coalesce(excluded.names.role, row.names.role),
            Coalesce(excluded.names.hwModel, row.names.hwModel)),
      row.firstSeen,
      Coalesce(SqlMax(excluded.lastHeard, row.lastHeard), Coalesce(excluded.lastHeard, row.lastHeard)),
      excluded.counters.Max(row.counters),
      if fresher then excluded.last else row.last)
  }

  /** The INSERT ... ON CONFLICT statement on the whole table. */
  function Write(table: map<int, NodeRecord>, node: NodeRecord): map<int, NodeRecord> {
    table[node.num := if node.num in table then Upsert(table[node.num], node) else node]
  }

  // ---------------------------------------------------------------------------------------
  // Which arrival orders give the same row
  // ---------------------------------------------------------------------------------------

  /** The row left by one node's snapshots, in arrival order. */
  function Row(s: seq<NodeRecord>): NodeRecord
    requires s != []
  {
    if |s| == 1 then s[0] else Upsert(Row(s[..|s| - 1]), s[|s| - 1])
  }

  /** The part of a row the arrival order must not decide. */
  datatype Core = Core(lastHeard: Option<int>, counters: Counters, last: Observation)

  function CoreOf(n: NodeRecord): Core { Core(n.lastHeard, n.counters, n.last) }

  predicate NotBefore(a: Option<int>, b: Option<int>) {
    b.None? || (a.Some? && a.value >= b.value)
  }

  /** No snapshot of s was heard after x; when none was ever heard, that is any of them. */
  ghost predicate Newest(x: NodeRecord, s: seq<NodeRecord>) {
    x in s && forall y <- s :: NotBefore(x.lastHeard, y.lastHeard)
  }

  /** The newest snapshots all carry the same `last_*` group. */
  ghost predicate Agreed(s: seq<NodeRecord>) {
    forall x, y | Newest(x, s) && Newest(y, s) :: x.last == y.last
  }

  /** The `last_*` group and `last_heard` come together, from one newest snapshot. */
  lemma {:induction false} RowFromNewest(s: seq<NodeRecord>) returns (x: NodeRecord)
    requires s != []
    ensures Newest(x, s) && Row(s).lastHeard == x.lastHeard && Row(s).last == x.last
  {
    if |s| == 1 {
      x := s[0];
    } else {
      var front, e := s[..|s| - 1], s[|s| - 1];
      var y := RowFromNewest(front);
      x := if NotBefore(e.lastHeard, y.lastHeard) && e.lastHeard.Some? then e else y;
      assert y in s && e in s;
      forall z <- s ensures NotBefore(x.lastHeard, z.lastHeard) {
        assert z in front || z == e;
      }
    }
  }

  /** The last of these that is known. */
  ghost predicate Latest(name: Option<string>, s: seq<NodeRecord>, pick: Names -> Option<string>) {
    && (name.None? ==> forall i | 0 <= i < |s| :: pick(s[i].names).None?)
    && (name.Some? ==> exists i | 0 <= i < |s| ::
          pick(s[i].names) == name && forall j | i < j < |s| :: pick(s[j].names).None?)
  }

  function LongName(n: Names): Option<string> { n.longName }
  function ShortName(n: Names): Option<string> { n.shortName }
  function Role(n: Names): Option<string> { n.role }
  function HwModel(n: Names): Option<string> { n.hwModel }

  lemma LatestOn(before: Option<string>, s: seq<NodeRecord>, pick: Names -> Option<string>)
    requires s != [] && Latest(before, s[..|s| - 1], pick)
    ensures Latest(Coalesce(pick(s[|s| - 1].names), before), s, pick)
  {
    var (n, front) := (|s| - 1, s[..|s| - 1]);
    assert forall i | 0 <= i < n :: front[i] == s[i];
    if pick(s[n].names).None? && before.Some? { LatestKept(before, s, pick); }
  }

  lemma LatestKept(name: Option<string>, s: seq<NodeRecord>, pick: Names -> Option<string>)
    requires s != [] && name.Some? && Latest(name, s[..|s| - 1], pick) && pick(s[|s| - 1].names).None?
    ensures Latest(name, s, pick)
  {
    var (n, front) := (|s| - 1, s[..|s| - 1]);
    var i :| 0 <= i < n && pick(front[i].names) == name && forall j | i < j < n :: pick(front[j].names).None?;
    assert pick(s[i].names) == name;
    forall j | i < j < |s| ensures pick(s[j].names).None? {
      if j < n { assert front[j] == s[j]; }
    }
  }

  /**
   Each of a row's names is the last one a snapshot carried, its id the last snapshot's even when that has none, and
   it was first seen when its first snapshot says.
   */
  lemma {:induction false} RowDescribes(s: seq<NodeRecord>)
    requires s != []
    ensures Row(s).num == s[0].num && Row(s).firstSeen == s[0].firstSeen && Row(s).nodeId == s[|s| - 1].nodeId
    ensures Latest(Row(s).names.longName, s, LongName) && Latest(Row(s).names.shortName, s, ShortName)
    ensures Latest(Row(s).names.role, s, Role) && Latest(Row(s).names.hwModel, s, HwModel)
  {
    if |s| > 1 {
      var before := Row(s[..|s| - 1]).names;
      RowDescribes(s[..|s| - 1]);
      LatestOn(before.longName, s, LongName);
      LatestOn(before.shortName, s, ShortName);
      LatestOn(before.role, s, Role);
      LatestOn(before.hwModel, s, HwModel);
    }
  }

  /** c is the column-wise maximum of s: no column is exceeded, each is reached. */
  ghost predicate Maximum(c: Counters, s: seq<NodeRecord>) {
    && (forall y <- s :: y.counters.AtMost(c))
    && (exists y <- s :: y.counters.packets == c.packets)
    && (exists y <- s :: y.counters.texts == c.texts)
    && (exists y <- s :: y.counters.rf == c.rf)
    && (exists y <- s :: y.counters.mqtt == c.mqtt)
    && (exists y <- s :: y.counters.positions == c.positions)
    && (exists y <- s :: y.counters.telemetry == c.telemetry)
  }

  lemma {:induction false} RowCountersMaximum(s: seq<NodeRecord>)
    requires s != []
    ensures Maximum(Row(s).counters, s)
  {
    if |s| == 1 {
      assert s[0] in s;
    } else {
      var front, e := s[..|s| - 1], s[|s| - 1];
      RowCountersMaximum(front);
      assert e in s && forall y <- front :: y in s;
      forall y <- s ensures y.counters.AtMost(Row(s).counters) {
        assert y in front || y == e;
      }
    }
  }

  lemma SameElements(s: seq<NodeRecord>, t: seq<NodeRecord>)
    requires multiset(s) == multiset(t)
    ensures forall x :: x in s <==> x in t
  {
    forall x ensures x in s <==> x in t {
      assert x in s <==> x in multiset(s);
      assert x in t <==> x in multiset(t);
    }
  }

  /** Any two arrival orders of agreed snapshots leave the same last_heard, counters and group. */
  lemma OrderDoesNotMatter(s: seq<NodeRecord>, t: seq<NodeRecord>)
    requires s != [] && multiset(s) == multiset(t) && Agreed(s)
    ensures t != [] && CoreOf(Row(s)) == CoreOf(Row(t))
  {
    SameElements(s, t);
    assert s[0] in t;
    var x := RowFromNewest(s);
    var y := RowFromNewest(t);
    assert Newest(y, s);
    assert NotBefore(x.lastHeard, y.lastHeard) && NotBefore(y.lastHeard, x.lastHeard);
    RowCountersMaximum(s);
    RowCountersMaximum(t);
    assert Row(s).counters.AtMost(Row(t).counters) && Row(t).counters.AtMost(Row(s).counters);
  }

  lemma {:induction false} LastNewestWins(front: seq<NodeRecord>, z: NodeRecord)
    requires z.lastHeard.Some? && Newest(z, front + [z])
    ensures Row(front + [z]).last == z.last
  {
    var s := front + [z];
    if front != [] {
      assert s[..|s| - 1] == front;
      var y := RowFromNewest(front);
      assert y in s;
    }
  }

  lemma {:induction false} FirstStaysWhenNoneHeard(s: seq<NodeRecord>)
    requires s != [] && forall y <- s :: y.lastHeard.None?
    ensures Row(s).last == s[0].last && Row(s).lastHeard.None?
  {
    if |s| > 1 {
      assert s[|s| - 1] in s;
      FirstStaysWhenNoneHeard(s[..|s| - 1]);
    }
  }

  lemma TakenOut(s: seq<NodeRecord>, k: nat) returns (rest: seq<NodeRecord>)
    requires k < |s|
    ensures multiset(s) == multiset(rest + [s[k]]) == multiset([s[k]] + rest)
  {
    rest := s[..k] + s[k + 1..];
    assert s == s[..k] + [s[k]] + s[k + 1..];
  }

  lemma SameNewest(x: NodeRecord, s: seq<NodeRecord>, t: seq<NodeRecord>)
    requires multiset(s) == multiset(t) && Newest(x, s)
    ensures Newest(x, t)
  {
    SameElements(s, t);
  }

  /** The arrival order that makes a given newest snapshot's group the row's. */
  lemma OrderFor(s: seq<NodeRecord>, z: NodeRecord) returns (t: seq<NodeRecord>)
    requires Newest(z, s)
    ensures multiset(t) == multiset(s) && t != [] && Row(t).last == z.last
  {
    var k :| 0 <= k < |s| && s[k] == z;
    var rest := TakenOut(s, k);
    if z.lastHeard.Some? {
      t := rest + [z];
      SameNewest(z, s, t);
      LastNewestWins(rest, z);
    } else {
      t := [z] + rest;
      SameNewest(z, s, t);
      assert t[0] == z;
      FirstStaysWhenNoneHeard(t);
    }
  }

  /** Agreement is also necessary: without it some arrival order leaves another row. */
  lemma OrderMatters(s: seq<NodeRecord>) returns (t: seq<NodeRecord>)
    requires s != [] && !Agreed(s)
    ensures multiset(t) == multiset(s) && t != [] && CoreOf(Row(t)) != CoreOf(Row(s))
  {
    var x, y :| Newest(x, s) && Newest(y, s) && x.last != y.last;
    t := OrderFor(s, if x.last == Row(s).last then y else x);
  }

  ghost predicate DistinctTimes(s: seq<NodeRecord>) {
    forall i, j | 0 <= i < j < |s| && s[i].lastHeard.Some? :: s[i].lastHeard != s[j].lastHeard
  }

  /** Distinct times, one of them known, are enough; the group is then the single newest snapshot's. */
  lemma DistinctTimesAgree(s: seq<NodeRecord>)
    requires DistinctTimes(s) && exists x <- s :: x.lastHeard.Some?
    ensures Agreed(s)
  {
    forall x, y | Newest(x, s) && Newest(y, s) ensures x.last == y.last {
      var i :| 0 <= i < |s| && s[i] == x;
      var j :| 0 <= j < |s| && s[j] == y;
      assert x.lastHeard == y.lastHeard && x.lastHeard.Some?;
      assert i == j;
    }
  }
}
