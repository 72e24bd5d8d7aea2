/** The picture of a band: each bin's last reading, kept until it is too old. */
module BandMemory {
  import opened Prelude
  import opened BandScan

  datatype Band = Band(
    low: real, high: real, step: real, samples: int, power: seq<Option<real>>, ages: seq<int>, sweeps: nat)

  const EMPTY := Band(0.0, 0.0, 0.0, 0, [], [], 0)

  predicate SameGeometry(b: Band, sweep: Row) {
    |b.power| == |sweep.power| && (b.low, b.high, b.step) == (sweep.low, sweep.high, sweep.step)
  }

  predicate SameShape(a: Row, b: Row) {
    |a.power| == |b.power| && (a.low, a.high, a.step) == (b.low, b.high, b.step)
  }

  predicate Matched(b: Band) {
    |b.ages| == |b.power|
  }

  /** A band nothing was measured in yet. */
  function Blanked(sweep: Row): Band {
    var n := |sweep.power|;
    Band(sweep.low, sweep.high, sweep.step, sweep.samples, seq(n, _ => None), seq(n, _ => -1), 0)
  }

  /** -1 stands for never measured and does not grow. */
  function NextAge(age: int, reading: Option<real>): int {
    if reading.Some? then 0 else if age >= 0 then age + 1 else age
  }

  function NextPower(power: Option<real>, age: int, reading: Option<real>, maxAge: int): Option<real> {
    if NextAge(age, reading) > maxAge then None else if reading.Some? then reading else power
  }

  /** One sweep folded in; a sweep of another geometry starts over. */
  function Updated(b: Band, sweep: Row, maxAge: int): (r: Band)
    requires Matched(b)
    ensures Matched(r) && SameGeometry(r, sweep)
  {
    var base := if SameGeometry(b, sweep) then b else Blanked(sweep);
    var n := |base.power|;
    base.(power := seq(n, k requires 0 <= k < n => NextPower(base.power[k], base.ages[k], sweep.power[k], maxAge)),
          ages := seq(n, k requires 0 <= k < n => NextAge(base.ages[k], sweep.power[k])),
          sweeps := base.sweeps + 1)
  }

  function CountFinite(power: seq<Option<real>>): (n: nat)
    ensures n <= |power|
  {
    if power == [] then 0 else CountFinite(power[..|power| - 1]) + if power[|power| - 1].Some? then 1 else 0
  }

  function Coverage(power: seq<Option<real>>): real {
    if power == [] then 0.0 else CountFinite(power) as real / |power| as real
  }

  /** What update hands out: copies of the two arrays. */
  datatype Picture = Picture(
    low: real, high: real, step: real, samples: int, power: array<Option<real>>, coverage: real, sweeps: nat,
    ages: array<int>)

  ghost predicate Shows(p: Picture, b: Band)
    reads p.power, p.ages
  {
    && Band(p.low, p.high, p.step, p.samples, p.power[..], p.ages[..], p.sweeps) == b
    && p.coverage == Coverage(b.power)
  }

  class BandAccumulator {
    const maxAge: int
    var low: real
    var high: real
    var step: real
    var samples: int
    var power: array<Option<real>>
    var ages: array<int>
    var sweeps: nat
    ghost var powersOut: set<array<Option<real>>>
    ghost var agesOut: set<array<int>>

    /** The arrays in use are in nobody else's hands. */
    ghost predicate Valid()
      reads this
    {
      power.Length == ages.Length && power !in powersOut && ages !in agesOut
    }

    ghost function View(): Band
      reads this, power, ages
    {
      Band(low, high, step, samples, power[..], ages[..], sweeps)
    }

    constructor (maxAge: int)
      ensures this.maxAge == maxAge && Valid() && View() == EMPTY && fresh(power) && fresh(ages)
      ensures powersOut == {} && agesOut == {}
    {
      this.maxAge := maxAge;
      low, high, step, samples, sweeps := 0.0, 0.0, 0.0, 0, 0;
      power := new Option<real>[0];
      ages := new int[0];
      powersOut, agesOut := {}, {};
      new;
      assert power[..] == [] && ages[..] == [];
    }

    method Reset(sweep: Row)
      requires Valid()
      modifies this
      ensures Valid() && View() == Blanked(sweep) && fresh(power) && fresh(ages)
      ensures powersOut == old(powersOut) && agesOut == old(agesOut)
    {
      low, high, step, samples, sweeps := sweep.low, sweep.high, sweep.step, sweep.samples, 0;
      power := new Option<real>[|sweep.power|](_ => None);
      ages := new int[|sweep.power|](_ => -1);
      assert power[..] == Blanked(sweep).power && ages[..] == Blanked(sweep).ages;
    }

    method Fold(sweep: Row)
      requires Valid() && SameGeometry(View(), sweep)
      modifies this`sweeps, power, ages
      ensures View() == Updated(old(View()), sweep, maxAge)
    {
      ghost var b := View();
      ghost var after := Updated(b, sweep, maxAge);
      sweeps := sweeps + 1;
      for k := 0 to power.Length
        invariant sweeps == after.sweeps
        invariant forall j | 0 <= j < k :: ages[j] == after.ages[j] && power[j] == after.power[j]
        invariant forall j | k <= j < power.Length :: ages[j] == b.ages[j] && power[j] == b.power[j]
      {
        if ages[k] >= 0 {
          ages[k] := ages[k] + 1;
        }
        if sweep.power[k].Some? {
          power[k] := sweep.power[k];
          ages[k] := 0;
        }
        if ages[k] > maxAge {
          power[k] := None;
        }
      }
      assert power[..] == after.power;
      assert ages[..] == after.ages;
    }

    method Snapshot() returns (picture: Picture)
      requires Valid()
      modifies this`powersOut, this`agesOut
      ensures Valid()
      ensures fresh(picture.power) && fresh(picture.ages)
      ensures Shows(picture, View())
      ensures powersOut == old(powersOut) + {picture.power} && agesOut == old(agesOut) + {picture.ages}
    {
      var count := Finite();
      var coverage := if power.Length > 0 then count as real / power.Length as real else 0.0;
      var powerCopy := CopyOf(power);
      var agesCopy := CopyOf(ages);
      powersOut, agesOut := powersOut + {powerCopy}, agesOut + {agesCopy};
      picture := Picture(low, high, step, samples, powerCopy, coverage, sweeps, agesCopy);
    }

    method Update(sweep: Row) returns (picture: Picture)
      requires Valid()
      modifies this, power, ages
      ensures Valid() && View() == Updated(old(View()), sweep, maxAge)
      ensures fresh(picture.power) && fresh(picture.ages) && Shows(picture, View())
      ensures powersOut == old(powersOut) + {picture.power} && agesOut == old(agesOut) + {picture.ages}
      ensures power == old(power) || fresh(power)
      ensures ages == old(ages) || fresh(ages)
      ensures forall a <- old(powersOut) :: a[..] == old(a[..])
      ensures forall a <- old(agesOut) :: a[..] == old(a[..])
    {
      if power.Length != |sweep.power| || (sweep.low, sweep.high, sweep.step) != (low, high, step) {
        Reset(sweep);
      }
      Fold(sweep);
      picture := Snapshot();
    }

    method Finite() returns (count: nat)
      ensures count == CountFinite(power[..])
    {
      count := 0;
      for k := 0 to power.Length
        invariant count == CountFinite(power[..k])
      {
        assert power[..k + 1][..k] == power[..k];
        if power[k].Some? {
          count := count + 1;
        }
      }
      assert power[..power.Length] == power[..];
    }
  }

  method CopyOf<T>(a: array<T>) returns (copy: array<T>)
    ensures fresh(copy) && copy[..] == a[..]
  {
    copy := new T[a.Length](i requires 0 <= i < a.Length reads a => a[i]);
  }

  // ---------------------------------------------------------------------------------------
  // What the arrays mean
  // ---------------------------------------------------------------------------------------

  function BandAfter(sweeps: seq<Row>, maxAge: int): (b: Band)
    ensures Matched(b)
  {
    if sweeps == [] then EMPTY else Updated(BandAfter(sweeps[..|sweeps| - 1], maxAge), sweeps[|sweeps| - 1], maxAge)
  }

  ghost predicate AllShaped(run: seq<Row>, shape: Row) {
    forall i | 0 <= i < |run| :: SameShape(run[i], shape)
  }

  /** The sweeps since the geometry last changed. */
  function Since(sweeps: seq<Row>): (r: seq<Row>)
    ensures sweeps != [] ==> r != [] && r[|r| - 1] == sweeps[|sweeps| - 1]
    ensures sweeps != [] ==> AllShaped(r, sweeps[|sweeps| - 1])
  {
    if sweeps == [] then []
    else
      var n := |sweeps| - 1;
      if n > 0 && SameShape(sweeps[n - 1], sweeps[n]) then Since(sweeps[..n]) + [sweeps[n]] else [sweeps[n]]
  }

  lemma SuffixGrows(s: seq<Row>, start: nat)
    requires start < |s|
    ensures s[..|s| - 1][start..] + [s[|s| - 1]] == s[start..]
  {}

  /** That is the longest suffix of one geometry. */
  lemma {:induction false} SinceIsMaximal(sweeps: seq<Row>) returns (start: nat)
    ensures start <= |sweeps| && Since(sweeps) == sweeps[start..]
    ensures 0 < start < |sweeps| ==> !SameShape(sweeps[start - 1], sweeps[start])
  {
    if sweeps == [] {
      start := 0;
    } else {
      var n := |sweeps| - 1;
      if n > 0 && SameShape(sweeps[n - 1], sweeps[n]) {
        start := SinceIsMaximal(sweeps[..n]);
        assert start < n;
        SuffixGrows(sweeps, start);
      } else {
        start := n;
        assert sweeps[n..] == [sweeps[n]];
      }
    }
  }

  function Reading(sweep: Row, k: nat): Option<real> {
    if k < |sweep.power| then sweep.power[k] else None
  }

  /** How many sweeps ago bin k was last measured; -1 if never. */
  function Age(run: seq<Row>, k: nat): (age: int)
  {
    if run == [] then -1
    else if Reading(run[|run| - 1], k).Some? then 0
    else
      var before := Age(run[..|run| - 1], k);
      if before < 0 then -1 else before + 1
  }

  /** The sweep that many back measured the bin and no later one did; -1 exactly when none did. */
  lemma {:induction false} AgeMeaning(run: seq<Row>, k: nat)
    ensures -1 <= Age(run, k) < |run|
    ensures Age(run, k) == -1 <==> forall i | 0 <= i < |run| :: Reading(run[i], k).None?
    ensures var at := |run| - 1 - Age(run, k);
            Age(run, k) >= 0 ==> Reading(run[at], k).Some? && forall i | at < i < |run| :: Reading(run[i], k).None?
  {
    if run != [] {
      var n := |run| - 1;
      AgeMeaning(run[..n], k);
      if Reading(run[n], k).None? {
        assert forall i | 0 <= i < n :: run[..n][i] == run[i];
        if Age(run, k) == -1 {
          forall i | 0 <= i < |run| ensures Reading(run[i], k).None? {
            if i < n { assert Reading(run[..n][i], k).None?; }
          }
        } else {
          var at := |run| - 1 - Age(run, k);
          assert Reading(run[..n][at], k).Some?;
          forall i | at < i < |run| ensures Reading(run[i], k).None? {
            if i < n { assert Reading(run[..n][i], k).None?; }
          }
        }
      }
    }
  }

  /** The last reading, unless it is older than maxAge or there is none. */
  function Remembered(run: seq<Row>, k: nat, maxAge: int): Option<real>
  {
    var age := Age(run, k);
    AgeMeaning(run, k);
    if age < 0 || age > maxAge then None else Reading(run[|run| - 1 - age], k)
  }

  ghost predicate Pictures(b: Band, run: seq<Row>, maxAge: int)
    requires run != [] && AllShaped(run, run[|run| - 1])
  {
    var last := run[|run| - 1];
    && SameGeometry(b, last) && |b.ages| == |last.power|
    && b.sweeps == |run| && b.samples == run[0].samples
    && forall k | 0 <= k < |last.power| :: b.ages[k] == Age(run, k) && b.power[k] == Remembered(run, k, maxAge)
  }

  lemma NextBin(run: seq<Row>, sweep: Row, k: nat, maxAge: int)
    requires AllShaped(run, sweep)
    requires k < |sweep.power|
    ensures Age(run + [sweep], k) == NextAge(Age(run, k), sweep.power[k])
    ensures Remembered(run + [sweep], k, maxAge)
         == NextPower(Remembered(run, k, maxAge), Age(run, k), sweep.power[k], maxAge)
  {
    assert (run + [sweep])[..|run|] == run;
    AgeMeaning(run, k);
    AgeMeaning(run + [sweep], k);
  }

  lemma UpdatedPictures(b: Band, run: seq<Row>, sweep: Row, maxAge: int)
    requires AllShaped(run, sweep)
    requires Matched(b) && if run == [] then !SameGeometry(b, sweep) else Pictures(b, run, maxAge)
    ensures Pictures(Updated(b, sweep, maxAge), run + [sweep], maxAge)
  {
    var after := Updated(b, sweep, maxAge);
    forall k | 0 <= k < |sweep.power|
      ensures after.ages[k] == Age(run + [sweep], k) && after.power[k] == Remembered(run + [sweep], k, maxAge)
    {
      NextBin(run, sweep, k, maxAge);
    }
  }

  /** After any sweeps: every bin's age and reading are those of the sweeps since the geometry last changed. */
  lemma {:induction false} RemembersRun(sweeps: seq<Row>, maxAge: int)
    requires sweeps != []
    ensures Pictures(BandAfter(sweeps, maxAge), Since(sweeps), maxAge)
  {
    var n := |sweeps| - 1;
    var b := BandAfter(sweeps[..n], maxAge);
    if n > 0 {
      RemembersRun(sweeps[..n], maxAge);
      assert Since(sweeps[..n])[|Since(sweeps[..n])| - 1] == sweeps[n - 1];
    }
    if n > 0 && SameShape(sweeps[n - 1], sweeps[n]) {
      UpdatedPictures(b, Since(sweeps[..n]), sweeps[n], maxAge);
    } else {
      UpdatedPictures(b, [], sweeps[n], maxAge);
      assert [] + [sweeps[n]] == [sweeps[n]];
    }
  }

  /** Coverage is the share of bins with a reading. */
  lemma {:induction false} CountIsCardinality(power: seq<Option<real>>)
    ensures CountFinite(power) == |set k | 0 <= k < |power| && power[k].Some?|
    ensures CountFinite(power) == |power| <==> forall k | 0 <= k < |power| :: power[k].Some?
  {
    if power != [] {
      var n := |power| - 1;
      CountIsCardinality(power[..n]);
      var before := set k | 0 <= k < n && power[..n][k].Some?;
      var now := set k | 0 <= k < |power| && power[k].Some?;
      assert now == before + if power[n].Some? then {n} else {};
    }
  }

  lemma CoverageMeaning(power: seq<Option<real>>)
    ensures Coverage(power) * |power| as real == |set k | 0 <= k < |power| && power[k].Some?| as real
    ensures 0.0 <= Coverage(power) <= 1.0 && (power == [] ==> Coverage(power) == 0.0)
    ensures power != [] ==> (Coverage(power) == 1.0 <==> forall k | 0 <= k < |power| :: power[k].Some?)
  {
    CountIsCardinality(power);
    if power != [] { Ratio(CountFinite(power), |power|); }
  }

  lemma Ratio(n: nat, d: nat)
    requires 0 < d && n <= d
    ensures (n as real / d as real) * d as real == n as real
    ensures 0.0 <= n as real / d as real <= 1.0
    ensures n as real / d as real == 1.0 <==> n == d
  {}
}
