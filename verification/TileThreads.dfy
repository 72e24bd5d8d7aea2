/**
 Renders on the threads of an HTTP server. A visit to the cache is atomic; between two of them other threads may
 do anything. The style stays as it is.
 */
module TileThreads {
  import opened Prelude
  import Png
  import opened LruCache
  import opened TileServer
  import opened TileAnswers
  import opened SharedStems

  // ---------------------------------------------------------------------------------------
  // Threads
  // ---------------------------------------------------------------------------------------

  /** About to look candidate i up; candidate i not found and being drawn; or answered. */
  datatype Phase = Looking(i: nat) | Drawing(i: nat) | Done(result: Result<seq<Byte>, RenderError>)

  datatype Job = Job(tile: Requested, phase: Phase)

  datatype Threads = Threads(cache: Cache, jobs: seq<Job>)

  const IDLE := Threads([], [])

  datatype Step = Arrive(tile: Requested) | Advance(j: nat)

  function ViewOf(s: Setup, tile: Tile): View { View(tile, s.size, s.style) }

  function Candidates(s: Setup, tile: Tile): seq<Pack> { PacksFor(s.edges, s.packs, tile) }

  /** The cache is asked for candidate i. */
  function Look(s: Setup, cache: Cache, tile: Tile, i: nat): (Phase, Cache) {
    var c := Candidates(s, tile);
    if c == [] then (Done(Err(NoPackCovers)), cache)
    else if i >= |c| then (Done(Err(NoPackRendered)), cache)
    else
      var key := Key(c[i].stem, ViewOf(s, tile));
      var cached := Lookup(cache, key);
      if cached.None? then (Drawing(i), cache)
      else if cached.value.NoData? then (Looking(i + 1), Touched(cache, key))
      else (Done(Ok(cached.value.png)), Touched(cache, key))
  }

  /** Its render is back and goes into the cache. */
  function Draw(s: Setup, cache: Cache, tile: Tile, i: nat): (Phase, Cache) {
    var (c, view) := (Candidates(s, tile), ViewOf(s, tile));
    if i >= |c| then (Done(Err(NoPackRendered)), cache)
    else
      var key := Key(c[i].stem, view);
      if Passes(s.tools, c, view, i) then (Looking(i + 1), Stored(cache, s.capacity, key, NoData))
      else
        var shown := Shown(s.tools, c[i], view);
        (Done(shown), if shown.Ok? then Stored(cache, s.capacity, key, Image(shown.value)) else cache)
  }

  function Progress(s: Setup, cache: Cache, job: Job): (Phase, Cache) {
    match job.phase
    case Looking(i) => Look(s, cache, job.tile, i)
    case Drawing(i) => Draw(s, cache, job.tile, i)
    case Done(_) => (job.phase, cache)
  }

  function Next(s: Setup, t: Threads, step: Step): Threads {
    match step
    case Arrive(tile) => t.(jobs := t.jobs + [Job(tile, Looking(0))])
    case Advance(j) =>
      if j >= |t.jobs| then t
      else
        var (phase, cache) := Progress(s, t.cache, t.jobs[j]);
        Threads(cache, t.jobs[j := t.jobs[j].(phase := phase)])
  }

  function After(s: Setup, t: Threads, steps: seq<Step>): Threads
    decreases |steps|
  {
    if steps == [] then t else After(s, Next(s, t, steps[0]), steps[1..])
  }

  lemma {:induction false} AfterConcat(s: Setup, t: Threads, a: seq<Step>, b: seq<Step>)
    ensures After(s, t, a + b) == After(s, After(s, t, a), b)
    decreases |a|
  {
    if a == [] {
      assert a + b == b;
    } else {
      DropOfConcat(a, b, 1);
      AfterConcat(s, Next(s, t, a[0]), a[1..], b);
    }
  }

  lemma OneStep(s: Setup, t: Threads, step: Step)
    ensures After(s, t, [step]) == Next(s, t, step)
  {
    assert [step][1..] == [];
  }

  /** A look, and the drawing that follows it when nothing is found. */
  lemma OneCandidate(s: Setup, t: Threads, j: nat, i: nat) returns (steps: seq<Step>, t': Threads)
    requires j < |t.jobs| && t.jobs[j].phase == Looking(i) && i < |Candidates(s, t.jobs[j].tile)|
    ensures t' == After(s, t, steps) && |t'.jobs| == |t.jobs| && t'.jobs == t.jobs[j := t'.jobs[j]]
    ensures var (tile, c) := (t.jobs[j].tile, Candidates(s, t.jobs[j].tile));
            var served := Serve(s.tools, c, ViewOf(s, tile), i, t.cache, s.capacity);
            && t'.jobs[j].tile == tile
            && (if t'.jobs[j].phase == Looking(i + 1)
                then served == Serve(s.tools, c, ViewOf(s, tile), i + 1, t'.cache, s.capacity)
                else t'.jobs[j].phase == Done(served.result) && t'.cache == served.cache)
  {
    steps, t' := [Advance(j)], Next(s, t, Advance(j));
    OneStep(s, t, Advance(j));
    if t'.jobs[j].phase.Drawing? {
      OneStep(s, t', Advance(j));
      AfterConcat(s, t, steps, [Advance(j)]);
      steps, t' := steps + [Advance(j)], Next(s, t', Advance(j));
    }
  }

  /** A render that no other one interrupts does what the method Render does. */
  lemma {:induction false} AloneIsServe(s: Setup, t: Threads, j: nat, i: nat) returns (steps: seq<Step>)
    requires j < |t.jobs| && t.jobs[j].phase == Looking(i)
    requires i <= |Candidates(s, t.jobs[j].tile)| && Candidates(s, t.jobs[j].tile) != []
    ensures var tile := t.jobs[j].tile;
            var served := Serve(s.tools, Candidates(s, tile), ViewOf(s, tile), i, t.cache, s.capacity);
            After(s, t, steps) == Threads(served.cache, t.jobs[j := Job(tile, Done(served.result))])
    decreases |Candidates(s, t.jobs[j].tile)| - i
  {
    if i == |Candidates(s, t.jobs[j].tile)| {
      steps := [Advance(j)];
      OneStep(s, t, Advance(j));
    } else {
      var t';
      steps, t' := OneCandidate(s, t, j, i);
      if t'.jobs[j].phase == Looking(i + 1) {
        var more := AloneIsServe(s, t', j, i + 1);
        AfterConcat(s, t, steps, more);
        steps := steps + more;
      }
    }
  }

  // ---------------------------------------------------------------------------------------
  // Keys that tell candidates apart are enough
  // ---------------------------------------------------------------------------------------

  /** The entry says what some candidate of its name does for its tile. */
  ghost predicate Sound(tools: Tools, c: seq<Pack>, e: Entry<Key, Cached>) {
    exists i | 0 <= i < |c| :: c[i].stem == e.key.stem && Tells(tools, c, i, e.key.view, e.value)
  }

  predicate Tells(tools: Tools, c: seq<Pack>, i: nat, view: View, cached: Cached)
    requires i < |c|
  {
    if Passes(tools, c, view, i) then cached.NoData?
    else cached.Image? && Shown(tools, c[i], view) == Ok(cached.png)
  }

  ghost predicate Truthful(s: Setup, cache: Cache) {
    forall e <- cache :: Sound(s.tools, Candidates(s, e.key.view.tile), e)
  }

  /** From where a job stands the rule gives what it gives from the start. */
  predicate OnCourse(s: Setup, job: Job) {
    var (c, view) := (Candidates(s, job.tile), ViewOf(s, job.tile));
    match job.phase
    case Looking(i) => c == [] || (i < |c| && Rule(s.tools, c, view, i) == Rule(s.tools, c, view, 0))
    case Drawing(i) => i < |c| && Rule(s.tools, c, view, i) == Rule(s.tools, c, view, 0)
    case Done(result) => result == FreshRender(s.tools, s.edges, s.packs, view)
  }

  ghost predicate Inv(s: Setup, t: Threads) {
    Truthful(s, t.cache) && forall j | 0 <= j < |t.jobs| :: OnCourse(s, t.jobs[j])
  }

  lemma SameTelling(tools: Tools, c: seq<Pack>, i: nat, j: nat, view: View, cached: Cached)
    requires KeysTellApart(c) && i < |c| && j < |c| && c[i].stem == c[j].stem && Tells(tools, c, j, view, cached)
    ensures Tells(tools, c, i, view, cached)
  {
    if i < j {
      assert c[i].archive == c[j].archive;
    } else if j < i {
      assert c[j].archive == c[i].archive;
    }
  }

  /** What is found under a candidate's key is true of this candidate. */
  lemma FoundTells(s: Setup, cache: Cache, tile: Requested, i: nat)
    requires Truthful(s, cache) && AllKeysTellApart(s.edges, s.packs) && i < |Candidates(s, tile)|
    requires Lookup(cache, Key(Candidates(s, tile)[i].stem, ViewOf(s, tile))).Some?
    ensures var (c, view) := (Candidates(s, tile), ViewOf(s, tile));
            Tells(s.tools, c, i, view, Lookup(cache, Key(c[i].stem, view)).value)
  {
    var (c, view) := (Candidates(s, tile), ViewOf(s, tile));
    var key := Key(c[i].stem, view);
    LookupFinds(cache, key);
    var e := Entry(key, Lookup(cache, key).value);
    assert Sound(s.tools, c, e);
    assert KeysTellApart(c);
    var j :| 0 <= j < |c| && c[j].stem == key.stem && Tells(s.tools, c, j, view, e.value);
    SameTelling(s.tools, c, i, j, view, e.value);
  }

  lemma LookKeepsInv(s: Setup, cache: Cache, tile: Requested, i: nat)
    requires Truthful(s, cache) && AllKeysTellApart(s.edges, s.packs) && OnCourse(s, Job(tile, Looking(i)))
    ensures var (phase, cache') := Look(s, cache, tile, i); Truthful(s, cache') && OnCourse(s, Job(tile, phase))
  {
    var (c, view) := (Candidates(s, tile), ViewOf(s, tile));
    if c != [] {
      var key := Key(c[i].stem, view);
      if Lookup(cache, key).Some? {
        FoundTells(s, cache, tile, i);
        LookupFinds(cache, key);
        WithoutMembers(cache, key);
      }
    }
  }

  lemma DrawKeepsInv(s: Setup, cache: Cache, tile: Requested, i: nat)
    requires Truthful(s, cache) && OnCourse(s, Job(tile, Drawing(i)))
    ensures var (phase, cache') := Draw(s, cache, tile, i); Truthful(s, cache') && OnCourse(s, Job(tile, phase))
  {
    var (c, view) := (Candidates(s, tile), ViewOf(s, tile));
    var key := Key(c[i].stem, view);
    WithoutMembers(cache, key);
    if Passes(s.tools, c, view, i) {
      assert Tells(s.tools, c, i, view, NoData);
    } else if Shown(s.tools, c[i], view).Ok? {
      assert Tells(s.tools, c, i, view, Image(Shown(s.tools, c[i], view).value));
    }
  }

  lemma NextKeepsInv(s: Setup, t: Threads, step: Step)
    requires Inv(s, t) && AllKeysTellApart(s.edges, s.packs)
    ensures Inv(s, Next(s, t, step))
  {
    if step.Advance? && step.j < |t.jobs| {
      var job := t.jobs[step.j];
      match job.phase
      case Looking(i) => LookKeepsInv(s, t.cache, job.tile, i);
      case Drawing(i) => DrawKeepsInv(s, t.cache, job.tile, i);
      case Done(_) =>
    }
  }

  lemma {:induction false} StepsKeepInv(s: Setup, t: Threads, steps: seq<Step>)
    requires Inv(s, t) && AllKeysTellApart(s.edges, s.packs)
    ensures Inv(s, After(s, t, steps))
    decreases |steps|
  {
    if steps != [] {
      NextKeepsInv(s, t, steps[0]);
      StepsKeepInv(s, Next(s, t, steps[0]), steps[1..]);
    }
  }

  /** Every answered request got what the rule without a cache gives. */
  ghost predicate AnswersFresh(s: Setup, t: Threads) {
    forall j | 0 <= j < |t.jobs| && t.jobs[j].phase.Done? ::
      t.jobs[j].phase.result == FreshRender(s.tools, s.edges, s.packs, ViewOf(s, t.jobs[j].tile))
  }

  /** However renders interleave, and however small the cache: when keys tell candidates apart, answers are right. */
  lemma InterleavedRendersAreFresh(s: Setup, steps: seq<Step>)
    requires AllKeysTellApart(s.edges, s.packs)
    ensures AnswersFresh(s, After(s, IDLE, steps))
  {
    StepsKeepInv(s, IDLE, steps);
  }

  // ---------------------------------------------------------------------------------------
  // And necessary
  // ---------------------------------------------------------------------------------------

  /** A renderer that draws one archive at most. */
  function Painter(inked: Option<string>): Renderer {
    (archive, view) => Ok(if inked == Some(archive) then INK else BLANK)
  }

  /** Candidate a is blank like all before it, and every candidate that draws comes later, under its name. */
  ghost predicate Hides(s: Setup, tile: Requested, a: nat, inked: Option<string>) {
    var c := Candidates(s, tile);
    && a < |c| - 1 && s.tools.render == Painter(inked) && s.tools.isEmpty(BLANK)
    && (forall i | 0 <= i <= a :: inked != Some(c[i].archive))
    && (forall i | 0 <= i < |c| && inked == Some(c[i].archive) :: c[i].stem == c[a].stem)
  }

  ghost predicate AllMarks(cache: Cache) {
    forall e <- cache :: e.value == NoData
  }

  /** The cache says there is nothing under this name. */
  predicate Marked(s: Setup, cache: Cache, tile: Tile, stem: string) {
    Lookup(cache, Key(stem, ViewOf(s, tile))) == Some(NoData)
  }

  lemma StoredMark(s: Setup, cache: Cache, tile: Tile, stem: string)
    requires AllMarks(cache)
    ensures var r := Stored(cache, s.capacity, Key(stem, ViewOf(s, tile)), NoData);
            AllMarks(r) && Marked(s, r, tile, stem)
  {
    var key := Key(stem, ViewOf(s, tile));
    var r := Stored(cache, s.capacity, key, NoData);
    WithoutMembers(cache, key);
    StoredKeys(cache, s.capacity, key, NoData);
    assert Keys(r)[|r| - 1] == key;
    LookupFinds(r, key);
  }

  lemma TouchedMark(s: Setup, cache: Cache, tile: Tile, stem: string)
    requires AllMarks(cache) && Marked(s, cache, tile, stem)
    ensures var r := Touched(cache, Key(stem, ViewOf(s, tile)));
            AllMarks(r) && Marked(s, r, tile, stem)
  {
    var key := Key(stem, ViewOf(s, tile));
    var r := Touched(cache, key);
    WithoutMembers(cache, key);
    LookupFinds(cache, key);
    TouchedKeys(cache, key);
    assert Keys(r)[|r| - 1] == key;
    LookupFinds(r, key);
  }

  /** Only job j has moved, and only marks are in the cache. */
  ghost predicate Moved(t: Threads, t': Threads, j: nat, tile: Requested, phase: Phase) {
    && j < |t.jobs| <= |t'.jobs| && AllMarks(t'.cache) && t'.jobs[j] == Job(tile, phase)
    && forall i | 0 <= i < |t.jobs| && i != j :: t'.jobs[i] == t.jobs[i]
  }

  ghost predicate At(t: Threads, j: nat, tile: Requested, i: nat) {
    j < |t.jobs| && t.jobs[j] == Job(tile, Looking(i)) && AllMarks(t.cache)
  }

  /** A blank candidate is passed over: found marked, or drawn and marked. */
  lemma PassBlank(s: Setup, t: Threads, j: nat, tile: Requested, i: nat, inked: Option<string>)
    returns (steps: seq<Step>)
    requires At(t, j, tile, i) && s.tools.render == Painter(inked) && s.tools.isEmpty(BLANK)
    requires var c := Candidates(s, tile); i < |c| - 1 && inked != Some(c[i].archive)
    ensures var t' := After(s, t, steps);
            Moved(t, t', j, tile, Looking(i + 1)) && |t'.jobs| == |t.jobs|
            && Marked(s, t'.cache, tile, Candidates(s, tile)[i].stem)
  {
    var stem := Candidates(s, tile)[i].stem;
    var t1 := Next(s, t, Advance(j));
    steps := [Advance(j)];
    OneStep(s, t, Advance(j));
    LookupFinds(t.cache, Key(stem, ViewOf(s, tile)));
    if Lookup(t.cache, Key(stem, ViewOf(s, tile))).Some? {
      TouchedMark(s, t.cache, tile, stem);
    } else {
      OneStep(s, t1, Advance(j));
      AfterConcat(s, t, steps, [Advance(j)]);
      steps := steps + [Advance(j)];
      StoredMark(s, t.cache, tile, stem);
    }
  }

  lemma {:induction false} PassBlanks(
    s: Setup, t: Threads, j: nat, tile: Requested, i: nat, a: nat, inked: Option<string>)
    returns (steps: seq<Step>)
    requires At(t, j, tile, i) && i <= a && Hides(s, tile, a, inked)
    ensures var t' := After(s, t, steps);
            Moved(t, t', j, tile, Looking(a + 1)) && Marked(s, t'.cache, tile, Candidates(s, tile)[a].stem)
    decreases a - i
  {
    steps := PassBlank(s, t, j, tile, i, inked);
    if i < a {
      var more := PassBlanks(s, After(s, t, steps), j, tile, i + 1, a, inked);
      AfterConcat(s, t, steps, more);
      steps := steps + more;
    }
  }

  /** Another request for the tile arrives, gets as far as candidate a, and leaves its mark. */
  lemma HelperMarks(s: Setup, t: Threads, j: nat, tile: Requested, i: nat, a: nat, inked: Option<string>)
    returns (steps: seq<Step>)
    requires At(t, j, tile, i) && Hides(s, tile, a, inked)
    ensures var t' := After(s, t, steps);
            At(t', j, tile, i) && Marked(s, t'.cache, tile, Candidates(s, tile)[a].stem)
  {
    var t1 := Next(s, t, Arrive(tile));
    OneStep(s, t, Arrive(tile));
    var more := PassBlanks(s, t1, |t.jobs|, tile, 0, a, inked);
    AfterConcat(s, t, [Arrive(tile)], more);
    steps := [Arrive(tile)] + more;
  }

  /** What a job comes to that never meets the archive that draws. */
  predicate Misses(s: Setup, tile: Tile, a: nat, t: Threads, j: nat) {
    var c := Candidates(s, tile);
    && j < |t.jobs| && a < |c| && t.jobs[j].tile == tile && t.jobs[j].phase.Done?
    && t.jobs[j].phase.result in {ToPng(s.tools, BLANK), Err(NoPackRendered)}
    && (c[|c| - 1].stem == c[a].stem ==> t.jobs[j].phase.result == Err(NoPackRendered))
  }

  /** Past candidate a, a helper marks the name before every look. */
  lemma {:induction false} WalkMisses(
    s: Setup, t: Threads, j: nat, tile: Requested, i: nat, a: nat, inked: Option<string>)
    returns (steps: seq<Step>)
    requires At(t, j, tile, i) && Hides(s, tile, a, inked) && a < i <= |Candidates(s, tile)|
    ensures Misses(s, tile, a, After(s, t, steps), j)
    decreases |Candidates(s, tile)| - i
  {
    var c := Candidates(s, tile);
    if i == |c| {
      steps := [Advance(j)];
      OneStep(s, t, Advance(j));
    } else {
      steps := HelperMarks(s, t, j, tile, i, a, inked);
      var t1 := After(s, t, steps);
      var more := LookBehindHelper(s, t1, j, tile, i, a, inked);
      AfterConcat(s, t, steps, more);
      steps := steps + more;
      var t2 := After(s, t, steps);
      if !Misses(s, tile, a, t2, j) {
        var rest := WalkMisses(s, t2, j, tile, i + 1, a, inked);
        AfterConcat(s, t, steps, rest);
        steps := steps + rest;
      }
    }
  }

  lemma LookBehindHelper(s: Setup, t: Threads, j: nat, tile: Requested, i: nat, a: nat, inked: Option<string>)
    returns (steps: seq<Step>)
    requires At(t, j, tile, i) && Hides(s, tile, a, inked) && a < i < |Candidates(s, tile)|
    requires Marked(s, t.cache, tile, Candidates(s, tile)[a].stem)
    ensures At(After(s, t, steps), j, tile, i + 1) || Misses(s, tile, a, After(s, t, steps), j)
  {
    var c := Candidates(s, tile);
    var key := Key(c[i].stem, ViewOf(s, tile));
    LookupFinds(t.cache, key);
    steps := [Advance(j)];
    OneStep(s, t, Advance(j));
    if Lookup(t.cache, key).Some? {
      TouchedMark(s, t.cache, tile, c[i].stem);
    } else if i < |c| - 1 {
      steps := PassBlank(s, t, j, tile, i, inked);
    } else {
      OneStep(s, Next(s, t, Advance(j)), Advance(j));
      AfterConcat(s, t, steps, [Advance(j)]);
      steps := steps + [Advance(j)];
    }
  }

  /** A run in which the archive that draws is never shown. */
  lemma HiddenIsMissed(s: Setup, tile: Requested, a: nat, inked: Option<string>) returns (steps: seq<Step>)
    requires Hides(s, tile, a, inked)
    ensures Misses(s, tile, a, After(s, IDLE, steps), 0)
  {
    var t1 := Next(s, IDLE, Arrive(tile));
    OneStep(s, IDLE, Arrive(tile));
    var front := PassBlanks(s, t1, 0, tile, 0, a, inked);
    var t2 := After(s, t1, front);
    var rest := WalkMisses(s, t2, 0, tile, a + 1, a, inked);
    AfterConcat(s, t1, front, rest);
    AfterConcat(s, IDLE, [Arrive(tile)], front + rest);
    steps := [Arrive(tile)] + (front + rest);
  }

  ghost predicate AlwaysFresh(s: Setup) {
    forall steps :: AnswersFresh(s, After(s, IDLE, steps))
  }

  /** Its answer is then not the one the rule gives. */
  lemma MissedIsWrong(s: Setup, tile: Requested, a: nat, steps: seq<Step>)
    requires Misses(s, tile, a, After(s, IDLE, steps), 0)
    requires var c := Candidates(s, tile);
             var rule := Rule(s.tools, c, ViewOf(s, tile), 0);
             && rule != Err(NoPackRendered)
             && (rule != ToPng(s.tools, BLANK) || c[|c| - 1].stem == c[a].stem)
    ensures !AlwaysFresh(s)
  {
    assert !AnswersFresh(s, After(s, IDLE, steps));
  }

  /** The last candidate shares its name with an earlier one, and nothing draws. */
  lemma LastNameShared(s: Setup, tile: Requested, a: nat, crc: Png.Crc, zip: Png.Codec)
    requires s.tools == HostTools(Painter(None), crc, zip)
    requires var c := Candidates(s, tile); a < |c| - 1 && c[a].stem == c[|c| - 1].stem
    ensures !AlwaysFresh(s)
  {
    OnlyInkDraws();
    assert Hides(s, tile, a, None);
    var steps := HiddenIsMissed(s, tile, a, None);
    RuleNeverRunsOut(s.tools, Candidates(s, tile), ViewOf(s, tile));
    MissedIsWrong(s, tile, a, steps);
  }

  /** Only one archive draws, and all its candidates are named like an earlier one. */
  lemma LaterArchiveHides(s: Setup, tile: Requested, a: nat, b: nat)
    requires NamedByArchive(Candidates(s, tile))
    requires var c := Candidates(s, tile);
             && a < b < |c| && c[a].stem == c[b].stem && !Occurs(c, b, c[b].archive)
             && s.tools.render == Painter(Some(c[b].archive)) && s.tools.isEmpty(BLANK)
    ensures Hides(s, tile, a, Some(Candidates(s, tile)[b].archive))
  {
    var c := Candidates(s, tile);
    forall i | 0 <= i < |c| && c[b].archive == c[i].archive ensures c[i].stem == c[a].stem {
      assert c[i] in c && c[b] in c;
    }
  }

  lemma InkIsShown(tools: Tools, c: seq<Pack>, view: View, b: nat)
    requires b < |c| && !Occurs(c, b, c[b].archive) && tools.render == Painter(Some(c[b].archive))
    requires tools.isEmpty(BLANK) && !tools.isEmpty(INK)
    ensures Rule(tools, c, view, 0) == ToPng(tools, INK)
  {
    RuleIs(tools, c, view, b);
  }

  /** Two archives share a name, and only the one whose first candidate is `b` draws. */
  lemma ArchivesShareName(
    s: Setup, tile: Requested, a: nat, b: nat, crc: Png.Crc, zip: Png.Codec, unzip: seq<Byte> -> Option<seq<Byte>>)
    requires NamedByArchive(Candidates(s, tile)) && Png.Inverse(zip, unzip) && Compact(zip)
    requires var c := Candidates(s, tile);
             && a < b < |c| && c[a].stem == c[b].stem && !Occurs(c, b, c[b].archive)
             && s.tools == HostTools(Painter(Some(c[b].archive)), crc, zip)
    ensures !AlwaysFresh(s)
  {
    OnlyInkDraws();
    InkConverts(crc, zip);
    PngsDiffer(crc, zip, unzip);
    LaterArchiveHides(s, tile, a, b);
    var steps := HiddenIsMissed(s, tile, a, Some(Candidates(s, tile)[b].archive));
    InkIsShown(s.tools, Candidates(s, tile), ViewOf(s, tile), b);
    MissedIsWrong(s, tile, a, steps);
  }

  lemma CandidatesNamed(s: Setup, tile: Tile)
    requires NamedByArchive(s.packs)
    ensures NamedByArchive(Candidates(s, tile))
  {}

  lemma ClashIsMet(
    s: Setup, tile: Requested, crc: Png.Crc, zip: Png.Codec, unzip: seq<Byte> -> Option<seq<Byte>>)
    returns (render: Renderer)
    requires NamedByArchive(Candidates(s, tile)) && Png.Inverse(zip, unzip) && Compact(zip)
    requires !KeysTellApart(Candidates(s, tile))
    ensures !AlwaysFresh(With(s, render, crc, zip))
  {
    var c := Candidates(s, tile);
    var last, a, b := ClashingPair(c);
    render := Painter(if last then None else Some(c[b].archive));
    WithKeepsCandidates(s, render, crc, zip, tile);
    ClashFor(With(s, render, crc, zip), tile, last, a, b, crc, zip, unzip);
  }

  lemma WithKeepsCandidates(s: Setup, render: Renderer, crc: Png.Crc, zip: Png.Codec, tile: Tile)
    ensures Candidates(With(s, render, crc, zip), tile) == Candidates(s, tile)
  {}

  lemma ClashFor(
    s: Setup, tile: Requested, last: bool, a: nat, b: nat, crc: Png.Crc, zip: Png.Codec,
    unzip: seq<Byte> -> Option<seq<Byte>>)
    requires NamedByArchive(Candidates(s, tile)) && Png.Inverse(zip, unzip) && Compact(zip)
    requires var c := Candidates(s, tile);
             && a < b < |c| && c[a].stem == c[b].stem
             && (if last then b == |c| - 1 else !Occurs(c, b, c[b].archive))
             && s.tools == HostTools(Painter(if last then None else Some(c[b].archive)), crc, zip)
    ensures !AlwaysFresh(s)
  {
    if last { LastNameShared(s, tile, a, crc, zip); } else { ArchivesShareName(s, tile, a, b, crc, zip, unzip); }
  }

  /** Keys that do not tell candidates apart: the last name used before, or a new archive under a used name. */
  lemma ClashingPair(c: seq<Pack>) returns (last: bool, a: nat, b: nat)
    requires !KeysTellApart(c) && NamedByArchive(c)
    ensures a < b < |c| && c[a].stem == c[b].stem && if last then b == |c| - 1 else !Occurs(c, b, c[b].archive)
  {
    var i, j :| 0 <= i < j < |c| && c[i].stem == c[j].stem && (c[i].archive != c[j].archive || j == |c| - 1);
    last := c[i].archive == c[j].archive;
    if last {
      a, b := i, j;
    } else {
      var p := FirstOfArchive(c, i);
      var q := FirstOfArchive(c, j);
      assert c[p] in c && c[q] in c && c[i] in c && c[j] in c;
      a, b := if p < q then p else q, if p < q then q else p;
    }
  }

  /**
   With renders on many threads the capacity does not matter: every answer of every interleaving is right, for every
   renderer, exactly when keys tell the candidates of every tile apart.
   */
  lemma InterleavingIff(s: Setup, crc: Png.Crc, zip: Png.Codec, unzip: seq<Byte> -> Option<seq<Byte>>)
    requires NamedByArchive(s.packs) && Png.Inverse(zip, unzip) && Compact(zip)
    ensures (forall render :: AlwaysFresh(With(s, render, crc, zip))) <==> AllKeysTellApart(s.edges, s.packs)
  {
    if AllKeysTellApart(s.edges, s.packs) {
      forall render, steps
        ensures AnswersFresh(With(s, render, crc, zip), After(With(s, render, crc, zip), IDLE, steps))
      {
        InterleavedRendersAreFresh(With(s, render, crc, zip), steps);
      }
    } else {
      var tile: Requested :| !KeysTellApart(PacksFor(s.edges, s.packs, tile));
      CandidatesNamed(s, tile);
      var render := ClashIsMet(s, tile, crc, zip, unzip);
    }
  }
}
