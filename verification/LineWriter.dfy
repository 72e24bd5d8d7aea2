/** Turning text that arrives in pieces into lines. */
module LineWriter {
  import opened Prelude

  // ---------------------------------------------------------------------------------------
  // Escape sequences
  // ---------------------------------------------------------------------------------------

  const ESC: char := 27 as char

  /** How many characters at the front lie between lo and hi. */
  function RunLength(s: string, lo: char, hi: char): (n: nat)
    ensures n <= |s|
    ensures n < |s| ==> !(lo <= s[n] <= hi)
  {
    if s != "" && lo <= s[0] <= hi then 1 + RunLength(s[1..], lo, hi) else 0
  }

  datatype Scan = NoMatch | Unfinished | Match(length: nat)

  /** The pattern ESC [ parameters intermediates final, tried at the front of a non-empty text. */
  function ScanAt(s: string): (r: Scan)
    requires s != ""
    ensures r.Match? ==> 0 < r.length <= |s|
    ensures r.Unfinished? ==> s[0] == ESC
  {
    if s[0] != ESC then NoMatch
    else if |s| == 1 then Unfinished
    else if s[1] != '[' then NoMatch
    else
      var p := 2 + RunLength(s[2..], '0', '?');
      var q := p + RunLength(s[p..], ' ', '/');
      if q == |s| then Unfinished else if '@' <= s[q] <= '~' then Match(q + 1) else NoMatch
  }

  /** The substitution of the pattern by nothing; an unfinished sequence is no match. */
  function StripAnsi(s: string): string {
    if s == "" then ""
    else
      var scan := ScanAt(s);
      if scan.Match? then StripAnsi(s[scan.length..]) else [s[0]] + StripAnsi(s[1..])
  }

  /** An escape sequence: ESC [, then parameters, then intermediates, then one final character. */
  ghost predicate IsSequence(t: string) {
    && |t| >= 3 && t[0] == ESC && t[1] == '[' && '@' <= t[|t| - 1] <= '~'
    && exists p :: Parts(t, p)
  }

  /** Parameters up to p, intermediates from there to the final character. */
  predicate Parts(t: string, p: int) {
    && 2 <= p < |t|
    && (forall i | 2 <= i < p :: '0' <= t[i] <= '?') && forall i | p <= i < |t| - 1 :: ' ' <= t[i] <= '/'
  }

  lemma {:induction false} RunLengthIs(s: string, lo: char, hi: char, n: nat)
    requires n <= |s| && (forall i | 0 <= i < n :: lo <= s[i] <= hi) && (n < |s| ==> !(lo <= s[n] <= hi))
    ensures RunLength(s, lo, hi) == n
  {
    if n > 0 { RunLengthIs(s[1..], lo, hi, n - 1); }
  }

  lemma {:induction false} RunLengthIn(s: string, lo: char, hi: char)
    ensures forall i | 0 <= i < RunLength(s, lo, hi) :: lo <= s[i] <= hi
  {
    if s != "" && lo <= s[0] <= hi {
      RunLengthIn(s[1..], lo, hi);
      forall i | 0 <= i < RunLength(s, lo, hi) ensures lo <= s[i] <= hi {
        if i > 0 { assert s[i] == s[1..][i - 1]; }
      }
    }
  }

  lemma MatchIsSequence(s: string)
    requires s != "" && ScanAt(s).Match?
    ensures IsSequence(s[..ScanAt(s).length])
  {
    var p := 2 + RunLength(s[2..], '0', '?');
    var q := p + RunLength(s[p..], ' ', '/');
    RunLengthIn(s[2..], '0', '?');
    RunLengthIn(s[p..], ' ', '/');
    var t := s[..q + 1];
    assert forall i | 2 <= i < p :: t[i] == s[2..][i - 2];
    assert forall i | p <= i < q :: t[i] == s[p..][i - p];
    assert Parts(t, p);
  }

  lemma SequenceIsMatch(s: string, n: nat)
    requires n <= |s| && IsSequence(s[..n])
    ensures s != "" && ScanAt(s) == Match(n)
  {
    var t := s[..n];
    var p :| Parts(t, p);
    assert forall i | 0 <= i < n :: s[i] == t[i];
    RunIn(s, 2, p, '0', '?');
    RunIn(s, p, n - 1, ' ', '/');
  }

  lemma RunIn(s: string, from: nat, to: nat, lo: char, hi: char)
    requires from <= to <= |s| && (forall i | from <= i < to :: lo <= s[i] <= hi)
    requires to < |s| ==> !(lo <= s[to] <= hi)
    ensures RunLength(s[from..], lo, hi) == to - from
  {
    var rest := s[from..];
    assert forall k | 0 <= k < |rest| :: rest[k] == s[from + k];
    RunLengthIs(rest, lo, hi, to - from);
  }

  /** The scan finds exactly the sequence that stands at the front. */
  lemma MatchIff(s: string, n: nat)
    requires s != ""
    ensures ScanAt(s) == Match(n) <==> n <= |s| && IsSequence(s[..n])
  {
    if ScanAt(s) == Match(n) { MatchIsSequence(s); }
    if n <= |s| && IsSequence(s[..n]) { SequenceIsMatch(s, n); }
  }

  /** It is unfinished exactly when the whole text is the beginning of a longer sequence. */
  lemma UnfinishedIff(s: string)
    requires s != ""
    ensures ScanAt(s).Unfinished? <==> exists t :: t != "" && IsSequence(s + t)
  {
    if ScanAt(s).Unfinished? {
      ScanCompletes(s);
      var t := Completion(s);
      MatchIsSequence(s + t);
      assert (s + t)[..|s + t|] == s + t;
    } else if exists t :: t != "" && IsSequence(s + t) {
      var t :| t != "" && IsSequence(s + t);
      assert (s + t)[..|s + t|] == s + t;
      SequenceIsMatch(s + t, |s + t|);
      ScanStable(s, t);
    }
  }

  /** Stripping drops a sequence that stands at the front, and keeps any other first character. */
  lemma StripFirst(s: string)
    requires s != ""
    ensures (exists n | 0 <= n <= |s| :: IsSequence(s[..n])) || StripAnsi(s) == [s[0]] + StripAnsi(s[1..])
    ensures forall n | 0 <= n <= |s| && IsSequence(s[..n]) :: StripAnsi(s) == StripAnsi(s[n..])
  {
    if ScanAt(s).Match? { MatchIsSequence(s); }
    forall n | 0 <= n <= |s| && IsSequence(s[..n]) ensures StripAnsi(s) == StripAnsi(s[n..]) {
      SequenceIsMatch(s, n);
    }
  }

  /** How much of a text one step of stripping takes from its front, and what it keeps of that. */
  function Taken(a: string): (n: nat)
    requires a != ""
    ensures 0 < n <= |a|
  {
    if ScanAt(a).Match? then ScanAt(a).length else 1
  }

  function KeptOf(a: string): string
    requires a != ""
  {
    if ScanAt(a).Match? then "" else [a[0]]
  }

  /** The sequence a text ends inside of; empty when it ends inside none. */
  function Open(a: string): string {
    if a == "" || ScanAt(a).Unfinished? then a else Open(a[Taken(a)..])
  }

  /** The text ends in the middle of a sequence. */
  predicate EndsInside(s: string) {
    Open(s) != ""
  }

  lemma {:induction false} RunLengthStable(a: string, b: string, lo: char, hi: char)
    ensures RunLength(a, lo, hi) < |a| ==> RunLength(a + b, lo, hi) == RunLength(a, lo, hi)
    ensures RunLength(a, lo, hi) == |a| ==> RunLength(a + b, lo, hi) == |a| + RunLength(b, lo, hi)
  {
    if a == "" {
      assert a + b == b;
    } else {
      RunLengthStable(a[1..], b, lo, hi);
      DropOfConcat(a, b, 1);
    }
  }

  lemma ScanStableInside(a: string, b: string)
    requires |a| > 1 && a[0] == ESC && a[1] == '[' && !ScanAt(a).Unfinished?
    ensures ScanAt(a + b) == ScanAt(a)
  {
    var p := 2 + RunLength(a[2..], '0', '?');
    RunLengthStable(a[2..], b, '0', '?');
    DropOfConcat(a, b, 2);
    RunLengthStable(a[p..], b, ' ', '/');
    DropOfConcat(a, b, p);
  }

  lemma ScanStable(a: string, b: string)
    requires a != "" && !ScanAt(a).Unfinished?
    ensures ScanAt(a + b) == ScanAt(a)
  {
    if a[0] == ESC && a[1] == '[' { ScanStableInside(a, b); }
  }

  /** What finishes a sequence that is open at the end of the text. */
  function Completion(s: string): string
    requires s != ""
  {
    if s[|s| - 1] == ESC then "[m" else "m"
  }

  lemma ScanCompletesInside(a: string, b: string)
    requires |a| > 1 && ScanAt(a).Unfinished? && b == "m"
    ensures ScanAt(a + b) == Match(|a| + 1)
  {
    assert b[0] == 'm' && RunLength(b, '0', '?') == 0 && RunLength(b, ' ', '/') == 0;
    var p := 2 + RunLength(a[2..], '0', '?');
    RunLengthStable(a[2..], b, '0', '?');
    DropOfConcat(a, b, 2);
    RunLengthStable(a[p..], b, ' ', '/');
    DropOfConcat(a, b, p);
  }

  lemma ScanCompletes(a: string)
    requires a != "" && ScanAt(a).Unfinished?
    ensures ScanAt(a + Completion(a)) == Match(|a| + |Completion(a)|)
  {
    if |a| == 1 {
      var s := a + "[m";
      assert s[2..] == "m" && s[1] == '[';
      assert RunLength("m", '0', '?') == 0 && RunLength("m", ' ', '/') == 0;
    } else {
      UnfinishedPlain(a);
      assert a[|a| - 1] == a[1..][|a| - 2];
      ScanCompletesInside(a, "m");
    }
  }

  lemma {:induction false} NoEscapeInRun(s: string, lo: char, hi: char)
    requires ESC < lo
    ensures forall i | 0 <= i < RunLength(s, lo, hi) :: s[i] != ESC
  {
    if s != "" { NoEscapeInRun(s[1..], lo, hi); }
  }

  lemma StripFront(a: string)
    requires a != ""
    ensures StripAnsi(a) == KeptOf(a) + StripAnsi(a[Taken(a)..])
  {}

  lemma EndsInsideBehind(a: string)
    requires a != "" && !ScanAt(a).Unfinished?
    ensures EndsInside(a) <==> EndsInside(a[Taken(a)..])
  {}

  /** The first step is the same whether or not more text follows. */
  lemma StripStep(a: string, b: string)
    requires a != "" && !ScanAt(a).Unfinished?
    ensures StripAnsi(a) == KeptOf(a) + StripAnsi(a[Taken(a)..])
    ensures StripAnsi(a + b) == KeptOf(a) + StripAnsi(a[Taken(a)..] + b)
  {
    ScanStable(a, b);
    DropOfConcat(a, b, Taken(a));
    StripFront(a);
    StripFront(a + b);
  }

  /** Cutting a text after `a` is harmless when `a` does not end inside a sequence. */
  lemma {:induction false} StripConcat(a: string, b: string)
    requires !EndsInside(a)
    ensures StripAnsi(a + b) == StripAnsi(a) + StripAnsi(b)
    decreases |a|
  {
    if a == "" {
      assert a + b == b;
    } else {
      var rest := a[Taken(a)..];
      StripStep(a, b);
      EndsInsideBehind(a);
      StripConcat(rest, b);
      Associative(KeptOf(a), StripAnsi(rest), StripAnsi(b));
    }
  }

  lemma {:induction false} NoEscapeNoSequence(s: string)
    requires ESC !in s
    ensures StripAnsi(s) == s && !EndsInside(s)
  {
    if s != "" { NoEscapeNoSequence(s[1..]); }
  }

  /** The sequence `a` ends inside of is finished by `b`: the boundary cuts a sequence in two. */
  predicate CutsSequence(a: string, b: string) {
    Open(a) != "" && ScanAt(Open(a) + b).Match?
  }

  /** What comes before the open sequence is stripped the same, whatever follows. */
  lemma {:induction false} StripToOpen(a: string, b: string) returns (front: string)
    requires EndsInside(a)
    ensures ScanAt(Open(a)).Unfinished?
    ensures StripAnsi(a) == front + StripAnsi(Open(a)) && StripAnsi(a + b) == front + StripAnsi(Open(a) + b)
    decreases |a|
  {
    if ScanAt(a).Unfinished? {
      front := "";
      assert front + StripAnsi(a) == StripAnsi(a) && front + StripAnsi(a + b) == StripAnsi(a + b);
    } else {
      var rest := a[Taken(a)..];
      StripStep(a, b);
      EndsInsideBehind(a);
      var more := StripToOpen(rest, b);
      front := KeptOf(a) + more;
      Associative(KeptOf(a), more, StripAnsi(Open(rest)));
      Associative(KeptOf(a), more, StripAnsi(Open(rest) + b));
    }
  }

  /** An unfinished sequence has no second escape character, and stays as it is. */
  lemma UnfinishedIsKept(u: string)
    requires u != "" && ScanAt(u).Unfinished?
    ensures ESC !in u[1..] && StripAnsi(u) == u
  {
    UnfinishedPlain(u);
    NoEscapeNoSequence(u[1..]);
  }

  lemma UnfinishedPlain(u: string)
    requires u != "" && ScanAt(u).Unfinished?
    ensures ESC !in u[1..]
  {
    if |u| > 1 {
      var p := 2 + RunLength(u[2..], '0', '?');
      NoEscapeInRun(u[2..], '0', '?');
      NoEscapeInRun(u[p..], ' ', '/');
      forall i | 1 <= i < |u| ensures u[i] != ESC {
        if i >= p { assert u[i] == u[p..][i - p]; } else if i >= 2 { assert u[i] == u[2..][i - 2]; }
      }
    }
  }

  /** A match has no second escape character either. */
  lemma MatchPlain(s: string)
    requires s != "" && ScanAt(s).Match?
    ensures ESC !in s[1..ScanAt(s).length]
  {
    var p := 2 + RunLength(s[2..], '0', '?');
    var q := p + RunLength(s[p..], ' ', '/');
    NoEscapeInRun(s[2..], '0', '?');
    NoEscapeInRun(s[p..], ' ', '/');
    forall i | 1 <= i < q + 1 ensures s[i] != ESC {
      if p <= i < q { assert s[i] == s[p..][i - p]; } else if 2 <= i < p { assert s[i] == s[2..][i - 2]; }
    }
  }

  // ---------------------------------------------------------------------------------------
  // Lines
  // ---------------------------------------------------------------------------------------

  function CrToLf(s: string): (r: string)
    ensures |r| == |s|
  {
    seq(|s|, i requires 0 <= i < |s| => if s[i] == '\r' then '\n' else s[i])
  }

  function Cooked(value: string): string {
    CrToLf(StripAnsi(value))
  }

  /** str.split("\n"). */
  function Split(s: string): (lines: seq<string>)
    ensures lines != []
  {
    if s == "" then [""] else Glued(s[0], Split(s[1..]))
  }

  /** One more character in front of a text already split. */
  function Glued(c: char, lines: seq<string>): (r: seq<string>)
    requires lines != []
    ensures r != []
  {
    if c == '\n' then [""] + lines else [[c] + lines[0]] + lines[1..]
  }

  lemma {:induction false} NoBreakInLines(s: string)
    ensures forall i | 0 <= i < |Split(s)| :: '\n' !in Split(s)[i]
  {
    if s != "" {
      NoBreakInLines(s[1..]);
    }
  }

  lemma {:induction false} OneLine(s: string)
    requires '\n' !in s
    ensures Split(s) == [s]
  {
    if s != "" {
      OneLine(s[1..]);
      assert [s[0]] + s[1..] == s;
    }
  }

  /** A text is cut at every line feed and every carriage return, and nowhere else. */
  lemma LinesCut(a: string, c: char, b: string)
    ensures c in {'\n', '\r'} ==> Split(CrToLf(a + [c] + b)) == Split(CrToLf(a)) + Split(CrToLf(b))
    ensures '\n' !in a && '\r' !in a ==> Split(CrToLf(a)) == [a]
  {
    if c in {'\n', '\r'} {
      var (x, y) := (CrToLf(a), CrToLf(b));
      assert CrToLf(a + [c] + b) == x + (['\n'] + y);
      SplitConcat(x, ['\n'] + y);
      NoBreakInLines(x);
      var line := LastLine(Split(x));
      SplitConcat(line, ['\n'] + y);
      OneLine(line);
      BreakAfter(line, y);
      Associative(AllButLast(Split(x)), [line], Split(y));
      assert AllButLast(Split(x)) + [line] == Split(x);
    }
    if '\n' !in a && '\r' !in a {
      assert CrToLf(a) == a;
      OneLine(a);
    }
  }

  lemma {:induction false} BreakAfter(line: string, y: string)
    requires '\n' !in line
    ensures Split(line + (['\n'] + y)) == [line] + Split(y)
  {
    var s := line + (['\n'] + y);
    if line == "" {
      assert s == ['\n'] + y && s[1..] == y;
    } else {
      BreakAfter(line[1..], y);
      assert s[1..] == line[1..] + (['\n'] + y);
      assert [line[0]] + line[1..] == line;
    }
  }

  /** The lines that are shown: blank ones are not, and trailing whitespace is cut. */
  function Kept(lines: seq<string>): seq<string> {
    if lines == [] then []
    else
      var n := |lines| - 1;
      Kept(lines[..n]) + if Blank(lines[n]) then [] else [RStrip(lines[n])]
  }

  /** Where the lines that are not blank stand, in order. */
  function NotBlank(lines: seq<string>): (at: seq<nat>)
    ensures forall k | 0 <= k < |at| :: at[k] < |lines| && !Blank(lines[at[k]])
    ensures forall i | 0 <= i < |lines| && !Blank(lines[i]) :: i in at
    ensures forall j, k | 0 <= j < k < |at| :: at[j] < at[k]
  {
    if lines == [] then []
    else
      var n := |lines| - 1;
      var before := NotBlank(lines[..n]);
      assert forall k | 0 <= k < |before| :: before[k] < n && lines[before[k]] == lines[..n][before[k]];
      assert forall i | 0 <= i < n && !Blank(lines[i]) :: lines[..n][i] == lines[i] && i in before;
      if Blank(lines[n]) then before else before + [n]
  }

  /** The line without the whitespace at its end, and nothing else missing. */
  predicate Trimmed(shown: string, line: string) {
    shown != "" && shown <= line && Blank(line[|shown|..]) && !IsSpace(shown[|shown| - 1])
  }

  /** What is shown: every line that is not blank, in order, trimmed. */
  lemma {:induction false} KeptLines(lines: seq<string>)
    ensures var at := NotBlank(lines);
            |Kept(lines)| == |at| && forall k | 0 <= k < |at| :: Trimmed(Kept(lines)[k], lines[at[k]])
  {
    if lines != [] {
      var n := |lines| - 1;
      KeptLines(lines[..n]);
      KeptOn(Kept(lines[..n]), NotBlank(lines[..n]), lines);
    }
  }

  lemma KeptOn(before: seq<string>, at: seq<nat>, lines: seq<string>)
    requires lines != [] && |before| == |at|
    requires forall k | 0 <= k < |at| :: at[k] < |lines| - 1 && Trimmed(before[k], lines[..|lines| - 1][at[k]])
    ensures forall k | 0 <= k < |at| :: Trimmed(before[k], lines[at[k]])
    ensures !Blank(lines[|lines| - 1]) ==> Trimmed(RStrip(lines[|lines| - 1]), lines[|lines| - 1])
  {
    forall k | 0 <= k < |at| ensures Trimmed(before[k], lines[at[k]]) {
      assert lines[..|lines| - 1][at[k]] == lines[at[k]];
    }
    if !Blank(lines[|lines| - 1]) { TrimmedIs(lines[|lines| - 1]); }
  }

  lemma TrimmedIs(line: string)
    requires !Blank(line)
    ensures Trimmed(RStrip(line), line)
  {
    RStripMeaning(line);
    assert line[0..] == line;
  }

  function AllButLast(lines: seq<string>): seq<string>
    requires lines != []
  {
    lines[..|lines| - 1]
  }

  function LastLine(lines: seq<string>): string
    requires lines != []
  {
    lines[|lines| - 1]
  }

  class Writer {
    var buffer: string
    var output: seq<string>

    constructor ()
      ensures buffer == "" && output == []
    {
      buffer, output := "", [];
    }

    method Write(value: string) returns (n: nat)
      modifies this
      ensures n == |value|
      ensures var lines := Split(old(buffer) + Cooked(value));
              buffer == LastLine(lines) && output == old(output) + Kept(AllButLast(lines))
    {
      buffer := buffer + Cooked(value);
      var lines := Split(buffer);
      buffer := lines[|lines| - 1];
      lines := lines[..|lines| - 1];
      for i := 0 to |lines|
        invariant output == old(output) + Kept(lines[..i]) && buffer == LastLine(Split(old(buffer) + Cooked(value)))
      {
        assert lines[..i + 1][..i] == lines[..i];
        StripEmptyIffBlank(lines[i]);
        if Strip(lines[i]) != "" {
          output := output + [RStrip(lines[i])];
        }
      }
      assert lines[..|lines|] == lines;
      n := |value|;
    }

    method Flush()
      modifies this
      ensures buffer == "" && output == old(output) + Kept([old(buffer)])
    {
      StripEmptyIffBlank(buffer);
      assert [buffer][..0] == [];
      if Strip(buffer) != "" {
        output := output + [RStrip(buffer)];
      }
      buffer := "";
    }
  }

  // ---------------------------------------------------------------------------------------
  // Streaming and batch
  // ---------------------------------------------------------------------------------------

  datatype Pending = Pending(buffer: string, output: seq<string>)

  /** A writer fed these pieces. */
  function After(pieces: seq<string>): Pending {
    if pieces == [] then Pending("", [])
    else
      var before := After(pieces[..|pieces| - 1]);
      var lines := Split(before.buffer + Cooked(pieces[|pieces| - 1]));
      Pending(LastLine(lines), before.output + Kept(AllButLast(lines)))
  }

  function Flushed(p: Pending): seq<string> {
    p.output + Kept([p.buffer])
  }

  function JoinedCooked(pieces: seq<string>): string {
    if pieces == [] then "" else JoinedCooked(pieces[..|pieces| - 1]) + Cooked(pieces[|pieces| - 1])
  }

  lemma GluedConcat(c: char, x: seq<string>, y: seq<string>)
    requires x != []
    ensures Glued(c, x + y) == Glued(c, x) + y
  {}

  lemma GluedEnds(c: char, lines: seq<string>)
    requires |lines| > 1
    ensures AllButLast(Glued(c, lines)) == Glued(c, AllButLast(lines))
    ensures LastLine(Glued(c, lines)) == LastLine(lines)
  {}

  /** Only the last line of a text can go on. */
  lemma {:induction false} SplitConcat(a: string, b: string)
    ensures Split(a + b) == AllButLast(Split(a)) + Split(LastLine(Split(a)) + b)
  {
    if a == "" {
      assert a + b == b && LastLine(Split(a)) + b == b;
    } else {
      SplitConcat(a[1..], b);
      DropOfConcat(a, b, 1);
      var (c, rest) := (a[0], Split(a[1..]));
      var more := Split(LastLine(rest) + b);
      assert Split(a + b) == Glued(c, AllButLast(rest) + more);
      if |rest| > 1 {
        GluedEnds(c, rest);
        GluedConcat(c, AllButLast(rest), more);
      } else {
        assert AllButLast(rest) + more == more;
        SplitOne(c, LastLine(rest), b);
      }
    }
  }

  lemma SplitOne(c: char, line: string, b: string)
    ensures Glued(c, Split(line + b)) == AllButLast(Glued(c, [line])) + Split(LastLine(Glued(c, [line])) + b)
  {
    if c != '\n' {
      assert ([c] + line + b)[1..] == line + b;
    }
  }

  lemma {:induction false} KeptConcat(a: seq<string>, b: seq<string>)
    ensures Kept(a + b) == Kept(a) + Kept(b)
  {
    if b == [] {
      assert a + b == a;
    } else {
      var n := |b| - 1;
      KeptConcat(a, b[..n]);
      assert (a + b)[..|a + b| - 1] == a + b[..n];
    }
  }

  lemma {:induction false} AfterIsSplit(pieces: seq<string>)
    ensures var lines := Split(JoinedCooked(pieces));
            After(pieces) == Pending(LastLine(lines), Kept(AllButLast(lines)))
  {
    if pieces != [] {
      var n := |pieces| - 1;
      AfterIsSplit(pieces[..n]);
      var (text, more) := (JoinedCooked(pieces[..n]), Cooked(pieces[n]));
      SplitConcat(text, more);
      var next := Split(LastLine(Split(text)) + more);
      KeptConcat(AllButLast(Split(text)), AllButLast(next));
      assert AllButLast(Split(text + more)) == AllButLast(Split(text)) + AllButLast(next);
    }
  }

  lemma KeptAtLast(lines: seq<string>)
    requires lines != []
    ensures Kept(AllButLast(lines)) + Kept([LastLine(lines)]) == Kept(lines)
  {
    KeptConcat(AllButLast(lines), [LastLine(lines)]);
    assert AllButLast(lines) + [LastLine(lines)] == lines;
  }

  /** Whatever the pieces, the lines shown are those of the pieces stripped one by one and joined. */
  lemma StreamingIsBatchOfPieces(pieces: seq<string>)
    ensures Flushed(After(pieces)) == Kept(Split(JoinedCooked(pieces)))
  {
    AfterIsSplit(pieces);
    KeptAtLast(Split(JoinedCooked(pieces)));
  }

  lemma CrToLfConcat(a: string, b: string)
    ensures CrToLf(a + b) == CrToLf(a) + CrToLf(b)
  {}

  // ---------------------------------------------------------------------------------------
  // Ink
  // ---------------------------------------------------------------------------------------

  /** Characters that are not whitespace: what showing a text never changes. */
  function Ink(s: string): nat {
    if s == "" then 0 else (if IsSpace(s[0]) then 0 else 1) + Ink(s[1..])
  }

  function InkOf(lines: seq<string>): nat {
    if lines == [] then 0 else InkOf(lines[..|lines| - 1]) + Ink(lines[|lines| - 1])
  }

  lemma {:induction false} InkConcat(a: string, b: string)
    ensures Ink(a + b) == Ink(a) + Ink(b)
  {
    if a == "" {
      assert a + b == b;
    } else {
      InkConcat(a[1..], b);
      DropOfConcat(a, b, 1);
    }
  }

  lemma {:induction false} InkOfBlank(s: string)
    ensures Ink(s) == 0 <==> Blank(s)
  {
    if s != "" {
      InkOfBlank(s[1..]);
      assert s == [s[0]] + s[1..];
      assert Blank(s) <==> IsSpace(s[0]) && Blank(s[1..]) by {
        if IsSpace(s[0]) && Blank(s[1..]) {
          forall i | 0 <= i < |s| ensures IsSpace(s[i]) {
            if i > 0 { assert s[i] == s[1..][i - 1]; }
          }
        }
      }
    }
  }

  lemma InkOfRStrip(s: string)
    ensures Ink(RStrip(s)) == Ink(s)
  {
    RStripMeaning(s);
    var k := |RStrip(s)|;
    InkOfBlank(s[k..]);
    InkConcat(s[..k], s[k..]);
    assert s[..k] + s[k..] == s && RStrip(s) == s[..k];
  }

  lemma {:induction false} InkOfCrToLf(s: string)
    ensures Ink(CrToLf(s)) == Ink(s)
  {
    if s != "" {
      InkOfCrToLf(s[1..]);
      assert CrToLf(s)[1..] == CrToLf(s[1..]);
    }
  }

  lemma {:induction false} InkOfKept(lines: seq<string>)
    ensures InkOf(Kept(lines)) == InkOf(lines)
  {
    if lines != [] {
      var n := |lines| - 1;
      InkOfKept(lines[..n]);
      InkOfRStrip(lines[n]);
      InkOfBlank(lines[n]);
      assert (Kept(lines[..n]) + [RStrip(lines[n])])[..|Kept(lines[..n])|] == Kept(lines[..n]);
      assert Kept(lines[..n]) + [] == Kept(lines[..n]);
    }
  }

  lemma {:induction false} InkOfFirst(lines: seq<string>)
    requires lines != []
    ensures InkOf(lines) == Ink(lines[0]) + InkOf(lines[1..])
  {
    var n := |lines| - 1;
    if n == 0 {
      assert lines[..0] == [] && lines[1..] == [];
    } else {
      InkOfFirst(lines[..n]);
      assert lines[..n][1..] == lines[1..][..n - 1];
    }
  }

  lemma {:induction false} InkOfSplit(s: string)
    ensures InkOf(Split(s)) == Ink(s)
  {
    if s == "" {
      assert [""][..0] == [];
    } else {
      var rest := Split(s[1..]);
      InkOfSplit(s[1..]);
      InkOfFirst(Split(s));
      InkOfFirst(rest);
      if s[0] == '\n' {
        assert Split(s)[1..] == rest;
      } else {
        assert Split(s)[1..] == rest[1..];
        assert ([s[0]] + rest[0])[1..] == rest[0];
      }
    }
  }

  lemma InkShown(text: string)
    ensures InkOf(Kept(Split(CrToLf(text)))) == Ink(text)
  {
    InkOfKept(Split(CrToLf(text)));
    InkOfSplit(CrToLf(text));
    InkOfCrToLf(text);
  }

  lemma {:induction false} InkHasEscape(s: string)
    requires ESC in s
    ensures Ink(s) > 0
  {
    InkOfBlank(s);
  }

  // ---------------------------------------------------------------------------------------
  // Where a boundary shows
  // ---------------------------------------------------------------------------------------

  lemma MatchReachesOver(u: string, b: string)
    requires u != "" && ScanAt(u).Unfinished? && ScanAt(u + b).Match?
    ensures ScanAt(u + b).length > |u|
  {
    if |u| > 1 {
      var p := 2 + RunLength(u[2..], '0', '?');
      RunLengthStable(u[2..], b, '0', '?');
      DropOfConcat(u, b, 2);
      RunLengthStable(u[p..], b, ' ', '/');
      DropOfConcat(u, b, p);
    }
  }

  /** What `b` adds to the sequence, and what follows it. */
  lemma SequenceEnds(u: string, b: string) returns (x: string, rest: string)
    requires u != "" && ScanAt(u).Unfinished? && ScanAt(u + b).Match?
    ensures b == x + rest && ESC !in x && StripAnsi(u + b) == StripAnsi(rest)
  {
    MatchReachesOver(u, b);
    MatchPlain(u + b);
    var n := ScanAt(u + b).length - |u|;
    x, rest := b[..n], b[n..];
    assert (u + b)[1..|u| + n] == u[1..] + x;
    assert (u + b)[|u| + n..] == rest;
  }

  /** A sequence cut in two is taken for text: its characters are shown. */
  lemma CutIsShown(u: string, b: string)
    requires u != "" && ScanAt(u).Unfinished? && ScanAt(u + b).Match?
    ensures Ink(u + StripAnsi(b)) > Ink(StripAnsi(u + b))
  {
    var x, rest := SequenceEnds(u, b);
    NoEscapeNoSequence(x);
    StripConcat(x, rest);
    InkConcat(u, StripAnsi(b));
    InkConcat(x, StripAnsi(rest));
    InkHasEscape(u);
  }

  /** An escape character that starts no sequence is text either way. */
  lemma NoSequenceNoCut(u: string, b: string)
    requires u != "" && ScanAt(u).Unfinished? && !ScanAt(u + b).Match?
    ensures u + StripAnsi(b) == StripAnsi(u + b)
  {
    UnfinishedIsKept(u);
    NoEscapeNoSequence(u[1..]);
    StripConcat(u[1..], b);
    DropOfConcat(u, b, 1);
    Associative([u[0]], u[1..], StripAnsi(b));
    assert [u[0]] + u[1..] == u;
  }

  /** Stripping on both sides of a boundary leaves what stripping at once does, unless a sequence is cut: then more. */
  lemma StripAcross(a: string, b: string)
    ensures !CutsSequence(a, b) ==> StripAnsi(a) + StripAnsi(b) == StripAnsi(a + b)
    ensures CutsSequence(a, b) ==> Ink(StripAnsi(a) + StripAnsi(b)) > Ink(StripAnsi(a + b))
  {
    if !EndsInside(a) {
      StripConcat(a, b);
    } else {
      var u := Open(a);
      var front := StripToOpen(a, b);
      UnfinishedIsKept(u);
      Associative(front, u, StripAnsi(b));
      if CutsSequence(a, b) {
        CutIsShown(u, b);
        InkConcat(front, u + StripAnsi(b));
        InkConcat(front, StripAnsi(u + b));
      } else {
        NoSequenceNoCut(u, b);
      }
    }
  }

  /** No sequence of the whole text lies across a boundary between two pieces. */
  predicate NoSequenceCut(pieces: seq<string>) {
    |pieces| <= 1
    || var n := |pieces| - 1; NoSequenceCut(pieces[..n]) && !CutsSequence(Joined(pieces[..n]), pieces[n])
  }

  /** The pieces stripped one by one. */
  function Streamed(pieces: seq<string>): string {
    if pieces == [] then "" else Streamed(pieces[..|pieces| - 1]) + StripAnsi(pieces[|pieces| - 1])
  }

  lemma {:induction false} CookedIsStreamed(pieces: seq<string>)
    ensures JoinedCooked(pieces) == CrToLf(Streamed(pieces))
  {
    if pieces != [] {
      var n := |pieces| - 1;
      CookedIsStreamed(pieces[..n]);
      CrToLfConcat(Streamed(pieces[..n]), StripAnsi(pieces[n]));
    }
  }

  lemma {:induction false} StreamedIsStripped(pieces: seq<string>)
    ensures NoSequenceCut(pieces) ==> Streamed(pieces) == StripAnsi(Joined(pieces))
    ensures !NoSequenceCut(pieces) ==> Ink(Streamed(pieces)) > Ink(StripAnsi(Joined(pieces)))
  {
    if |pieces| == 1 {
      assert pieces == [pieces[0]] && pieces[..0] == [];
      JoinedOne(pieces[0]);
      assert "" + StripAnsi(pieces[0]) == StripAnsi(pieces[0]);
    } else if pieces != [] {
      var n := |pieces| - 1;
      var before := Joined(pieces[..n]);
      StreamedIsStripped(pieces[..n]);
      StripAcross(before, pieces[n]);
      InkConcat(Streamed(pieces[..n]), StripAnsi(pieces[n]));
      InkConcat(StripAnsi(before), StripAnsi(pieces[n]));
    }
  }

  /**
   For any list of writes: the lines shown are those of the whole text, stripped at once, exactly when no escape
   sequence of the text lies across a boundary.
   */
  lemma StreamingIsBatchIff(pieces: seq<string>)
    ensures Flushed(After(pieces)) == Kept(Split(Cooked(Joined(pieces)))) <==> NoSequenceCut(pieces)
  {
    StreamingIsBatchOfPieces(pieces);
    CookedIsStreamed(pieces);
    StreamedIsStripped(pieces);
    InkShown(Streamed(pieces));
    InkShown(StripAnsi(Joined(pieces)));
  }

  lemma {:induction false} NoEscapeInJoined(pieces: seq<string>)
    requires forall i | 0 <= i < |pieces| :: ESC !in pieces[i]
    ensures ESC !in Joined(pieces)
  {
    if pieces != [] { NoEscapeInJoined(pieces[..|pieces| - 1]); }
  }

  lemma {:induction false} PlainTextIsNotCut(pieces: seq<string>)
    requires forall i | 0 <= i < |pieces| :: ESC !in pieces[i]
    ensures NoSequenceCut(pieces)
  {
    if |pieces| > 1 {
      var before := pieces[..|pieces| - 1];
      PlainTextIsNotCut(before);
      NoEscapeInJoined(before);
      NoEscapeNoSequence(Joined(before));
    }
  }

  /** Text free of escape characters: the shown lines are the non-blank lines of the whole, CR counting as LF. */
  lemma PlainTextStreaming(pieces: seq<string>)
    requires forall i | 0 <= i < |pieces| :: ESC !in pieces[i]
    ensures Flushed(After(pieces)) == Kept(Split(CrToLf(Joined(pieces))))
  {
    PlainTextIsNotCut(pieces);
    NoEscapeInJoined(pieces);
    NoEscapeNoSequence(Joined(pieces));
    StreamingIsBatchIff(pieces);
  }

  /** A single boundary. */
  lemma TwoPieces(a: string, b: string)
    ensures Joined([a, b]) == a + b && (NoSequenceCut([a, b]) <==> !CutsSequence(a, b))
  {
    assert [a, b][..1] == [a];
    JoinedOne(a);
  }

  lemma {:induction false} OpenIsUnfinished(a: string)
    requires EndsInside(a)
    ensures ScanAt(Open(a)).Unfinished?
    decreases |a|
  {
    if !ScanAt(a).Unfinished? { OpenIsUnfinished(a[Taken(a)..]); }
  }

  /**
   A write boundary after `a` never shows, whatever follows, exactly when `a` does not end inside an
   escape sequence.
   */
  lemma BoundaryNeverShowsIff(a: string)
    ensures (forall b :: Flushed(After([a, b])) == Kept(Split(Cooked(a + b)))) <==> !EndsInside(a)
  {
    forall b ensures Flushed(After([a, b])) == Kept(Split(Cooked(a + b))) <==> !CutsSequence(a, b) {
      StreamingIsBatchIff([a, b]);
      TwoPieces(a, b);
    }
    if EndsInside(a) {
      OpenIsUnfinished(a);
      ScanCompletes(Open(a));
      assert CutsSequence(a, Completion(Open(a)));
    }
  }
}
