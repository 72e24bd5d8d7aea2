/** Vocabulary shared by the models: Option, and the Python string operations they need. */
module Prelude {
  datatype Option<+T> = None | Some(value: T)

  datatype Result<+T, +E> = Ok(value: T) | Err(error: E)

  type Byte = b: int | 0 <= b < 256

  // ---------------------------------------------------------------------------------------
  // Sequences and powers
  // ---------------------------------------------------------------------------------------

  /** The parts in one piece. */
  function Joined<T>(parts: seq<seq<T>>): seq<T> {
    if parts == [] then [] else Joined(parts[..|parts| - 1]) + parts[|parts| - 1]
  }

  lemma JoinedOne<T>(part: seq<T>)
    ensures Joined([part]) == part
  {
    var none: seq<seq<T>> := [part][..0];
    assert none == [] && Joined(none) == [];
  }

  lemma {:induction false} JoinedConcat<T>(a: seq<seq<T>>, b: seq<seq<T>>)
    ensures Joined(a + b) == Joined(a) + Joined(b)
    decreases |b|
  {
    if b == [] {
      assert a + b == a;
    } else {
      var n := |b| - 1;
      assert (a + b)[..|a| + n] == a + b[..n];
      JoinedConcat(a, b[..n]);
      Associative(Joined(a), Joined(b[..n]), b[n]);
    }
  }

  /** The last n elements, or all of them. */
  function Last<T>(s: seq<T>, n: nat): (r: seq<T>)
    ensures |r| == if |s| <= n then |s| else n
  {
    if |s| <= n then s else s[|s| - n..]
  }

  ghost predicate Distinct<T>(s: seq<T>) {
    forall i, j | 0 <= i < j < |s| :: s[i] != s[j]
  }

  lemma Associative<T>(a: seq<T>, b: seq<T>, c: seq<T>)
    ensures a + (b + c) == a + b + c
  {}

  lemma DropOfConcat<T>(a: seq<T>, b: seq<T>, n: nat)
    requires n <= |a|
    ensures (a + b)[n..] == a[n..] + b
  {}

  lemma WholePrefix<T>(s: seq<T>)
    ensures s[..|s|] == s
  {}

  lemma SplitLast<T>(s: seq<T>)
    requires s != []
    ensures s == s[..|s| - 1] + [s[|s| - 1]]
  {}

  function Pow2(n: nat): (r: nat)
    ensures r > 0
  {
    if n == 0 then 1 else 2 * Pow2(n - 1)
  }

  // ---------------------------------------------------------------------------------------
  // Python strings
  // ---------------------------------------------------------------------------------------

  /** The characters `str.strip()` and `str.rstrip()` remove: Python's Unicode whitespace. */
  predicate IsSpace(c: char) {
    var n := c as int;
    9 <= n <= 13 || 28 <= n <= 32 || n == 0x85 || n == 0xA0 || n == 0x1680 || 0x2000 <= n <= 0x200A
    || n == 0x2028 || n == 0x2029 || n == 0x202F || n == 0x205F || n == 0x3000
  }

  /** `str.rstrip()`. */
  function RStrip(s: string): string {
    if s != [] && IsSpace(s[|s| - 1]) then RStrip(s[..|s| - 1]) else s
  }

  /** `str.lstrip()`. */
  function LStrip(s: string): string {
    if s != [] && IsSpace(s[0]) then LStrip(s[1..]) else s
  }

  /** `str.strip()`. */
  function Strip(s: string): string {
    LStrip(RStrip(s))
  }

  predicate Blank(s: string) {
    forall i | 0 <= i < |s| :: IsSpace(s[i])
  }

  /** What `rstrip` means: a prefix that ends in no whitespace, and only whitespace is cut. */
  lemma {:induction false} RStripMeaning(s: string)
    ensures RStrip(s) <= s
    ensures Blank(s[|RStrip(s)|..])
    ensures RStrip(s) != [] ==> !IsSpace(RStrip(s)[|RStrip(s)| - 1])
  {
    if s != [] && IsSpace(s[|s| - 1]) {
      RStripMeaning(s[..|s| - 1]);
      var k := |RStrip(s)|;
      forall i | 0 <= i < |s[k..]| ensures IsSpace(s[k..][i]) {
        if i < |s| - 1 - k {
          assert s[k..][i] == s[..|s| - 1][k..][i];
        }
      }
    }
  }

  /** `line.strip()` is falsy exactly on blank lines. */
  lemma {:induction false} StripEmptyIffBlank(s: string)
    ensures Strip(s) == [] <==> Blank(s)
  {
    RStripMeaning(s);
    LStripEmptyIffBlank(RStrip(s));
    var k := |RStrip(s)|;
    if Blank(RStrip(s)) {
      assert k == 0;
      assert s[k..] == s;
    } else {
      var i :| 0 <= i < k && !IsSpace(RStrip(s)[i]);
      assert s[i] == RStrip(s)[i];
    }
  }

  lemma {:induction false} LStripEmptyIffBlank(s: string)
    ensures LStrip(s) == [] <==> Blank(s)
  {
    if s != [] && IsSpace(s[0]) {
      LStripEmptyIffBlank(s[1..]);
      if Blank(s[1..]) {
        forall i | 0 <= i < |s| ensures IsSpace(s[i]) {
          if i > 0 { assert s[i] == s[1..][i - 1]; }
        }
      } else {
        var i :| 0 <= i < |s[1..]| && !IsSpace(s[1..][i]);
        assert !IsSpace(s[i + 1]);
      }
    }
  }

  lemma {:induction false} LStripMeaning(s: string) returns (i: nat)
    ensures i <= |s| && LStrip(s) == s[i..] && Blank(s[..i]) && (i < |s| ==> !IsSpace(s[i]))
  {
    i := 0;
    if s != [] && IsSpace(s[0]) {
      var k := LStripMeaning(s[1..]);
      i := k + 1;
      forall m | 0 <= m < i ensures IsSpace(s[m]) {
        if m > 0 { assert s[m] == s[1..][..k][m - 1]; }
      }
    }
  }

  /** What `strip` means: the part between the whitespace at both ends. */
  lemma StripMeaning(s: string) returns (i: nat, j: nat)
    ensures i <= j <= |s| && Strip(s) == s[i..j] && Blank(s[..i]) && Blank(s[j..])
    ensures i < j ==> !IsSpace(s[i]) && !IsSpace(s[j - 1])
  {
    RStripMeaning(s);
    var front := RStrip(s);
    j := |front|;
    i := LStripMeaning(front);
    PartOf(s, front, i);
  }

  lemma PartOf(s: string, front: string, i: nat)
    requires front <= s && i <= |front|
    ensures front[i..] == s[i..|front|] && front[..i] == s[..i]
    ensures i < |front| ==> front[i] == s[i] && front[|front| - 1] == s[|front| - 1]
  {}

  /** Some characters that are whitespace, and all printable ASCII, which is not. */
  lemma Spaces(c: char)
    ensures IsSpace(' ') && IsSpace('\t') && IsSpace('\n') && IsSpace('\r')
    ensures IsSpace(0xA0 as char) && IsSpace(0x3000 as char)
    ensures '!' <= c <= '~' ==> !IsSpace(c)
  {}
}
