/**
 * The pieces of Python's `str` and `os.path` behaviour that the two scripts use:
 * `str.isspace`, `str.strip()`, `str.split()` with no separator, `os.path.basename`
 * (POSIX separator) and `str()` of an integer.
 */
module PyText {

  predicate IsDigit(c: char) { '0' <= c <= '9' }

  /** The characters for which Python's `str.isspace()` holds (also what `\s` matches in a str pattern). */
  predicate IsSpace(c: char) {
    c == ' ' || '\t' <= c <= '\r' || '\U{1c}' <= c <= '\U{1f}' || c == '\U{85}' || c == '\U{a0}'
    || c == '\U{1680}' || '\U{2000}' <= c <= '\U{200a}' || c == '\U{2028}' || c == '\U{2029}'
    || c == '\U{202f}' || c == '\U{205f}' || c == '\U{3000}'
  }

  predicate AllSpace(s: string) { forall i :: 0 <= i < |s| ==> IsSpace(s[i]) }

  predicate AllDigits(s: string) { forall i :: 0 <= i < |s| ==> IsDigit(s[i]) }

  predicate NoSpace(s: string) { forall i :: 0 <= i < |s| ==> !IsSpace(s[i]) }

  /** A string `str.strip()` leaves unchanged. */
  predicate IsStripped(s: string) { s == [] || (!IsSpace(s[0]) && !IsSpace(s[|s| - 1])) }

  /** Length of the longest suffix of `s` that is all whitespace. */
  function TrailingSpaceRun(s: string): (n: nat)
    ensures n <= |s| && AllSpace(s[|s| - n..])
    ensures n < |s| ==> !IsSpace(s[|s| - n - 1])
  {
    if s != [] && IsSpace(s[|s| - 1]) then
      var n := 1 + TrailingSpaceRun(s[..|s| - 1]);
      assert s[|s| - n..] == s[..|s| - 1][|s| - n..] + [s[|s| - 1]];
      n
    else 0
  }

  /** `s.strip()`: the longest middle part of `s` that neither starts nor ends with whitespace. */
  function Strip(s: string): (r: string)
    ensures exists i, j :: 0 <= i <= j <= |s| && r == s[i..j] && AllSpace(s[..i]) && AllSpace(s[j..])
    ensures IsStripped(r)
  {
    var i := SpaceRun(s);
    var n := TrailingSpaceRun(s[i..]);
    var j := |s| - n;
    assert s[j..] == s[i..][|s[i..]| - n..];
    assert i < j ==> s[j - 1] == s[i..][|s[i..]| - n - 1];
    s[i..j]
  }

  /** Stripping a string that has nothing to strip changes nothing. */
  lemma StripStripped(s: string)
    requires IsStripped(s)
    ensures Strip(s) == s
  {
    assert SpaceRun(s) == 0;
    assert s[0..] == s;
    assert TrailingSpaceRun(s) == 0;
  }

  /** `str.strip()` is idempotent. */
  lemma StripIdempotent(s: string)
    ensures Strip(Strip(s)) == Strip(s)
  {
    StripStripped(Strip(s));
  }

  /** Length of the longest prefix of `s` that is all digits. */
  function DigitRun(s: string): (n: nat)
    ensures n <= |s| && AllDigits(s[..n])
    ensures n < |s| ==> !IsDigit(s[n])
  {
    if s != [] && IsDigit(s[0]) then
      var n := 1 + DigitRun(s[1..]);
      assert s[..n] == [s[0]] + s[1..][..n - 1];
      n
    else 0
  }

  /** A run of `k` digits at the front makes the digit run at least that long. */
  lemma {:induction false} DigitRunAtLeast(s: string, k: nat)
    requires k <= |s| && AllDigits(s[..k])
    ensures DigitRun(s) >= k
  {
    if k > 0 {
      assert IsDigit(s[..k][0]);
      assert s[1..][..k - 1] == s[..k][1..];
      DigitRunAtLeast(s[1..], k - 1);
    }
  }

  /** Length of the longest prefix of `s` that is all whitespace. */
  function SpaceRun(s: string): (n: nat)
    ensures n <= |s| && AllSpace(s[..n])
    ensures n < |s| ==> !IsSpace(s[n])
  {
    if s != [] && IsSpace(s[0]) then
      var n := 1 + SpaceRun(s[1..]);
      assert s[..n] == [s[0]] + s[1..][..n - 1];
      n
    else 0
  }

  /** The longest prefix of `s` holding no whitespace. */
  function WordLength(s: string): (n: nat)
    ensures n <= |s| && NoSpace(s[..n])
    ensures n < |s| ==> IsSpace(s[n])
  {
    if s != [] && !IsSpace(s[0]) then
      var n := 1 + WordLength(s[1..]);
      assert s[..n] == [s[0]] + s[1..][..n - 1];
      n
    else 0
  }

  /** `s.split()`: the maximal runs of non-whitespace characters, in order. */
  function Split(s: string): (r: seq<string>)
    ensures forall k :: 0 <= k < |r| ==> r[k] != [] && NoSpace(r[k])
    decreases |s|
  {
    var lead := SpaceRun(s);
    var rest := s[lead..];
    if rest == [] then []
    else
      var n := WordLength(rest);
      assert n > 0 by { assert !IsSpace(rest[0]); }
      [rest[..n]] + Split(rest[n..])
  }

  /** `str.split()` breaks a word, a whitespace run and a word into exactly those two words. */
  lemma SplitTwoWords(a: string, gap: string, b: string)
    requires a != [] && NoSpace(a) && b != [] && NoSpace(b)
    requires gap != [] && AllSpace(gap)
    ensures Split(a + gap + b) == [a, b]
  {
    assert a + gap + b == a + (gap + b);
    SplitWordThen(a, gap + b);
    SplitSpaceThen(gap, b);
    SplitOneWord(b);
  }

  /** A single word with no surrounding whitespace splits into itself alone. */
  lemma SplitOneWord(w: string)
    requires w != [] && NoSpace(w)
    ensures Split(w) == [w]
  {
    SplitWordThen(w, []);
    assert w + [] == w;
  }

  /** A word at the start of the text is the first piece; splitting goes on after it. */
  lemma SplitWordThen(w: string, rest: string)
    requires w != [] && NoSpace(w) && (rest == [] || IsSpace(rest[0]))
    ensures Split(w + rest) == [w] + Split(rest)
  {
    var s := w + rest;
    SpaceRunIs([], s);
    assert [] + s == s && s[0..] == s;
    WordLengthIs(w, rest);
    assert s[..|w|] == w && s[|w|..] == rest;
  }

  /** Leading whitespace adds no piece. */
  lemma SplitSpaceThen(gap: string, rest: string)
    requires AllSpace(gap) && (rest == [] || !IsSpace(rest[0]))
    ensures Split(gap + rest) == Split(rest)
  {
    SpaceRunIs(gap, rest);
    assert (gap + rest)[|gap|..] == rest;
    SpaceRunIs([], rest);
    assert [] + rest == rest && rest[0..] == rest;
  }

  lemma SpaceRunIs(gap: string, rest: string)
    requires AllSpace(gap) && (rest == [] || !IsSpace(rest[0]))
    ensures SpaceRun(gap + rest) == |gap|
  {
    var s := gap + rest;
    assert AllSpace(s[..|gap|]) by { assert s[..|gap|] == gap; }
    assert |gap| < |s| ==> !IsSpace(s[|gap|]);
    SpaceRunExact(s, |gap|);
  }

  lemma WordLengthIs(w: string, rest: string)
    requires NoSpace(w) && (rest == [] || IsSpace(rest[0]))
    ensures WordLength(w + rest) == |w|
  {
    var s := w + rest;
    assert NoSpace(s[..|w|]) by { assert s[..|w|] == w; }
    assert |w| < |s| ==> IsSpace(s[|w|]);
    WordLengthExact(s, |w|);
  }

  lemma {:induction false} SpaceRunExact(s: string, k: nat)
    requires k <= |s| && AllSpace(s[..k]) && (k < |s| ==> !IsSpace(s[k]))
    ensures SpaceRun(s) == k
    decreases k
  {
    if k > 0 {
      assert IsSpace(s[..k][0]);
      assert s[1..][..k - 1] == s[1..k];
      SpaceRunExact(s[1..], k - 1);
    }
  }

  lemma {:induction false} WordLengthExact(s: string, k: nat)
    requires k <= |s| && NoSpace(s[..k]) && (k < |s| ==> IsSpace(s[k]))
    ensures WordLength(s) == k
    decreases k
  {
    if k > 0 {
      assert !IsSpace(s[..k][0]);
      assert s[1..][..k - 1] == s[1..k];
      WordLengthExact(s[1..], k - 1);
    }
  }

  /** The text `gaps[0] + pieces[0] + gaps[1] + ... + pieces[n - 1] + gaps[n]`. */
  function Interleave(gaps: seq<string>, pieces: seq<string>): string
    requires |gaps| == |pieces| + 1
    decreases |pieces|
  {
    if pieces == [] then gaps[0] else gaps[0] + pieces[0] + Interleave(gaps[1..], pieces[1..])
  }

  /** Pieces `str.split()` can return: non-empty words holding no whitespace. */
  predicate AreWords(pieces: seq<string>) {
    forall k :: 0 <= k < |pieces| ==> pieces[k] != [] && NoSpace(pieces[k])
  }

  /** Runs that can surround words: all whitespace, and non-empty between two words. */
  predicate AreGaps(gaps: seq<string>) {
    forall k :: 0 <= k < |gaps| ==> AllSpace(gaps[k]) && (0 < k < |gaps| - 1 ==> gaps[k] != [])
  }

  lemma InterleaveCons(g0: string, w: string, gaps: seq<string>, pieces: seq<string>)
    requires |gaps| == |pieces| + 1
    ensures Interleave([g0] + gaps, [w] + pieces) == g0 + w + Interleave(gaps, pieces)
  {
    assert ([g0] + gaps)[1..] == gaps;
    assert ([w] + pieces)[1..] == pieces;
  }

  lemma AreGapsCons(g0: string, gaps: seq<string>)
    requires AllSpace(g0) && AreGaps(gaps) && gaps != [] && (|gaps| > 1 ==> gaps[0] != [])
    ensures AreGaps([g0] + gaps)
  {
    var r := [g0] + gaps;
    forall k | 0 < k < |r| ensures r[k] == gaps[k - 1] { }
  }

  lemma AreGapsTail(gaps: seq<string>)
    requires AreGaps(gaps) && gaps != []
    ensures AreGaps(gaps[1..])
  {
    forall k | 0 <= k < |gaps[1..]| ensures gaps[1..][k] == gaps[k + 1] { }
  }

  lemma AreWordsTail(pieces: seq<string>)
    requires AreWords(pieces) && pieces != []
    ensures AreWords(pieces[1..])
  {
    forall k | 0 <= k < |pieces[1..]| ensures pieces[1..][k] == pieces[k + 1] { }
  }

  /** The whitespace runs of `s` before, between and after the pieces of `s.split()`. */
  function SplitGaps(s: string): (gaps: seq<string>)
    ensures |gaps| == |Split(s)| + 1
    ensures gaps[0] == s[..SpaceRun(s)]
    decreases |s|
  {
    var lead := SpaceRun(s);
    var rest := s[lead..];
    if rest == [] then
      assert s[..lead] == s;
      [s]
    else
      var n := WordLength(rest);
      assert n > 0 by { assert !IsSpace(rest[0]); }
      [s[..lead]] + SplitGaps(rest[n..])
  }

  /** `s` is the pieces of `s.split()` interleaved with its whitespace runs, and those runs are gaps. */
  lemma SplitGapsJoin(s: string)
    ensures AreGaps(SplitGaps(s))
    ensures Interleave(SplitGaps(s), Split(s)) == s
  {
    SplitGapsAreGaps(s);
    SplitGapsInterleave(s);
  }

  /** One step of `Split` and `SplitGaps`: the leading run, the first word, and what follows it. */
  lemma SplitStep(s: string, lead: nat, n: nat)
    requires lead == SpaceRun(s) && lead < |s| && n == WordLength(s[lead..])
    ensures n > 0
    ensures SplitGaps(s) == [s[..lead]] + SplitGaps(s[lead..][n..])
    ensures Split(s) == [s[lead..][..n]] + Split(s[lead..][n..])
    ensures s == s[..lead] + s[lead..][..n] + s[lead..][n..]
  {
    var rest := s[lead..];
    assert n > 0 by { assert !IsSpace(rest[0]); }
    ThreeParts(s, lead, n);
  }

  lemma ThreeParts(s: string, i: nat, n: nat)
    requires i + n <= |s|
    ensures s == s[..i] + s[i..][..n] + s[i..][n..]
  {
    var a, b, c := s[..i], s[i..][..n], s[i..][n..];
    assert b + c == s[i..];
    assert a + (b + c) == s;
  }

  lemma {:induction false} SplitGapsAreGaps(s: string)
    ensures AreGaps(SplitGaps(s))
    decreases |s|
  {
    var lead := SpaceRun(s);
    if lead < |s| {
      var n := WordLength(s[lead..]);
      SplitStep(s, lead, n);
      var tail := s[lead..][n..];
      var g := SplitGaps(tail);
      SplitGapsAreGaps(tail);
      assert |g| > 1 ==> g[0] != [] by {
        if |g| > 1 {
          assert tail != [];
          assert IsSpace(tail[0]);
        }
      }
      AreGapsCons(s[..lead], g);
    } else {
      assert s[..lead] == s;
    }
  }

  lemma {:induction false} SplitGapsInterleave(s: string)
    ensures Interleave(SplitGaps(s), Split(s)) == s
    decreases |s|
  {
    var lead := SpaceRun(s);
    if lead < |s| {
      var n := WordLength(s[lead..]);
      SplitStep(s, lead, n);
      var tail := s[lead..][n..];
      SplitGapsInterleave(tail);
      InterleaveCons(s[..lead], s[lead..][..n], SplitGaps(tail), Split(tail));
    } else {
      assert s[..lead] == s;
    }
  }

  /** The text after the first word of an interleaving is empty or starts with whitespace. */
  lemma InterleaveRest(gaps: seq<string>, pieces: seq<string>)
    requires |gaps| == |pieces| + 2 && AreGaps(gaps)
    ensures var rest := Interleave(gaps[1..], pieces); rest == [] || IsSpace(rest[0])
  {
    if pieces != [] {
      assert gaps[1] != [];
      assert gaps[1..][1..] == gaps[2..];
    }
  }

  /** Words joined by whitespace runs split back into those words. */
  lemma {:induction false} SplitInterleave(gaps: seq<string>, pieces: seq<string>)
    requires |gaps| == |pieces| + 1 && AreGaps(gaps) && AreWords(pieces)
    ensures Split(Interleave(gaps, pieces)) == pieces
    decreases |pieces|
  {
    if pieces == [] {
      SplitSpaceThen(gaps[0], []);
      assert gaps[0] + [] == gaps[0];
    } else {
      var rest := Interleave(gaps[1..], pieces[1..]);
      AreGapsTail(gaps);
      AreWordsTail(pieces);
      InterleaveRest(gaps, pieces[1..]);
      SplitInterleave(gaps[1..], pieces[1..]);
      SplitWordThen(pieces[0], rest);
      SplitSpaceThen(gaps[0], pieces[0] + rest);
      assert gaps[0] + pieces[0] + rest == gaps[0] + (pieces[0] + rest);
      assert pieces == [pieces[0]] + pieces[1..];
    }
  }

  /**
   * `s.split()` returns `pieces` exactly when `pieces` are words and `s` is those words
   * joined by whitespace runs, with whitespace allowed before the first and after the last.
   */
  lemma SplitExactly(s: string, pieces: seq<string>)
    ensures Split(s) == pieces <==>
      AreWords(pieces) && exists gaps :: |gaps| == |pieces| + 1 && AreGaps(gaps) && Interleave(gaps, pieces) == s
  {
    if Split(s) == pieces {
      var gaps := SplitGaps(s);
      SplitGapsJoin(s);
      assert Interleave(gaps, pieces) == s;
    }
    if AreWords(pieces) && exists gaps :: |gaps| == |pieces| + 1 && AreGaps(gaps) && Interleave(gaps, pieces) == s {
      var gaps :| |gaps| == |pieces| + 1 && AreGaps(gaps) && Interleave(gaps, pieces) == s;
      SplitInterleave(gaps, pieces);
    }
  }

  /** `s` is the word `a`, whitespace, and the word `b`, possibly with whitespace around them. */
  ghost predicate TwoWords(s: string, a: string, b: string) {
    && a != [] && NoSpace(a) && b != [] && NoSpace(b)
    && exists lead, gap, trail ::
         AllSpace(lead) && AllSpace(gap) && gap != [] && AllSpace(trail) && s == lead + a + gap + b + trail
  }

  /** `s.split()` is `[a, b]` exactly when `s` is the two words `a` and `b`. */
  lemma SplitTwo(s: string, a: string, b: string)
    ensures Split(s) == [a, b] <==> TwoWords(s, a, b)
  {
    if Split(s) == [a, b] { SplitTwoWordsOf(s, a, b); }
    if TwoWords(s, a, b) {
      var lead, gap, trail :|
        AllSpace(lead) && AllSpace(gap) && gap != [] && AllSpace(trail) && s == lead + a + gap + b + trail;
      TwoWordsSplit(lead, a, gap, b, trail);
    }
  }

  lemma InterleaveTwo(gaps: seq<string>, a: string, b: string)
    requires |gaps| == 3
    ensures Interleave(gaps, [a, b]) == gaps[0] + a + gaps[1] + b + gaps[2]
  {
    var g1, g2 := gaps[1..], gaps[2..];
    assert g1[1..] == g2 && g2[0] == gaps[2] && g1[0] == gaps[1];
    assert [a, b][1..] == [b] && [b][1..] == [];
    var t2 := Interleave(g2, []);
    assert t2 == gaps[2];
    var t1 := Interleave(g1, [b]);
    assert t1 == gaps[1] + b + t2;
    assert Interleave(gaps, [a, b]) == gaps[0] + a + t1;
    assert gaps[0] + a + (gaps[1] + b + gaps[2]) == gaps[0] + a + gaps[1] + b + gaps[2];
  }

  lemma SplitTwoWordsOf(s: string, a: string, b: string)
    requires Split(s) == [a, b]
    ensures TwoWords(s, a, b)
  {
    var gaps := SplitGaps(s);
    SplitGapsJoin(s);
    InterleaveTwo(gaps, a, b);
    assert AllSpace(gaps[0]) && AllSpace(gaps[1]) && gaps[1] != [] && AllSpace(gaps[2]);
  }

  lemma TwoWordsSplit(lead: string, a: string, gap: string, b: string, trail: string)
    requires a != [] && NoSpace(a) && b != [] && NoSpace(b)
    requires AllSpace(lead) && AllSpace(gap) && gap != [] && AllSpace(trail)
    ensures Split(lead + a + gap + b + trail) == [a, b]
  {
    var gaps := [lead, gap, trail];
    InterleaveTwo(gaps, a, b);
    SplitInterleave(gaps, [a, b]);
  }

  /** `s.split()` has two pieces exactly when `s` is two words. */
  lemma SplitHasTwo(s: string)
    ensures |Split(s)| == 2 <==> exists a, b :: TwoWords(s, a, b)
  {
    if |Split(s)| == 2 {
      assert Split(s) == [Split(s)[0], Split(s)[1]];
      SplitTwo(s, Split(s)[0], Split(s)[1]);
    }
    if exists a, b :: TwoWords(s, a, b) {
      var a, b :| TwoWords(s, a, b);
      SplitTwo(s, a, b);
    }
  }

  /** `os.path.basename(p)`: what follows the last '/' of `p` (all of `p` when it has none). */
  function BaseName(p: string): (r: string)
    ensures forall i :: 0 <= i < |r| ==> r[i] != '/'
    ensures |r| <= |p| && r == p[|p| - |r|..]
    ensures |r| < |p| ==> p[|p| - |r| - 1] == '/'
  {
    if p == [] then []
    else if p[|p| - 1] == '/' then []
    else
      var r := BaseName(p[..|p| - 1]);
      r + [p[|p| - 1]]
  }

  /** The base name of `dir/name` is `name` when `name` holds no '/'. */
  lemma {:induction false} BaseNameAfterSlash(dir: string, name: string)
    requires forall i :: 0 <= i < |name| ==> name[i] != '/'
    ensures BaseName(dir + "/" + name) == name
    decreases |name|
  {
    var p := dir + "/" + name;
    if name == [] {
      assert p[|p| - 1] == '/';
    } else {
      var init := name[..|name| - 1];
      assert p[..|p| - 1] == dir + "/" + init;
      BaseNameAfterSlash(dir, init);
      assert name == init + [name[|name| - 1]];
    }
  }

  /** A path holding no '/' is its own base name. */
  lemma {:induction false} BaseNameNoSlash(p: string)
    requires forall i :: 0 <= i < |p| ==> p[i] != '/'
    ensures BaseName(p) == p
    decreases |p|
  {
    if p != [] {
      BaseNameNoSlash(p[..|p| - 1]);
    }
  }

  /** The decimal digit for `d`. */
  function DigitChar(d: nat): (c: char)
    requires d < 10
    ensures IsDigit(c) && c as int - '0' as int == d
  {
    ('0' as int + d) as char
  }

  /** The number written by a string of ASCII digits. */
  function Value(s: string): nat
    requires AllDigits(s)
  {
    if s == [] then 0 else Value(s[..|s| - 1]) * 10 + (s[|s| - 1] as int - '0' as int)
  }

  /** `str(n)` for a non-negative integer: decimal digits that write `n`, with no leading zero. */
  function NatToText(n: nat): (r: string)
    ensures r != [] && AllDigits(r)
    ensures Value(r) == n
    ensures r[0] == '0' ==> r == "0"
    decreases n
  {
    if n < 10 then
      var r := [DigitChar(n)];
      assert r[..0] == [];
      r
    else
      var p := NatToText(n / 10);
      var r := p + [DigitChar(n % 10)];
      assert r[..|r| - 1] == p;
      r
  }

  /** `str(i)` for a Python int: its decimal digits without a leading zero, after a '-' when it is negative. */
  function IntToText(i: int): (r: string)
    ensures r != []
    ensures i >= 0 ==> AllDigits(r) && Value(r) == i && (r[0] == '0' ==> r == "0")
    ensures i < 0 ==> |r| >= 2 && r[0] == '-' && AllDigits(r[1..]) && Value(r[1..]) == -i && r[1] != '0'
  {
    if i >= 0 then NatToText(i)
    else
      var r := "-" + NatToText(-i);
      assert r[1..] == NatToText(-i);
      r
  }
}
