/** The longest stretch of lines that occurs twice, without overlap, in one block of an edit. */
module LongestRepeat {
  import opened Options

  // ------------------------------------------------------------ meaningful lines

  predicate IsSpace(c: char) {
    || '\t' <= c <= '\r' || 28 as char <= c <= ' '
    || c in {0x85 as char, 0xA0 as char, 0x1680 as char, 0x2028 as char, 0x2029 as char}
    || c in {0x202F as char, 0x205F as char, 0x3000 as char}
    || 0x2000 as char <= c <= 0x200A as char
  }

  function StripLeft(s: string): string {
    if s != "" && IsSpace(s[0]) then StripLeft(s[1..]) else s
  }

  function StripRight(s: string): string {
    if s != "" && IsSpace(s[|s| - 1]) then StripRight(s[..|s| - 1]) else s
  }

  predicate Meaningful(line: string) {
    |StripRight(StripLeft(line))| >= 4
  }

  function MeaningfulLines(lines: seq<string>): (count: nat)
    ensures count <= |lines|
  {
    if lines == [] then 0 else MeaningfulLines(lines[..|lines| - 1]) + if Meaningful(lines[|lines| - 1]) then 1 else 0
  }

  // ------------------------------------------------------------ repeats

  /** The `k` lines at `i` recur at `j`, and the two stretches do not overlap. */
  ghost predicate Recurs(block: seq<string>, i: nat, j: nat, k: nat) {
    i + k <= j && j + k <= |block| && block[i..i + k] == block[j..j + k]
  }

  /** `k` is as far as the lines at `i` recur at `j`. */
  ghost predicate Extends(block: seq<string>, i: nat, j: nat, k: nat) {
    Recurs(block, i, j, k) && !Recurs(block, i, j, k + 1)
  }

  predicate Substantial(lines: seq<string>) {
    MeaningfulLines(lines) >= Max((|lines| + 1) / 2, 2)
  }

  function Max(a: int, b: int): int {
    if a >= b then a else b
  }

  /** A pair of positions whose full extension is long enough and meaningful enough. */
  ghost predicate Candidate(block: seq<string>, minLen: nat, i: nat, j: nat, k: nat) {
    Extends(block, i, j, k) && k >= minLen && Substantial(block[i..i + k])
  }

  /** The longest of the candidates, and the earliest of the longest. */
  ghost predicate Longest(block: seq<string>, minLen: nat, best: Option<(nat, nat)>) {
    && (best.Some? ==> exists j: nat :: Candidate(block, minLen, best.value.0, j, best.value.1))
    && forall i: nat, j: nat, k: nat :: Candidate(block, minLen, i, j, k) ==> Yields(best, i, k)
  }

  /** The stretch of `k` lines at `i` gives way to the best one. */
  ghost predicate Yields(best: Option<(nat, nat)>, i: nat, k: nat) {
    best.Some? && (k < best.value.1 || (k == best.value.1 && i >= best.value.0))
  }

  /** The same among the pairs of positions that come before (`i`, `j`). */
  ghost predicate LongestBefore(block: seq<string>, minLen: nat, best: Option<(nat, nat)>, i: nat, j: nat) {
    && (best.Some? ==> exists jj: nat :: Candidate(block, minLen, best.value.0, jj, best.value.1))
    && (best.Some? ==> best.value.0 <= i)
    && forall ii: nat, jj: nat, k: nat ::
         (ii < i || (ii == i && jj < j)) && Candidate(block, minLen, ii, jj, k) ==> Yields(best, ii, k)
  }

  lemma {:induction false} RecursShorter(block: seq<string>, i: nat, j: nat, k: nat, l: nat)
    requires Recurs(block, i, j, k) && l <= k
    ensures Recurs(block, i, j, l)
  {
    assert block[i..i + l] == block[i..i + k][..l];
    assert block[j..j + l] == block[j..j + k][..l];
  }

  /** Two positions extend in one way only. */
  lemma {:induction false} ExtendsOnce(block: seq<string>, i: nat, j: nat, k: nat, l: nat)
    requires Extends(block, i, j, k) && Extends(block, i, j, l)
    ensures k == l
  {
    if k < l { RecursShorter(block, i, j, l, k + 1); }
    if l < k { RecursShorter(block, i, j, k, l + 1); }
  }

  /** No candidate begins, or has its second stretch begin, outside the ranges searched; and a short
      block has none. */
  lemma {:induction false} CandidatesInRange(block: seq<string>, minLen: nat, i: nat, j: nat, k: nat)
    requires Candidate(block, minLen, i, j, k)
    ensures |block| >= 2 * minLen && i + minLen <= j <= |block| - minLen
  {
  }

  lemma {:induction false} NoneBefore(block: seq<string>, minLen: nat)
    ensures LongestBefore(block, minLen, None, 0, minLen)
    ensures |block| < 2 * minLen ==> Longest(block, minLen, None)
  {
    forall i: nat, j: nat, k: nat | |block| < 2 * minLen || j < minLen
      ensures !Candidate(block, minLen, i, j, k)
    {
      if Candidate(block, minLen, i, j, k) {
        CandidatesInRange(block, minLen, i, j, k);
      }
    }
  }

  lemma {:induction false} Extended(block: seq<string>, i: nat, j: nat, k: nat)
    requires Recurs(block, i, j, k)
    ensures Recurs(block, i, j, k + 1) <==> i + k < j && j + k < |block| && block[i + k] == block[j + k]
  {
    if i + k < j && j + k < |block| {
      assert block[i..i + k + 1] == block[i..i + k] + [block[i + k]];
      assert block[j..j + k + 1] == block[j..j + k] + [block[j + k]];
    }
  }

  method Extension(block: seq<string>, i: nat, j: nat) returns (k: nat)
    requires i <= j <= |block|
    ensures Extends(block, i, j, k)
  {
    k := 0;
    while i + k < j && j + k < |block| && block[i + k] == block[j + k]
      invariant Recurs(block, i, j, k)
    {
      Extended(block, i, j, k);
      k := k + 1;
    }
    Extended(block, i, j, k);
  }

  method CountMeaningful(lines: seq<string>) returns (count: nat)
    ensures count == MeaningfulLines(lines)
  {
    count := 0;
    for t := 0 to |lines|
      invariant count == MeaningfulLines(lines[..t])
    {
      assert lines[..t + 1][..t] == lines[..t];
      if Meaningful(lines[t]) {
        count := count + 1;
      }
    }
    assert lines[..|lines|] == lines;
  }

  /** Whichever way the tests at (`i`, `j`) go, the best stays the best one position further on. */
  lemma {:induction false} Considered(block: seq<string>, minLen: nat, best: Option<(nat, nat)>, i: nat, j: nat, k: nat)
    requires LongestBefore(block, minLen, best, i, j) && Extends(block, i, j, k)
    ensures var good := k >= minLen && Substantial(block[i..i + k]);
      LongestBefore(block, minLen, if good && (best == None || k > best.value.1) then Some((i, k)) else best, i, j + 1)
  {
    var good := k >= minLen && Substantial(block[i..i + k]);
    var after := if good && (best == None || k > best.value.1) then Some((i, k)) else best;
    assert good <==> Candidate(block, minLen, i, j, k);
    hide Extends, Substantial;
    forall ii: nat, jj: nat, kk: nat | (ii < i || (ii == i && jj < j + 1)) && Candidate(block, minLen, ii, jj, kk)
      ensures Yields(after, ii, kk)
    {
      if ii == i && jj == j {
        ExtendsOnce(block, i, j, k, kk);
      } else {
        assert Yields(best, ii, kk);
      }
    }
  }

  /** The end of a row of pairs is the beginning of the next row. */
  lemma {:induction false} NextRow(block: seq<string>, minLen: nat, best: Option<(nat, nat)>, i: nat, j: nat)
    requires LongestBefore(block, minLen, best, i, j) && j > |block| - minLen
    ensures LongestBefore(block, minLen, best, i + 1, i + 1 + minLen)
  {
    forall ii: nat, jj: nat, k: nat
      | (ii < i + 1 || (ii == i + 1 && jj < i + 1 + minLen)) && Candidate(block, minLen, ii, jj, k)
      ensures Yields(best, ii, k)
    {
      CandidatesInRange(block, minLen, ii, jj, k);
    }
  }

  /** The first stretch that is longest among the candidates of the whole block, or None exactly if
      there is no candidate. */
  method FindLongestRepeat(block: seq<string>, minLen: nat) returns (best: Option<(nat, nat)>)
    ensures Longest(block, minLen, best)
  {
    var n := |block|;
    best := None;
    if n < 2 * minLen {
      NoneBefore(block, minLen);
      return;
    }
    NoneBefore(block, minLen);
    hide LongestBefore, Extends, Substantial, MeaningfulLines;
    for i := 0 to n - minLen + 1
      invariant LongestBefore(block, minLen, best, i, i + minLen)
    {
      var j := i + minLen;
      while j < n - minLen + 1
        invariant j >= i + minLen
        invariant LongestBefore(block, minLen, best, i, j)
        decreases n - j
      {
        var k := Extension(block, i, j);
        assert i + k <= n by { ExtensionBound(block, i, j, k); }
        Considered(block, minLen, best, i, j, k);
        j := j + 1;
        if k < minLen {
          continue;
        }
        var meaningful := CountMeaningful(block[i..i + k]);
        SubstantialMeans(block[i..i + k]);
        if meaningful < Max((k + 1) / 2, 2) {
          continue;
        }
        if best == None || k > best.value.1 {
          best := Some((i, k));
        }
      }
      NextRow(block, minLen, best, i, j);
    }
    Searched(block, minLen, best);
  }

  lemma {:induction false} ExtensionBound(block: seq<string>, i: nat, j: nat, k: nat)
    requires Extends(block, i, j, k)
    ensures i + k <= |block|
  {
  }

  lemma {:induction false} SubstantialMeans(lines: seq<string>)
    ensures Substantial(lines) <==> MeaningfulLines(lines) >= Max((|lines| + 1) / 2, 2)
  {
  }

  lemma {:induction false} Searched(block: seq<string>, minLen: nat, best: Option<(nat, nat)>)
    requires |block| >= 2 * minLen
    requires LongestBefore(block, minLen, best, |block| - minLen + 1, |block| + 1)
    ensures Longest(block, minLen, best)
  {
    forall i: nat, j: nat, k: nat | Candidate(block, minLen, i, j, k)
      ensures Yields(best, i, k)
    {
      CandidatesInRange(block, minLen, i, j, k);
    }
  }

  // ------------------------------------------------------------ what counts as meaningful

  /** White space for a text's `strip`, by code point. */
  ghost predicate IsWhite(c: char) {
    var n := c as int;
    9 <= n <= 13 || 28 <= n <= 32 || n in {0x85, 0xA0, 0x1680, 0x2028, 0x2029, 0x202F, 0x205F, 0x3000}
    || 0x2000 <= n <= 0x200A
  }

  /** From the first character that is no white space to the last, a line has at least four. */
  ghost predicate SpansFour(line: string) {
    exists i, j :: 0 <= i && i + 3 <= j < |line| && !IsWhite(line[i]) && !IsWhite(line[j])
  }

  lemma {:induction false} StripRightFour(s: string)
    ensures |StripRight(s)| >= 4 <==> exists j :: 3 <= j < |s| && !IsWhite(s[j])
    decreases |s|
  {
    if s != "" && IsSpace(s[|s| - 1]) {
      var front := s[..|s| - 1];
      StripRightFour(front);
      assert forall j :: 0 <= j < |front| ==> front[j] == s[j];
      assert IsWhite(s[|s| - 1]);
    } else if |s| > 3 {
      assert !IsWhite(s[|s| - 1]);
    }
  }

  lemma {:induction false} MeaningfulSpansFour(line: string)
    ensures Meaningful(line) <==> SpansFour(line)
    decreases |line|
  {
    if line != "" && IsSpace(line[0]) {
      var rest := line[1..];
      MeaningfulSpansFour(rest);
      assert forall i :: 0 <= i < |rest| ==> rest[i] == line[i + 1];
      if SpansFour(line) {
        var i, j :| 0 <= i && i + 3 <= j < |line| && !IsWhite(line[i]) && !IsWhite(line[j]);
        assert !IsWhite(rest[i - 1]) && !IsWhite(rest[j - 1]);
      }
      if SpansFour(rest) {
        var i, j :| 0 <= i && i + 3 <= j < |rest| && !IsWhite(rest[i]) && !IsWhite(rest[j]);
        assert !IsWhite(line[i + 1]) && !IsWhite(line[j + 1]);
      }
    } else {
      StripRightFour(line);
      if j :| 3 <= j < |line| && !IsWhite(line[j]) {
        assert !IsWhite(line[0]) && 0 + 3 <= j;
      }
    }
  }

  /** A stretch counts as substantial exactly if at least two of its lines, and at least half of them, span
      four characters. */
  lemma {:induction false} SubstantialIsHalf(lines: seq<string>)
    ensures var count := |set i | 0 <= i < |lines| && SpansFour(lines[i])|;
      Substantial(lines) <==> count >= 2 && 2 * count >= |lines|
  {
    MeaningfulCount(lines);
    hide SpansFour, Meaningful;
  }

  lemma {:induction false} MeaningfulCount(lines: seq<string>)
    ensures MeaningfulLines(lines) == |set i | 0 <= i < |lines| && SpansFour(lines[i])|
  {
    hide SpansFour, Meaningful;
    if lines != [] {
      var n := |lines| - 1;
      var front := lines[..n];
      MeaningfulCount(front);
      MeaningfulSpansFour(lines[n]);
      var marks := set i | 0 <= i < |front| && SpansFour(front[i]);
      assert (set i | 0 <= i < |lines| && SpansFour(lines[i])) == marks + (if SpansFour(lines[n]) then {n} else {});
    }
  }

  /** The best is unique: whatever satisfies the specification is what the search returns. */
  lemma {:induction false} LongestIsUnique(block: seq<string>, minLen: nat, a: Option<(nat, nat)>,
                                           b: Option<(nat, nat)>)
    requires Longest(block, minLen, a) && Longest(block, minLen, b)
    ensures a == b
  {
    if a.Some? {
      var j: nat :| Candidate(block, minLen, a.value.0, j, a.value.1);
      assert Yields(b, a.value.0, a.value.1);
    }
    if b.Some? {
      var j: nat :| Candidate(block, minLen, b.value.0, j, b.value.1);
      assert Yields(a, b.value.0, b.value.1);
    }
  }
}
