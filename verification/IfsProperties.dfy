/** What field splitting keeps, undoes and limits. */
module IfsProperties {
  import opened IfsSplit

  // ------------------------------------------------------------ content

  /** The text without its IFS characters. */
  function WithoutIfs(ifs: string, s: string): string {
    if s == "" then ""
    else if IsDelimiter(ifs, s[0]) then WithoutIfs(ifs, s[1..])
    else [s[0]] + WithoutIfs(ifs, s[1..])
  }

  function Concat(fields: seq<string>): string {
    if fields == [] then "" else fields[0] + Concat(fields[1..])
  }

  predicate IfsFree(ifs: string, s: string) {
    forall i :: 0 <= i < |s| ==> !IsDelimiter(ifs, s[i])
  }

  lemma {:induction false} WithoutIfsAppend(ifs: string, a: string, b: string)
    ensures WithoutIfs(ifs, a + b) == WithoutIfs(ifs, a) + WithoutIfs(ifs, b)
  {
    if a == "" {
      assert a + b == b;
    } else {
      assert (a + b)[0] == a[0] && (a + b)[1..] == a[1..] + b;
      WithoutIfsAppend(ifs, a[1..], b);
    }
  }

  lemma {:induction false} WithoutIfsFree(ifs: string, s: string)
    requires IfsFree(ifs, s)
    ensures WithoutIfs(ifs, s) == s
  {
    if s != "" {
      WithoutIfsFree(ifs, s[1..]);
    }
  }

  lemma {:induction false} DropLeadingContent(ifs: string, s: string)
    ensures WithoutIfs(ifs, DropLeading(ifs, s)) == WithoutIfs(ifs, s)
  {
    if s != "" && IsIfsWhitespace(ifs, s[0]) {
      DropLeadingContent(ifs, s[1..]);
    }
  }

  lemma {:induction false} DropTrailingContent(ifs: string, s: string)
    ensures WithoutIfs(ifs, DropTrailing(ifs, s)) == WithoutIfs(ifs, s)
  {
    if s != "" && IsIfsWhitespace(ifs, s[|s| - 1]) {
      DropTrailingContent(ifs, s[..|s| - 1]);
      assert s == s[..|s| - 1] + [s[|s| - 1]];
      WithoutIfsAppend(ifs, s[..|s| - 1], [s[|s| - 1]]);
    }
  }

  lemma {:induction false} AllFieldsContent(ifs: string, t: string)
    ensures Concat(AllFields(ifs, t)) == WithoutIfs(ifs, t)
    ensures forall f :: f in AllFields(ifs, t) ==> IfsFree(ifs, f)
    decreases |t|
  {
    var k := FieldLength(ifs, t);
    var f := t[..k];
    WithoutIfsFree(ifs, f);
    if k == |t| {
      assert f == t && Concat([t]) == t + Concat([]);
    } else {
      var rest := AfterSeparator(ifs, t, k);
      assert t == f + t[k..] && t[k..][1..] == t[k + 1..];
      WithoutIfsAppend(ifs, f, t[k..]);
      DropLeadingContent(ifs, t[k + 1..]);
      assert WithoutIfs(ifs, t) == f + WithoutIfs(ifs, rest);
      AllFieldsContent(ifs, rest);
      if rest == "" && !IsIfsWhitespace(ifs, t[k]) {
        assert Concat([f]) == f + Concat([]);
      } else {
        assert ([f] + AllFields(ifs, rest))[1..] == AllFields(ifs, rest);
      }
    }
  }

  /** No field contains an IFS character, and the fields put together are the line without its IFS
      characters: splitting loses and reorders nothing else. */
  lemma {:induction false} SplitContent(ifs: string, line: string)
    ensures Concat(Split(ifs, line)) == WithoutIfs(ifs, line)
    ensures forall f :: f in Split(ifs, line) ==> IfsFree(ifs, f)
  {
    DropLeadingContent(ifs, line);
    DropTrailingContent(ifs, DropLeading(ifs, line));
    AllFieldsContent(ifs, Trim(ifs, line));
  }

  // ------------------------------------------------------------ joining and splitting again

  function Join(fields: seq<string>, c: char): string {
    if fields == [] then ""
    else if |fields| == 1 then fields[0]
    else fields[0] + [c] + Join(fields[1..], c)
  }

  /** Fields that survive being joined by `c`: free of IFS characters, and non-empty where an empty
      one would be lost. */
  predicate Joinable(ifs: string, fields: seq<string>, c: char) {
    && IsDelimiter(ifs, c)
    && (forall f :: f in fields ==> IfsFree(ifs, f))
    && (fields != [] ==> fields[|fields| - 1] != "")
    && (IsIfsWhitespace(ifs, c) ==> "" !in fields)
  }

  lemma {:induction false} JoinEnds(ifs: string, fields: seq<string>, c: char)
    requires fields != [] && Joinable(ifs, fields, c)
    ensures var j := Join(fields, c);
            && j != "" && !IsIfsWhitespace(ifs, j[0]) && !IsIfsWhitespace(ifs, j[|j| - 1])
  {
    assert fields[0] in fields && fields[|fields| - 1] in fields;
    if |fields| > 1 {
      assert fields[1..][|fields[1..]| - 1] == fields[|fields| - 1];
      assert forall f :: f in fields[1..] ==> f in fields;
      JoinEnds(ifs, fields[1..], c);
      var j, rest := Join(fields, c), Join(fields[1..], c);
      assert j[|j| - 1] == rest[|rest| - 1];
      assert j[0] == if fields[0] == "" then c else fields[0][0];
    }
  }

  lemma {:induction false} AllFieldsOfJoin(ifs: string, fields: seq<string>, c: char)
    requires fields != [] && Joinable(ifs, fields, c)
    ensures AllFields(ifs, Join(fields, c)) == fields
  {
    var f := fields[0];
    assert f in fields;
    if |fields| == 1 {
      assert FieldLength(ifs, f) == |f|;
    } else {
      var tail := fields[1..];
      assert tail[|tail| - 1] == fields[|fields| - 1];
      assert forall g :: g in tail ==> g in fields;
      AllFieldsOfJoin(ifs, tail, c);
      JoinEnds(ifs, tail, c);
      var rest := Join(tail, c);
      Peel(ifs, f, c, rest);
      assert fields == [f] + tail;
    }
  }

  /** Splitting undoes joining by any one IFS character. */
  lemma {:induction false} SplitUndoesJoin(ifs: string, fields: seq<string>, c: char)
    requires Joinable(ifs, fields, c)
    ensures Split(ifs, Join(fields, c)) == fields
  {
    if fields != [] {
      JoinEnds(ifs, fields, c);
      AllFieldsOfJoin(ifs, fields, c);
    }
  }

  // ------------------------------------------------------------ the field limit

  ghost predicate IsSuffix(s: string, t: string) {
    |s| <= |t| && s == t[|t| - |s|..]
  }

  lemma {:induction false} SuffixTrans(a: string, b: string, c: string)
    requires IsSuffix(a, b) && IsSuffix(b, c)
    ensures IsSuffix(a, c)
  {
    assert a == b[|b| - |a|..] == c[|c| - |b|..][|b| - |a|..] == c[|c| - |a|..];
  }

  lemma {:induction false} DropLeadingSuffix(ifs: string, s: string)
    ensures IsSuffix(DropLeading(ifs, s), s)
  {
    if s != "" && IsIfsWhitespace(ifs, s[0]) {
      DropLeadingSuffix(ifs, s[1..]);
      assert IsSuffix(s[1..], s);
      SuffixTrans(DropLeading(ifs, s), s[1..], s);
    }
  }

  lemma {:induction false} AfterSeparatorSuffix(ifs: string, t: string, k: nat)
    requires k < |t| && IsDelimiter(ifs, t[k])
    ensures IsSuffix(AfterSeparator(ifs, t, k), t)
  {
    assert IsSuffix(t[k + 1..], t);
    DropLeadingSuffix(ifs, t[k + 1..]);
    SuffixTrans(AfterSeparator(ifs, t, k), t[k + 1..], t);
  }

  /** How a limited split relates to the unlimited one. */
  ghost predicate LimitedLike(limited: seq<string>, all: seq<string>, n: nat, t: string) {
    && |limited| == (if |all| < n then |all| else n)
    && (forall i :: 0 <= i < |limited| && i < n - 1 ==> limited[i] == all[i])
    && (|limited| == n >= 1 ==> IsSuffix(limited[n - 1], t))
  }

  lemma {:induction false} FieldsLimited(ifs: string, t: string, n: nat)
    requires n >= 1
    ensures LimitedLike(Fields(ifs, t, n), AllFields(ifs, t), n, t)
    decreases |t|
  {
    DropLeadingSuffix(ifs, t);
    FieldsUnfold(ifs, t, n);
    AllFieldsUnfold(ifs, t);
    hide Fields, AllFields, DropLeading, FieldLength, AfterSeparator;
    var k := FieldLength(ifs, t);
    if n > 1 && k < |t| {
      var rest := AfterSeparator(ifs, t, k);
      AfterSeparatorSuffix(ifs, t, k);
      var all := AllFields(ifs, rest);
      FieldsLimited(ifs, rest, n - 1);
      var limited := Fields(ifs, rest, n - 1);
      if !(rest == "" && !IsIfsWhitespace(ifs, t[k])) {
        if |limited| == n - 1 {
          SuffixTrans(limited[n - 2], rest, t);
        }
      }
    }
  }

  /** With a limit of n >= 1 there are as many fields as without one, but never more than n; the
      first n - 1 are the same; an n-th field is a verbatim suffix of the trimmed line; and when
      fewer than n come out, the limit changed nothing. */
  lemma {:induction false} LimitedSplit(ifs: string, line: string, n: nat)
    requires n >= 1
    ensures LimitedLike(SplitAtMost(ifs, line, n), Split(ifs, line), n, Trim(ifs, line))
    ensures |SplitAtMost(ifs, line, n)| < n ==> SplitAtMost(ifs, line, n) == Split(ifs, line)
  {
    if Trim(ifs, line) != "" {
      FieldsLimited(ifs, Trim(ifs, line), n);
    }
  }

  /** The trimmed line is a contiguous part of the line: only IFS whitespace is cut, and only from
      the two ends. */
  lemma {:induction false} TrimCutsEnds(ifs: string, line: string)
    ensures exists a, b :: 0 <= a <= b <= |line| && Trim(ifs, line) == line[a..b]
              && (forall i :: 0 <= i < a || b <= i < |line| ==> IsIfsWhitespace(ifs, line[i]))
  {
    DropLeadingCut(ifs, line);
    var s := DropLeading(ifs, line);
    DropTrailingCut(ifs, s);
    var a := |line| - |s|;
    var b := a + |Trim(ifs, line)|;
    assert Trim(ifs, line) == line[a..b];
    forall i | 0 <= i < a || b <= i < |line|
      ensures IsIfsWhitespace(ifs, line[i])
    {
      if b <= i { assert line[i] == s[i - a]; }
    }
  }

  lemma {:induction false} DropLeadingCut(ifs: string, s: string)
    ensures IsSuffix(DropLeading(ifs, s), s)
    ensures forall i :: 0 <= i < |s| - |DropLeading(ifs, s)| ==> IsIfsWhitespace(ifs, s[i])
  {
    DropLeadingSuffix(ifs, s);
    if s != "" && IsIfsWhitespace(ifs, s[0]) {
      DropLeadingCut(ifs, s[1..]);
      forall i | 0 <= i < |s| - |DropLeading(ifs, s)|
        ensures IsIfsWhitespace(ifs, s[i])
      {
        if i > 0 { assert s[i] == s[1..][i - 1]; }
      }
    }
  }

  lemma {:induction false} DropTrailingCut(ifs: string, s: string)
    ensures forall i :: |DropTrailing(ifs, s)| <= i < |s| ==> IsIfsWhitespace(ifs, s[i])
  {
    if s != "" && IsIfsWhitespace(ifs, s[|s| - 1]) {
      DropTrailingCut(ifs, s[..|s| - 1]);
    }
  }

  // ------------------------------------------------------------ the standard's separators

  /** What follows the separator that starts at `k` by section 2.6.5 of the Shell Command Language of
      POSIX.1-2017: one other IFS character with the IFS white space around it, or a white space run. */
  function AfterPosixSeparator(ifs: string, t: string, k: nat): (r: string)
    requires k < |t| && IsDelimiter(ifs, t[k])
    ensures |r| < |t|
  {
    var u := DropLeading(ifs, t[k..]);
    if u != "" && IsDelimiter(ifs, u[0]) then DropLeading(ifs, u[1..]) else u
  }

  /** The standard's fields of a trimmed line; a separator at the end adds no field. */
  function PosixFields(ifs: string, t: string): (r: seq<string>)
    decreases |t|
  {
    if t == "" then []
    else
      var k := FieldLength(ifs, t);
      if k == |t| then [t] else [t[..k]] + PosixFields(ifs, AfterPosixSeparator(ifs, t, k))
  }

  function PosixSplit(ifs: string, line: string): seq<string> {
    PosixFields(ifs, Trim(ifs, line))
  }

  /** IFS white space stands next to another IFS character at `i`. */
  predicate MixedAt(ifs: string, t: string, i: nat)
    requires i + 1 < |t|
  {
    IsDelimiter(ifs, t[i]) && IsDelimiter(ifs, t[i + 1]) && IsIfsWhitespace(ifs, t[i]) != IsIfsWhitespace(ifs, t[i + 1])
  }

  predicate HasMixed(ifs: string, t: string) {
    exists i :: 0 <= i < |t| - 1 && MixedAt(ifs, t, i)
  }

  predicate EndsTrimmed(ifs: string, t: string) {
    t != "" && !IsIfsWhitespace(ifs, t[|t| - 1])
  }

  /** Looking for mixed separators can start at any position whose predecessor begins no such pair. */
  lemma {:induction false} MixedFrom(ifs: string, t: string, k: nat)
    requires k < |t| && forall i :: 0 <= i < k ==> !MixedAt(ifs, t, i)
    ensures HasMixed(ifs, t) <==> HasMixed(ifs, t[k..])
  {
    var u := t[k..];
    if HasMixed(ifs, t) {
      var i :| 0 <= i < |t| - 1 && MixedAt(ifs, t, i);
      assert MixedAt(ifs, u, i - k);
    }
    if HasMixed(ifs, u) {
      var i :| 0 <= i < |u| - 1 && MixedAt(ifs, u, i);
      assert MixedAt(ifs, t, i + k);
    }
  }

  /** A white space run with something after it. */
  lemma {:induction false} DropRun(ifs: string, t: string, k: nat)
    requires k < |t| && EndsTrimmed(ifs, t)
    ensures var u := DropLeading(ifs, t[k..]);
      && u != "" && |u| <= |t| - k && u == t[|t| - |u|..] && !IsIfsWhitespace(ifs, u[0]) && EndsTrimmed(ifs, u)
      && forall i :: k <= i < |t| - |u| ==> IsIfsWhitespace(ifs, t[i])
  {
    var v := t[k..];
    DropLeadingCut(ifs, v);
    var u := DropLeading(ifs, v);
    assert v[|v| - 1] == t[|t| - 1];
    forall i | k <= i < |t| - |u|
      ensures IsIfsWhitespace(ifs, t[i])
    {
      assert t[i] == v[i - k];
    }
    assert t[|t| - |u|..] == v[|v| - |u|..];
  }

  /** On a trimmed line the split has at least the standard's fields: the same, unless white space
      meets another IFS character, and then more. */
  ghost predicate Compares(ifs: string, t: string) {
    && |AllFields(ifs, t)| >= |PosixFields(ifs, t)|
    && (HasMixed(ifs, t) ==> |AllFields(ifs, t)| > |PosixFields(ifs, t)|)
    && (!HasMixed(ifs, t) ==> AllFields(ifs, t) == PosixFields(ifs, t))
  }

  lemma {:induction false} ComparesWithPosix(ifs: string, t: string)
    requires EndsTrimmed(ifs, t)
    ensures Compares(ifs, t)
    decreases |t|
  {
    hide AllFields, PosixFields, HasMixed, DropLeading, FieldLength;
    var k := FieldLength(ifs, t);
    FieldEnd(ifs, t);
    AllFieldsUnfold(ifs, t);
    PosixUnfold(ifs, t);
    if k < |t| {
      if IsIfsWhitespace(ifs, t[k]) { AfterRun(ifs, t, k); } else { AfterCharacter(ifs, t, k); }
    }
  }

  lemma {:induction false} FieldEnd(ifs: string, t: string)
    ensures var k := FieldLength(ifs, t);
      && k <= |t| && (forall i :: 0 <= i < k ==> !IsDelimiter(ifs, t[i]))
      && (k < |t| ==> IsDelimiter(ifs, t[k]) && forall i :: 0 <= i < k ==> !MixedAt(ifs, t, i))
      && (k == |t| ==> !HasMixed(ifs, t))
  {
  }

  lemma {:induction false} PosixUnfold(ifs: string, t: string)
    requires t != ""
    ensures var k := FieldLength(ifs, t);
      PosixFields(ifs, t) ==
        if k == |t| then [t] else [t[..k]] + PosixFields(ifs, AfterPosixSeparator(ifs, t, k))
    ensures PosixFields(ifs, "") == []
  {
  }

  /** White space at the front of what is left makes an empty field of its own in the split. */
  lemma {:induction false} LeadingRun(ifs: string, rest: string)
    requires EndsTrimmed(ifs, rest)
    ensures var v := DropLeading(ifs, rest);
      && v != "" && EndsTrimmed(ifs, v) && |v| <= |rest|
      && AllFields(ifs, rest)
           == (if IsIfsWhitespace(ifs, rest[0]) then [""] + AllFields(ifs, v) else AllFields(ifs, v))
      && (!IsIfsWhitespace(ifs, rest[0]) ==> v == rest)
  {
    assert rest[0..] == rest;
    DropRun(ifs, rest, 0);
    if IsIfsWhitespace(ifs, rest[0]) {
      assert "" + [rest[0]] + rest[1..] == rest;
      Peel(ifs, "", rest[0], rest[1..]);
    }
  }

  /** What both splits do with a white space run after a field. */
  lemma {:induction false} RunSplits(ifs: string, t: string, k: nat)
    requires EndsTrimmed(ifs, t) && k == FieldLength(ifs, t) < |t| && IsIfsWhitespace(ifs, t[k])
    ensures var u := DropLeading(ifs, t[k..]);
      && u != "" && |u| < |t|
      && AllFields(ifs, t) == [t[..k]] + AllFields(ifs, u)
      && PosixFields(ifs, t)
           == [t[..k]] + PosixFields(ifs, if IsDelimiter(ifs, u[0]) then DropLeading(ifs, u[1..]) else u)
  {
    DropRun(ifs, t, k);
    assert t[k..] == [t[k]] + t[k + 1..];
    DropLeadingCons(ifs, t[k], t[k + 1..]);
    AllFieldsUnfold(ifs, t);
    PosixUnfold(ifs, t);
    hide AllFields, PosixFields, DropLeading, FieldLength;
  }

  lemma {:induction false} RunMixes(ifs: string, t: string, k: nat)
    requires EndsTrimmed(ifs, t) && k == FieldLength(ifs, t) < |t| && IsIfsWhitespace(ifs, t[k])
    ensures var u := DropLeading(ifs, t[k..]);
      && u != "" && EndsTrimmed(ifs, u) && !IsIfsWhitespace(ifs, u[0])
      && if IsDelimiter(ifs, u[0]) then HasMixed(ifs, t) else (HasMixed(ifs, t) <==> HasMixed(ifs, u))
  {
    DropRun(ifs, t, k);
    FieldEnd(ifs, t);
    hide HasMixed, DropLeading, FieldLength;
    var u := DropLeading(ifs, t[k..]);
    var p := |t| - |u|;
    assert p > k && t[p] == u[0];
    if IsDelimiter(ifs, u[0]) {
      MixedHere(ifs, t, p - 1);
    } else {
      MixedFrom(ifs, t, p);
    }
  }

  lemma {:induction false} AfterRun(ifs: string, t: string, k: nat)
    requires EndsTrimmed(ifs, t) && k == FieldLength(ifs, t) < |t| && IsIfsWhitespace(ifs, t[k])
    ensures Compares(ifs, t)
    decreases |t|, 0
  {
    RunSplits(ifs, t, k);
    RunMixes(ifs, t, k);
    hide AllFields, PosixFields, HasMixed, DropLeading, FieldLength, EndsTrimmed, IsIfsWhitespace;
    var u := DropLeading(ifs, t[k..]);
    if IsDelimiter(ifs, u[0]) {
      CharacterFirst(ifs, u);
    } else {
      ComparesWithPosix(ifs, u);
    }
  }

  lemma {:induction false} MixedHere(ifs: string, t: string, i: nat)
    requires i + 1 < |t| && MixedAt(ifs, t, i)
    ensures HasMixed(ifs, t)
  {
  }

  /** Another IFS character after white space ends one more, empty field. */
  lemma {:induction false} CharacterFirst(ifs: string, u: string)
    requires EndsTrimmed(ifs, u) && IsDelimiter(ifs, u[0]) && !IsIfsWhitespace(ifs, u[0])
    ensures |AllFields(ifs, u)| >= 1 + |PosixFields(ifs, DropLeading(ifs, u[1..]))|
    decreases |u|, 0
  {
    var rest := u[1..];
    assert "" + [u[0]] + rest == u;
    Peel(ifs, "", u[0], rest);
    hide AllFields, PosixFields, DropLeading;
    if rest == "" {
      NothingLeft(ifs);
    } else {
      assert rest[|rest| - 1] == u[|u| - 1];
      LeadingRun(ifs, rest);
      ComparesWithPosix(ifs, DropLeading(ifs, rest));
    }
  }

  lemma {:induction false} NothingLeft(ifs: string)
    ensures DropLeading(ifs, "") == "" && PosixFields(ifs, "") == []
  {
  }

  /** What both splits do with another IFS character after a field. */
  lemma {:induction false} CharacterSplits(ifs: string, t: string, k: nat)
    requires k == FieldLength(ifs, t) < |t| && !IsIfsWhitespace(ifs, t[k])
    ensures var rest := t[k + 1..];
      && AllFields(ifs, t) == [t[..k]] + (if rest == "" then [] else AllFields(ifs, rest))
      && PosixFields(ifs, t) == [t[..k]] + PosixFields(ifs, DropLeading(ifs, rest))
  {
    assert t[k..][1..] == t[k + 1..] && t[k..][0] == t[k];
    NothingToDrop(ifs, t[k..]);
    AllFieldsUnfold(ifs, t);
    PosixUnfold(ifs, t);
    hide AllFields, PosixFields, DropLeading, FieldLength;
  }

  lemma {:induction false} CharacterMixes(ifs: string, t: string, k: nat)
    requires k == FieldLength(ifs, t) < |t| && !IsIfsWhitespace(ifs, t[k])
    ensures if k + 1 < |t| && !IsIfsWhitespace(ifs, t[k + 1]) then HasMixed(ifs, t) <==> HasMixed(ifs, t[k + 1..])
            else HasMixed(ifs, t) <==> k + 1 < |t|
  {
    FieldEnd(ifs, t);
    hide HasMixed, FieldLength;
    if k + 1 == |t| {
      OneCharacter(ifs, t[k..]);
      MixedFrom(ifs, t, k);
    } else if IsIfsWhitespace(ifs, t[k + 1]) {
      MixedHere(ifs, t, k);
    } else {
      MixedFrom(ifs, t, k + 1);
    }
  }

  lemma {:induction false} AfterCharacter(ifs: string, t: string, k: nat)
    requires EndsTrimmed(ifs, t) && k == FieldLength(ifs, t) < |t| && !IsIfsWhitespace(ifs, t[k])
    ensures Compares(ifs, t)
    decreases |t|, 0
  {
    CharacterSplits(ifs, t, k);
    CharacterMixes(ifs, t, k);
    NothingLeft(ifs);
    hide AllFields, PosixFields, HasMixed, DropLeading, FieldLength, IsIfsWhitespace;
    var rest := t[k + 1..];
    if rest != "" {
      assert rest[|rest| - 1] == t[|t| - 1] && rest[0] == t[k + 1];
      LeadingRun(ifs, rest);
      ComparesWithPosix(ifs, DropLeading(ifs, rest));
    }
  }

  lemma {:induction false} OneCharacter(ifs: string, t: string)
    requires |t| <= 1
    ensures !HasMixed(ifs, t)
  {
  }

  /** The split is the standard's if and only if no IFS white space stands next to another IFS
      character within the trimmed line; otherwise it has more fields. */
  lemma {:induction false} PosixAgreement(ifs: string, line: string)
    ensures Split(ifs, line) == PosixSplit(ifs, line) <==> !HasMixed(ifs, Trim(ifs, line))
    ensures HasMixed(ifs, Trim(ifs, line)) ==> |Split(ifs, line)| > |PosixSplit(ifs, line)|
  {
    hide AllFields, PosixFields, HasMixed;
    var t := Trim(ifs, line);
    if t == "" {
      OneCharacter(ifs, t);
      NothingLeft(ifs);
    } else {
      ComparesWithPosix(ifs, t);
    }
  }

  /** The failing lines: IFS white space on both sides of another IFS character makes three separators,
      and so two empty fields, where the standard sees a single separator. */
  lemma {:induction false} SeparatorsDoNotMerge(ifs: string, a: string, w: char, d: char, b: string)
    requires IfsFree(ifs, a) && IfsFree(ifs, b) && a != "" && b != ""
    requires IsIfsWhitespace(ifs, w) && IsDelimiter(ifs, d) && !IsIfsWhitespace(ifs, d)
    ensures Split(ifs, a + [w] + ([d] + ([w] + b))) == [a, "", "", b]
    ensures PosixSplit(ifs, a + [w] + ([d] + ([w] + b))) == [a, b]
  {
    hide AllFields, PosixFields, Trim, DropLeading, FieldLength, IfsFree;
    var t2 := [w] + b;
    var t1 := [d] + t2;
    FreeEnds(ifs, a);
    FreeEnds(ifs, b);
    TrimIdentity(ifs, a + [w] + t1);
    SingleField(ifs, b);
    assert AllFields(ifs, t2) == ["", b] by {
      assert "" + [w] + b == t2;
      Peel(ifs, "", w, b);
    }
    assert AllFields(ifs, t1) == ["", "", b] by {
      assert "" + [d] + t2 == t1;
      Peel(ifs, "", d, t2);
    }
    assert AllFields(ifs, a + [w] + t1) == [a, "", "", b] by {
      Peel(ifs, a, w, t1);
      NothingToDrop(ifs, t1);
    }
    PosixMerges(ifs, a, w, d, b);
  }

  lemma {:induction false} PosixMerges(ifs: string, a: string, w: char, d: char, b: string)
    requires IfsFree(ifs, a) && IfsFree(ifs, b) && a != "" && b != ""
    requires IsIfsWhitespace(ifs, w) && IsDelimiter(ifs, d) && !IsIfsWhitespace(ifs, d)
    ensures PosixFields(ifs, a + [w] + ([d] + ([w] + b))) == [a, b]
  {
    var t := a + [w] + ([d] + ([w] + b));
    FieldLengthIs(ifs, a, w, [d] + ([w] + b));
    assert t[..|a|] == a && t[|a|..] == [w] + ([d] + ([w] + b)) && ([d] + ([w] + b))[1..] == [w] + b;
    DropLeadingCons(ifs, w, [d] + ([w] + b));
    DropLeadingCons(ifs, d, [w] + b);
    DropLeadingCons(ifs, w, b);
    SingleField(ifs, b);
    PosixUnfold(ifs, t);
    PosixUnfold(ifs, b);
    assert FieldLength(ifs, b) == |b|;
    hide PosixFields, FieldLength, DropLeading;
  }

  lemma {:induction false} NothingToDrop(ifs: string, t: string)
    requires t != "" && !IsIfsWhitespace(ifs, t[0])
    ensures DropLeading(ifs, t) == t
  {
  }

  lemma {:induction false} FreeEnds(ifs: string, f: string)
    requires f != "" && IfsFree(ifs, f)
    ensures !IsIfsWhitespace(ifs, f[0]) && !IsIfsWhitespace(ifs, f[|f| - 1])
    ensures IfsFree(ifs, "")
  {
  }

  lemma {:induction false} TrimIdentity(ifs: string, line: string)
    requires line != "" && !IsIfsWhitespace(ifs, line[0]) && !IsIfsWhitespace(ifs, line[|line| - 1])
    ensures Trim(ifs, line) == line
  {
  }

  lemma {:induction false} SingleField(ifs: string, f: string)
    requires f != "" && IfsFree(ifs, f)
    ensures AllFields(ifs, f) == [f] && DropLeading(ifs, f) == f
  {
    assert FieldLength(ifs, f) == |f|;
  }

  /** Taking one field and one separator off the front. */
  lemma {:induction false} Peel(ifs: string, f: string, c: char, u: string)
    requires IfsFree(ifs, f) && IsDelimiter(ifs, c)
    ensures AllFields(ifs, f + [c] + u) ==
              if IsIfsWhitespace(ifs, c) then [f] + AllFields(ifs, DropLeading(ifs, u))
              else if u == "" then [f] else [f] + AllFields(ifs, u)
  {
    var t := f + [c] + u;
    FieldLengthIs(ifs, f, c, u);
    assert t[|f|] == c && t[|f| + 1..] == u && t[..|f|] == f;
    AllFieldsUnfold(ifs, t);
    hide AllFields;
  }

  lemma {:induction false} AllFieldsUnfold(ifs: string, t: string)
    ensures var k := FieldLength(ifs, t);
      AllFields(ifs, t) ==
        if k == |t| then [t]
        else if AfterSeparator(ifs, t, k) == "" && !IsIfsWhitespace(ifs, t[k]) then [t[..k]]
        else [t[..k]] + AllFields(ifs, AfterSeparator(ifs, t, k))
  {
  }
}
