/** Where the fields of a line stand: where each begins and ends, and what lies between two of them. */
module IfsPlaces {
  import opened IfsSplit

  /** A space, tab or line feed that is in IFS. */
  ghost predicate IsBlank(ifs: string, c: char) {
    c in ifs && c in [' ', '\t', '\n']
  }

  /** All blanks from `e`, and no more, end at `s`. */
  ghost predicate BlanksUpTo(ifs: string, t: string, e: nat, s: nat) {
    && e <= s <= |t| && (forall i :: e <= i < s ==> IsBlank(ifs, t[i]))
    && (s < |t| ==> !IsBlank(ifs, t[s]))
  }

  /** The separator from `e` up to `s`: all the blanks there, or one other character of IFS. */
  ghost predicate SeparatorAt(ifs: string, t: string, e: nat, s: nat) {
    && e < s <= |t| && t[e] in ifs
    && (if IsBlank(ifs, t[e]) then BlanksUpTo(ifs, t, e, s) else s == e + 1)
  }

  /** A field that begins at `s` follows one that ends at `e`: right after the separator, and if it is the
      last one permitted, after the blanks that follow it. */
  ghost predicate Follows(ifs: string, t: string, e: nat, s: nat, isLast: bool) {
    exists m :: SeparatorAt(ifs, t, e, m) && if isLast then BlanksUpTo(ifs, t, m, s) else s == m
  }

  /** The fields of `t` from position `at` on, of which no more than `n` are permitted. A field that is not
      the `n`-th has no character of IFS; the `n`-th has everything up to the end. Fewer fields than that
      end with the text, or right before one character of IFS that is the last of it. */
  ghost predicate StandAt(ifs: string, t: string, n: nat, fields: seq<string>, starts: seq<nat>, ends: seq<nat>) {
    && |starts| == |ends| == |fields| <= n
    && (forall k :: 0 <= k < |fields| ==> FieldAt(t, fields[k], starts[k], ends[k]))
    && (forall k :: 0 < k < |fields| ==> Follows(ifs, t, ends[k - 1], starts[k], k + 1 == n))
    && (forall k :: 0 <= k < |fields| && k + 1 < n ==> HasNone(ifs, fields[k]))
    && (fields != [] ==> EndsText(ifs, t, ends[|fields| - 1], |fields| < n))
  }

  ghost predicate HasNone(ifs: string, field: string) {
    forall c :: c in field ==> c !in ifs
  }

  ghost predicate EndsText(ifs: string, t: string, end: nat, fewer: bool) {
    end == |t| || (fewer && end + 1 == |t| && t[end] in ifs && !IsBlank(ifs, t[end]))
  }

  ghost predicate FieldAt(t: string, field: string, start: nat, end: nat) {
    start <= end <= |t| && field == t[start..end]
  }

  lemma {:induction false} DroppedBlanks(ifs: string, t: string, at: nat) returns (s: nat)
    requires at <= |t|
    ensures BlanksUpTo(ifs, t, at, s) && DropLeading(ifs, t[at..]) == t[s..]
    decreases |t| - at
  {
    if at < |t| && IsIfsWhitespace(ifs, t[at]) {
      assert t[at..][0] == t[at] && t[at..][1..] == t[at + 1..];
      s := DroppedBlanks(ifs, t, at + 1);
      assert IsBlank(ifs, t[at]);
    } else {
      s := at;
      assert at < |t| ==> t[at..][0] == t[at];
    }
  }

  lemma {:induction false} AfterSeparatorAt(ifs: string, t: string, at: nat, k: nat) returns (s: nat)
    requires at + k < |t| && IsDelimiter(ifs, t[at + k])
    ensures SeparatorAt(ifs, t, at + k, s)
    ensures AfterSeparator(ifs, t[at..], k) == t[s..]
    ensures IsIfsWhitespace(ifs, t[at + k]) <==> IsBlank(ifs, t[at + k])
  {
    assert t[at..][k] == t[at + k] && t[at..][k + 1..] == t[at + k + 1..];
    if IsIfsWhitespace(ifs, t[at + k]) {
      s := DroppedBlanks(ifs, t, at + k + 1);
    } else {
      s := at + k + 1;
    }
  }

  lemma {:induction false} OneField(ifs: string, t: string, n: nat, start: nat, end: nat)
    requires start <= end <= |t| && n >= 1
    requires EndsText(ifs, t, end, n > 1) && (n > 1 ==> HasNone(ifs, t[start..end]))
    ensures StandAt(ifs, t, n, [t[start..end]], [start], [end])
  {
    hide EndsText, HasNone;
  }

  lemma {:induction false} FieldsFrom(ifs: string, t: string, at: nat, n: nat)
      returns (starts: seq<nat>, ends: seq<nat>)
    requires at <= |t| && n >= 1
    ensures starts != [] && StandAt(ifs, t, n, Fields(ifs, t[at..], n), starts, ends)
    ensures if n > 1 then starts[0] == at else BlanksUpTo(ifs, t, at, starts[0])
    decreases |t| - at
  {
    hide Fields, StandAt, AfterSeparator, BlanksUpTo, SeparatorAt, Follows;
    var k := FieldLength(ifs, t[at..]);
    FieldsUnfold(ifs, t[at..], n);
    if n == 1 {
      var s := DroppedBlanks(ifs, t, at);
      starts, ends := [s], [|t|];
      BlanksEnd(ifs, t, at, s);
      assert t[s..|t|] == t[s..];
      OneField(ifs, t, n, s, |t|);
    } else if k == |t[at..]| {
      starts, ends := [at], [|t|];
      assert t[at..|t|] == t[at..];
      OneField(ifs, t, n, at, |t|);
    } else {
      assert t[at..][k] == t[at + k];
      assert t[at..][..k] == t[at..at + k];
      var s := AfterSeparatorAt(ifs, t, at, k);
      SeparatorEnds(ifs, t, at + k, s);
      AfterFields(ifs, t[s..], n - 1, !IsIfsWhitespace(ifs, t[at + k]));
      if t[s..] == "" && !IsIfsWhitespace(ifs, t[at + k]) {
        starts, ends := [at], [at + k];
        OneField(ifs, t, n, at, at + k);
        assert [t[at..at + k]] + [] == [t[at..at + k]];
      } else {
        var moreStarts, moreEnds := FieldsFrom(ifs, t, s, n - 1);
        starts, ends := [at] + moreStarts, [at + k] + moreEnds;
        FollowsBy(ifs, t, at + k, s, moreStarts[0], n == 2);
        FieldIs(t, at, at + k);
        StandsBefore(ifs, t, n, t[at..at + k], at, at + k, Fields(ifs, t[s..], n - 1), moreStarts, moreEnds);
      }
    }
  }

  lemma {:induction false} AfterFields(ifs: string, t: string, n: nat, afterCharacter: bool)
    ensures FieldsAfter(ifs, t, n, afterCharacter) == if t == "" && afterCharacter then [] else Fields(ifs, t, n)
  {
    hide Fields;
  }

  lemma {:induction false} BlanksEnd(ifs: string, t: string, e: nat, s: nat)
    requires BlanksUpTo(ifs, t, e, s)
    ensures e <= s <= |t|
  {
  }

  lemma {:induction false} SeparatorEnds(ifs: string, t: string, e: nat, s: nat)
    requires SeparatorAt(ifs, t, e, s)
    ensures e < s <= |t| && t[e] in ifs && (!IsBlank(ifs, t[e]) ==> s == e + 1)
  {
  }

  lemma {:induction false} FollowsBy(ifs: string, t: string, e: nat, m: nat, s: nat, isLast: bool)
    requires SeparatorAt(ifs, t, e, m) && if isLast then BlanksUpTo(ifs, t, m, s) else s == m
    ensures Follows(ifs, t, e, s, isLast)
  {
    hide SeparatorAt, BlanksUpTo;
  }

  lemma {:induction false} FieldIs(t: string, start: nat, end: nat)
    requires start <= end <= |t|
    ensures FieldAt(t, t[start..end], start, end)
  {
  }

  /** One more field in front. */
  lemma {:induction false} StandsBefore(ifs: string, t: string, n: nat, field: string, start: nat, end: nat,
                                        fields: seq<string>, starts: seq<nat>, ends: seq<nat>)
    requires n > 1 && fields != [] && StandAt(ifs, t, n - 1, fields, starts, ends)
    requires FieldAt(t, field, start, end) && HasNone(ifs, field) && Follows(ifs, t, end, starts[0], n == 2)
    ensures StandAt(ifs, t, n, [field] + fields, [start] + starts, [end] + ends)
  {
    hide Follows, HasNone, EndsText, FieldAt;
    var all, froms, tos := [field] + fields, [start] + starts, [end] + ends;
    forall k | 0 < k < |all|
      ensures FieldAt(t, all[k], froms[k], tos[k]) && (k + 1 < n ==> HasNone(ifs, all[k]))
    {
      assert FieldAt(t, fields[k - 1], starts[k - 1], ends[k - 1]);
    }
    forall k | 0 < k < |all|
      ensures Follows(ifs, t, tos[k - 1], froms[k], k + 1 == n)
    {
      LaterFollows(ifs, t, n, end, starts, ends, k);
    }
    assert tos[|all| - 1] == ends[|fields| - 1];
  }

  lemma {:induction false} LaterFollows(ifs: string, t: string, n: nat, end: nat, starts: seq<nat>, ends: seq<nat>,
                                        k: nat)
    requires 0 < k <= |starts| == |ends| && Follows(ifs, t, end, starts[0], n == 2)
    requires forall l :: 0 < l < |starts| ==> Follows(ifs, t, ends[l - 1], starts[l], l + 1 == n - 1)
    ensures Follows(ifs, t, ([end] + ends)[k - 1], starts[k - 1], k + 1 == n)
  {
    hide Follows;
    if k > 1 {
      assert Follows(ifs, t, ends[k - 2], starts[k - 1], (k - 1) + 1 == n - 1);
    }
  }

  /** A split with a limit, field by field: the first begins where the trimmed line does, each other one right
      after the separator behind the one before, and the last permitted takes the rest. */
  lemma {:induction false} FieldPlaces(ifs: string, line: string, n: nat) returns (starts: seq<nat>, ends: seq<nat>)
    requires n >= 1
    ensures StandAt(ifs, Trim(ifs, line), n, SplitAtMost(ifs, line, n), starts, ends)
    ensures Trim(ifs, line) != "" ==> starts != [] && starts[0] == 0
    ensures Trim(ifs, line) == "" ==> SplitAtMost(ifs, line, n) == []
  {
    var t := Trim(ifs, line);
    if t == "" {
      starts, ends := [], [];
    } else {
      assert t[0..] == t;
      starts, ends := FieldsFrom(ifs, t, 0, n);
      TrimmedStart(ifs, line);
      hide Fields, Trim;
    }
  }

  lemma {:induction false} TrimmedStart(ifs: string, line: string)
    requires Trim(ifs, line) != ""
    ensures !IsBlank(ifs, Trim(ifs, line)[0])
  {
    assert Trim(ifs, line)[0] == DropLeading(ifs, line)[0];
  }
}
