/** What a range writes: how many strings, and which one at each place. */
module BraceRanges {
  import opened Int64
  import opened ShellVariables
  import opened BraceExpansion
  import opened BraceProduct

  /** A word that is one range and nothing else. */
  ghost function Alone(range: Member): seq<Piece> {
    [Braces([range])]
  }

  /** The step: the increment without its sign, and one if it is zero. */
  ghost predicate IsStep(increment: i64, step: nat) {
    step == increment || step + increment == 0 || (increment == 0 && step == 1)
  }

  lemma {:induction false} StepIs(increment: i64, step: nat)
    requires IsStep(increment, step) && step > 0
    ensures StepOf(increment) == step
  {
  }

  lemma {:induction false} AloneExpands(range: Member)
    requires AllEnd(Alone(range))
    ensures |Expand(Alone(range))| == CountMember(range)
    ensures forall k :: 0 <= k < |Expand(Alone(range))| ==> Expand(Alone(range))[k] == AtMember(range, k)
  {
    var piece := Braces([range]);
    ExpansionIsMixedRadix([piece]);
    CountOne(range);
    hide Expand, AllEnd, CountMember, AtMember;
    forall k | 0 <= k < |Expand([piece])|
      ensures Expand([piece])[k] == AtMember(range, k)
    {
      LoneLast(piece, k);
      AtOne(range, k);
    }
  }

  lemma {:induction false} CountOne(range: Member)
    ensures CountPiece(Braces([range])) == CountMember(range) == Count([Braces([range])])
  {
    hide CountMember;
    assert [range][1..] == [] && CountMembers([]) == 0;
    assert CountMembers([range]) == CountMember(range) + CountMembers([range][1..]);
    assert [Braces([range])][1..] == [];
    CountUnfolds([Braces([range])]);
    CountUnfolds([]);
  }

  lemma {:induction false} AtOne(range: Member, k: nat)
    requires k < CountMember(range)
    ensures AtPiece(Braces([range]), k) == AtMember(range, k)
  {
    hide CountMember, AtMember;
  }

  lemma {:induction false} AloneEnds(range: Member)
    ensures AllEnd(Alone(range)) <==> MemberEnds(range)
  {
    hide MemberEnds;
    assert [range][1..] == [] && Alone(range)[1..] == [] && AllEnd([]) && MembersEnd([]);
    assert MembersEnd([range]) <==> MemberEnds(range) && MembersEnd([range][1..]);
    assert PieceEnds(Braces([range])) <==> MembersEnd([range]);
  }

  /** `n` strings are as many as the steps from one end fit before the other, and one. */
  ghost predicate Fits(n: nat, distance: nat, step: nat) {
    n >= 1 && (n - 1) * step <= distance < n * step
  }

  lemma {:induction false} CountFits(start: int, end: int, step: nat)
    requires step >= 1
    ensures Fits(RangeCount(start, end, step), if start <= end then end - start else start - end, step)
  {
    var d := if start <= end then end - start else start - end;
    Quotient(d, step);
    assert d == step * (d / step) + d % step;
    assert (d / step + 1) * step == step * (d / step) + step;
    assert (d / step) * step == step * (d / step);
  }

  /** A range that ascends always ends. */
  lemma {:induction false} AscendingEnds(range: Member)
    requires match range
             case NumberSequence(start, end, _) => start <= end
             case CharSequence(first, last, _) => first <= last
             case Child(_) => false
    ensures AllEnd(Alone(range))
  {
    AloneEnds(range);
    hide AllEnd;
  }

  /** A number range writes its start and every number a multiple of the step towards its end, as far as
      the end; the sign of the increment does not matter, and zero stands for one. */
  lemma {:induction false} NumbersWritten(start: i64, end: i64, increment: i64, step: nat, k: nat)
    requires IsStep(increment, step) && step > 0
    requires AllEnd(Alone(NumberSequence(start, end, increment)))
    ensures var strings := Expand(Alone(NumberSequence(start, end, increment)));
      && Fits(|strings|, if start <= end then end - start else start - end, step)
      && (k < |strings| ==> strings[k] == ToDecimal(if start <= end then start + k * step else start - k * step))
  {
    StepIs(increment, step);
    AloneExpands(NumberSequence(start, end, increment));
    CountFits(start, end, step);
    hide Expand, AllEnd, RangeCount, ToDecimal;
  }

  /** The character `steps` characters after `first`, where the surrogates are none. */
  ghost predicate IsAfter(first: char, c: char, steps: nat) {
    var a, b := first as int, c as int;
    b - a - (if a < 0xD800 && b >= 0xE000 then 0x800 else 0) == steps
  }

  /** A character range writes one character at each place: upwards the one so many characters on, downwards
      the one with a code point so much lower; and it goes on as far as its end. */
  lemma {:induction false} CharsWritten(first: char, last: char, increment: i64, step: nat, k: nat)
    requires IsStep(increment, step) && step > 0
    requires AllEnd(Alone(CharSequence(first, last, increment)))
    ensures var strings := Expand(Alone(CharSequence(first, last, increment)));
      && (first > last ==> Fits(|strings|, first as int - last as int, step))
      && (first <= last ==>
            forall distance: nat :: IsAfter(first, last, distance) ==> Fits(|strings|, distance, step))
      && (k < |strings| ==>
            && |strings[k]| == 1
            && (if first <= last then IsAfter(first, strings[k][0], k * step)
                else strings[k][0] as int == first as int - k * step))
  {
    var range := CharSequence(first, last, increment);
    StepIs(increment, step);
    AloneExpands(range);
    if first <= last {
      var a, b := ScalarIndex(first as int), ScalarIndex(last as int);
      CountFits(a, b, step);
      if k < |Expand(Alone(range))| {
        StepsWithin(k, |Expand(Alone(range))|, step);
        PlaceIs(first, last, k * step);
      }
      hide Expand, AllEnd, RangeCount, CharText;
    } else {
      CountFits(first as int, last as int, step);
      if k < |Expand(Alone(range))| {
        AloneEnds(range);
        assert IsScalar(RangeValue(first as int, last as int, step, k));
      }
      hide Expand, AllEnd, RangeCount;
    }
  }

  lemma {:induction false} StepsWithin(k: nat, n: nat, step: nat)
    requires k < n
    ensures k * step <= (n - 1) * step
  {
    Scale(step, k, n - 1);
  }

  /** Places count characters. */
  lemma {:induction false} PlaceIs(first: char, last: char, steps: nat)
    requires first <= last && ScalarIndex(first as int) + steps <= ScalarIndex(last as int)
    ensures var c := ScalarAt(ScalarIndex(first as int) + steps);
      IsScalar(c) && CharText(c) == [c as char] && IsAfter(first, c as char, steps)
  {
  }
}
