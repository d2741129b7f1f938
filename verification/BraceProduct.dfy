/** Expanding a word: the ordered product of its pieces' lists, each the chain of its members' lists,
    and the closed form of that list, the mixed-radix digits of a position. */
module BraceProduct {
  import opened Int64
  import opened ShellVariables
  import opened BraceExpansion

  // ------------------------------------------------------------ the expansion as the code builds it

  /** Every combination of one string per list, the last list varying fastest. */
  function Product(lists: seq<seq<string>>): seq<seq<string>> {
    if lists == [] then [[]]
    else Prefixed(lists[0], Product(lists[1..]))
  }

  function Prefixed(heads: seq<string>, tails: seq<seq<string>>): seq<seq<string>> {
    if heads == [] then []
    else seq(|tails|, i requires 0 <= i < |tails| => [heads[0]] + tails[i]) + Prefixed(heads[1..], tails)
  }

  function Join(parts: seq<string>): string {
    if parts == [] then "" else parts[0] + Join(parts[1..])
  }

  function Joined(combinations: seq<seq<string>>): (r: seq<string>)
    ensures |r| == |combinations|
  {
    seq(|combinations|, i requires 0 <= i < |combinations| => Join(combinations[i]))
  }

  function Expand(pieces: seq<Piece>): seq<string>
    requires AllEnd(pieces)
    decreases pieces, 1
  {
    Joined(Product(ExpandPieces(pieces)))
  }

  function ExpandPieces(pieces: seq<Piece>): (r: seq<seq<string>>)
    requires AllEnd(pieces)
    ensures |r| == |pieces|
    decreases pieces, 0
  {
    if pieces == [] then [] else [ExpandPiece(pieces[0])] + ExpandPieces(pieces[1..])
  }

  function ExpandPiece(piece: Piece): seq<string>
    requires PieceEnds(piece)
    decreases piece, 0
  {
    match piece
    case Text(text) => [text]
    case Braces(members) => ExpandMembers(members)
  }

  function ExpandMembers(members: seq<Member>): seq<string>
    requires MembersEnd(members)
    decreases members, 0
  {
    if members == [] then [] else ExpandMember(members[0]) + ExpandMembers(members[1..])
  }

  function ExpandMember(member: Member): seq<string>
    requires MemberEnds(member)
    decreases member, 0
  {
    match member
    case NumberSequence(start, end, increment) =>
      var values := if start <= end then Up(start, end, StepOf(increment)) else DownList(start, end, StepOf(increment));
      seq(|values|, i requires 0 <= i < |values| => ToDecimal(values[i]))
    case CharSequence(first, last, increment) =>
      if first <= last then
        var places := Up(ScalarIndex(first as int), ScalarIndex(last as int), StepOf(increment));
        seq(|places|, i requires 0 <= i < |places| => CharText(ScalarAt(places[i])))
      else
        var values := CharDownList(first as int, last as int, StepOf(increment));
        seq(|values|, i requires 0 <= i < |values| => CharText(values[i]))
    case Child(pieces) => Expand(pieces)
  }

  function CharText(code: int): string {
    if IsScalar(code) then [code as char] else ""
  }

  // ------------------------------------------------------------ sums and products by arithmetic

  function Times(a: nat, b: nat): nat {
    a * b
  }

  /** The leading digit of a position, and what the lower digits make of it. */
  function Lead(k: nat, radix: nat): nat
    requires radix >= 1
  {
    k / radix
  }

  function Low(k: nat, radix: nat): (r: nat)
    requires radix >= 1
    ensures r < radix
  {
    k % radix
  }

  /** The number of strings a word stands for: a product over pieces of sums over members. */
  function Count(pieces: seq<Piece>): nat
    decreases pieces
  {
    if pieces == [] then 1 else Times(CountPiece(pieces[0]), Count(pieces[1..]))
  }

  function CountPiece(piece: Piece): nat
    decreases piece
  {
    match piece
    case Text(_) => 1
    case Braces(members) => CountMembers(members)
  }

  function CountMembers(members: seq<Member>): nat
    decreases members
  {
    if members == [] then 0 else CountMember(members[0]) + CountMembers(members[1..])
  }

  function CountMember(member: Member): nat
    decreases member
  {
    match member
    case NumberSequence(start, end, increment) => RangeCount(start, end, StepOf(increment))
    case CharSequence(first, last, increment) => CharCount(first as int, last as int, StepOf(increment))
    case Child(pieces) => Count(pieces)
  }

  /** The string at position `k`: the leading digit of `k`, with the later pieces' count as its
      radix, selects from the first piece. */
  function At(pieces: seq<Piece>, k: nat): string
    decreases pieces
  {
    if pieces == [] then ""
    else
      var radix := Count(pieces[1..]);
      if radix == 0 then ""
      else AtPiece(pieces[0], Lead(k, radix)) + At(pieces[1..], Low(k, radix))
  }

  function AtPiece(piece: Piece, k: nat): string
    decreases piece
  {
    match piece
    case Text(text) => text
    case Braces(members) => AtMembers(members, k)
  }

  function AtMembers(members: seq<Member>, k: nat): string
    decreases members
  {
    if members == [] then ""
    else if k < CountMember(members[0]) then AtMember(members[0], k)
    else AtMembers(members[1..], k - CountMember(members[0]))
  }

  function AtMember(member: Member, k: nat): string
    decreases member
  {
    match member
    case NumberSequence(start, end, increment) => ToDecimal(RangeValue(start, end, StepOf(increment), k))
    case CharSequence(first, last, increment) => CharText(CharValue(first as int, last as int, StepOf(increment), k))
    case Child(pieces) => At(pieces, k)
  }

  // ------------------------------------------------------------ the product, position by position

  lemma {:induction false} DivideSmall(k: nat, n: nat)
    requires k < n
    ensures Lead(k, n) == 0 && Low(k, n) == k
  {
  }

  lemma {:induction false} DivideShifted(k: nat, n: nat)
    requires n >= 1 && k >= n
    ensures Lead(k, n) == Lead(k - n, n) + 1 && Low(k, n) == Low(k - n, n)
  {
    OneLess(k, n);
    assert k == n * Lead(k, n) + Low(k, n);
    assert k - n == n * Lead(k - n, n) + Low(k - n, n);
  }

  lemma {:induction false} PrefixedAt(heads: seq<string>, tails: seq<seq<string>>)
    ensures |Prefixed(heads, tails)| == Times(|heads|, |tails|)
  {
    if heads != [] {
      PrefixedAt(heads[1..], tails);
      Expand1(|heads| - 1, |tails|);
    }
  }

  lemma {:induction false} PrefixedEntry(heads: seq<string>, tails: seq<seq<string>>, k: nat)
    requires k < |Prefixed(heads, tails)|
    ensures |tails| >= 1 && Lead(k, |tails|) < |heads|
    ensures Prefixed(heads, tails)[k] == [heads[Lead(k, |tails|)]] + tails[Low(k, |tails|)]
  {
    var block := seq(|tails|, i requires 0 <= i < |tails| => [heads[0]] + tails[i]);
    var rest := Prefixed(heads[1..], tails);
    assert Prefixed(heads, tails) == block + rest;
    var n := |tails|;
    if k < n {
      DivideSmall(k, n);
      assert Prefixed(heads, tails)[k] == block[k];
    } else {
      assert (block + rest)[k] == rest[k - n];
      PrefixedEntry(heads[1..], tails, k - n);
      DivideShifted(k, n);
      assert heads[1..][Lead(k - n, n)] == heads[Lead(k, n)];
    }
  }

  lemma {:induction false} JoinUnfolds(part: string, parts: seq<string>)
    ensures Join([part] + parts) == part + Join(parts)
  {
    assert ([part] + parts)[1..] == parts;
  }

  // ------------------------------------------------------------ the closed form

  /** The expansion of a word, at every nesting depth: as many strings as the product over its pieces
      of the sums over their members, and at each position the mixed-radix choice of that position. */
  lemma {:induction false} ExpansionIsMixedRadix(pieces: seq<Piece>)
    requires AllEnd(pieces)
    ensures |Expand(pieces)| == Count(pieces)
    ensures forall k :: 0 <= k < |Expand(pieces)| ==> Expand(pieces)[k] == At(pieces, k)
    decreases pieces, 1
  {
    if pieces != [] {
      ExpansionIsMixedRadix(pieces[1..]);
      PieceIsMixedRadix(pieces[0]);
      StepProduct(pieces);
      forall k | 0 <= k < |Expand(pieces)|
        ensures Expand(pieces)[k] == At(pieces, k)
      {
        EntryStep(pieces, k);
      }
    }
  }

  lemma {:induction false} StepProduct(pieces: seq<Piece>)
    requires pieces != [] && AllEnd(pieces)
    ensures Product(ExpandPieces(pieces)) == Prefixed(ExpandPiece(pieces[0]), Product(ExpandPieces(pieces[1..])))
    ensures |Expand(pieces)| == Times(|ExpandPiece(pieces[0])|, |Expand(pieces[1..])|)
  {
    var lists := ExpandPieces(pieces);
    assert lists[0] == ExpandPiece(pieces[0]);
    assert lists[1..] == ExpandPieces(pieces[1..]);
    PrefixedAt(lists[0], Product(lists[1..]));
  }

  lemma {:induction false} EntryStep(pieces: seq<Piece>, k: nat)
    requires pieces != [] && AllEnd(pieces) && k < |Expand(pieces)|
    ensures |Expand(pieces[1..])| >= 1 && Lead(k, |Expand(pieces[1..])|) < |ExpandPiece(pieces[0])|
    ensures var radix := |Expand(pieces[1..])|;
      Expand(pieces)[k] == ExpandPiece(pieces[0])[Lead(k, radix)] + Expand(pieces[1..])[Low(k, radix)]
  {
    assert AllEnd(pieces[1..]) && PieceEnds(pieces[0]);
    hide *;
    StepProduct(pieces);
    var heads, tails := ExpandPiece(pieces[0]), Product(ExpandPieces(pieces[1..]));
    ExpandUnfolds(pieces);
    ExpandUnfolds(pieces[1..]);
    PrefixedEntry(heads, tails, k);
    var radix := |tails|;
    var q, r := Lead(k, radix), Low(k, radix);
    assert Expand(pieces)[k] == Join([heads[q]] + tails[r]);
    JoinUnfolds(heads[q], tails[r]);
    assert Expand(pieces[1..])[r] == Join(tails[r]);
  }

  lemma {:induction false} ExpandUnfolds(pieces: seq<Piece>)
    requires AllEnd(pieces)
    ensures |Expand(pieces)| == |Product(ExpandPieces(pieces))|
    ensures forall k :: 0 <= k < |Expand(pieces)| ==> Expand(pieces)[k] == Join(Product(ExpandPieces(pieces))[k])
  {
  }

  lemma {:induction false} PieceIsMixedRadix(piece: Piece)
    requires PieceEnds(piece)
    ensures |ExpandPiece(piece)| == CountPiece(piece)
    ensures forall k :: 0 <= k < |ExpandPiece(piece)| ==> ExpandPiece(piece)[k] == AtPiece(piece, k)
    decreases piece, 1
  {
    if piece.Braces? {
      MembersAreChained(piece.members);
    }
  }

  lemma {:induction false} MembersAreChained(members: seq<Member>)
    requires MembersEnd(members)
    ensures |ExpandMembers(members)| == CountMembers(members)
    ensures forall k :: 0 <= k < |ExpandMembers(members)| ==> ExpandMembers(members)[k] == AtMembers(members, k)
    decreases members, 1
  {
    if members != [] {
      MemberIsListed(members[0]);
      MembersAreChained(members[1..]);
    }
  }

  lemma {:induction false} MemberIsListed(member: Member)
    requires MemberEnds(member)
    ensures |ExpandMember(member)| == CountMember(member)
    ensures forall k :: 0 <= k < |ExpandMember(member)| ==> ExpandMember(member)[k] == AtMember(member, k)
    decreases member, 1
  {
    match member
    case NumberSequence(start, end, increment) =>
      if start <= end { UpSequence(start, end, StepOf(increment)); }
    case CharSequence(first, last, increment) =>
      if first <= last { UpSequence(ScalarIndex(first as int), ScalarIndex(last as int), StepOf(increment)); }
    case Child(pieces) =>
      ExpansionIsMixedRadix(pieces);
  }

  // ------------------------------------------------------------ the last piece varies fastest

  lemma {:induction false} CountOfLast(pieces: seq<Piece>, last: Piece)
    ensures Count(pieces + [last]) == Times(Count(pieces), CountPiece(last))
    decreases |pieces|
  {
    if pieces == [] {
      assert [last][1..] == [];
    } else {
      assert (pieces + [last])[1..] == pieces[1..] + [last];
      CountOfLast(pieces[1..], last);
      Associates(CountPiece(pieces[0]), Count(pieces[1..]), CountPiece(last));
    }
  }

  lemma {:induction false} Associates(a: nat, b: nat, c: nat)
    ensures Times(a, Times(b, c)) == Times(Times(a, b), c)
  {
  }

  lemma {:induction false} DivMod(k: nat, n: nat, q: nat, r: nat)
    requires n >= 1 && r < n && k == n * q + r
    ensures Lead(k, n) == q && Low(k, n) == r
  {
    UniqueQuotient(k, n, q, r);
  }

  /** Dividing by a product is dividing by one factor and then by the other. */
  lemma {:induction false} SplitRadix(k: nat, a: nat, c: nat)
    requires a >= 1 && c >= 1
    ensures Times(a, c) >= 1
    ensures Lead(k, Times(a, c)) == Lead(Lead(k, c), a)
    ensures Lead(Low(k, Times(a, c)), c) == Low(Lead(k, c), a)
    ensures Low(Low(k, Times(a, c)), c) == Low(k, c)
  {
    var q, r := Lead(k, c), Low(k, c);
    var u, v := Lead(q, a), Low(q, a);
    LeadAndLow(k, c);
    LeadAndLow(q, a);
    hide *;
    Recompose(k, a, c, q, r, u, v);
    DivMod(k, Times(a, c), u, c * v + r);
    DivMod(c * v + r, c, v, r);
  }

  lemma {:induction false} LeadAndLow(k: nat, n: nat)
    requires n >= 1
    ensures k == n * Lead(k, n) + Low(k, n)
  {
  }

  lemma {:induction false} Recompose(k: nat, a: nat, c: nat, q: nat, r: nat, u: nat, v: nat)
    requires k == c * q + r && r < c && q == a * u + v && v < a
    ensures k == Times(a, c) * u + (c * v + r)
    ensures 0 <= c * v + r < Times(a, c)
  {
    assert c * q == c * (a * u) + c * v by { Distribute(c, a * u, v); }
    assert c * (a * u) == (a * c) * u by { Regroup(a, c, u); }
    Distribute(c, v, 1);
    Scale(c, v + 1, a);
  }

  lemma {:induction false} Distribute(c: int, x: int, y: int)
    ensures c * (x + y) == c * x + c * y
  {
  }

  lemma {:induction false} Regroup(a: int, c: int, u: int)
    ensures c * (a * u) == (a * c) * u
  {
  }

  lemma {:induction false} AtUnfolds(pieces: seq<Piece>, k: nat)
    requires pieces != [] && Count(pieces[1..]) >= 1
    ensures At(pieces, k)
         == AtPiece(pieces[0], Lead(k, Count(pieces[1..]))) + At(pieces[1..], Low(k, Count(pieces[1..])))
  {
  }

  lemma {:induction false} PositiveFactors(a: nat, b: nat)
    requires Times(a, b) >= 1
    ensures a >= 1 && b >= 1
  {
  }

  lemma {:induction false} CountUnfolds(pieces: seq<Piece>)
    ensures Count([]) == 1
    ensures pieces != [] ==> Count(pieces) == Times(CountPiece(pieces[0]), Count(pieces[1..]))
  {
  }

  lemma {:induction false} LoneLast(last: Piece, k: nat)
    requires k < Count([last])
    ensures Count([last]) == CountPiece(last)
    ensures Lead(k, CountPiece(last)) == 0 && Low(k, CountPiece(last)) == k
    ensures At([last], k) == AtPiece(last, k)
    ensures At([], 0) == ""
  {
    assert [last][1..] == [];
    assert Count([last]) == Times(CountPiece(last), 1);
    DivideSmall(k, CountPiece(last));
    assert At([last], k) == AtPiece(last, Lead(k, 1)) + At([], Low(k, 1));
  }

  /** The last piece takes the lowest digit of a position, and the pieces before it the rest. */
  lemma {:induction false} LastPieceVariesFastest(pieces: seq<Piece>, last: Piece, k: nat)
    requires k < Count(pieces + [last])
    ensures Count(pieces) >= 1 && CountPiece(last) >= 1
    ensures At(pieces + [last], k) == At(pieces, Lead(k, CountPiece(last))) + AtPiece(last, Low(k, CountPiece(last)))
    decreases |pieces|
  {
    hide *;
    CountOfLast(pieces, last);
    PositiveFactors(Count(pieces), CountPiece(last));
    CountUnfolds(pieces);
    if pieces == [] {
      assert [] + [last] == [last];
      LoneLast(last, k);
    } else {
      var c, rest := CountPiece(last), pieces[1..];
      var radix := Count(rest);
      PositiveFactors(CountPiece(pieces[0]), radix);
      CountOfLast(rest, last);
      SplitRadix(k, radix, c);
      assert (pieces + [last])[1..] == rest + [last];
      AtUnfolds(pieces + [last], k);
      AtUnfolds(pieces, Lead(k, c));
      LastPieceVariesFastest(rest, last, Low(k, Times(radix, c)));
    }
  }
}
