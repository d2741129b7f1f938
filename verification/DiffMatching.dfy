/** Matching added with removed items: an item added where the same text was removed from the same file
    has only moved, and an added item with an unmatched removal in its hunk has only been edited. What is
    left was added for good. */
module DiffMatching {
  import opened ChangelogText
  import opened DiffItems

  /** A file and an item's text without white space around it. */
  type ItemKey = (string, string)

  function AddedKeys(added: seq<AddedItem>): (r: seq<ItemKey>)
    ensures |r| == |added|
  {
    seq(|added|, i requires 0 <= i < |added| => (added[i].path, Trim(added[i].text)))
  }

  function RemovedKeys(removed: seq<RemovedItem>): (r: seq<ItemKey>)
    ensures |r| == |removed|
  {
    seq(|removed|, i requires 0 <= i < |removed| => (removed[i].path, Trim(removed[i].text)))
  }

  // ------------------------------------------------------------ counting

  /** How many of the first `n` entries are `k`. */
  function Occurrences<K(==)>(keys: seq<K>, k: K, n: nat): (c: nat)
    requires n <= |keys|
    ensures c <= n
  {
    if n == 0 then 0 else Occurrences(keys, k, n - 1) + if keys[n - 1] == k then 1 else 0
  }

  /** Which entries are paired with one of the other side: of each key, the first ones, as many as the other
      side has. */
  function Paired<K(==)>(keys: seq<K>, others: seq<K>): (r: seq<bool>)
    ensures |r| == |keys|
  {
    seq(|keys|, i requires 0 <= i < |keys| => Occurrences(keys, keys[i], i) < Occurrences(others, keys[i], |others|))
  }

  /** The paired entries of one key. */
  function PairedOf<K(==)>(keys: seq<K>, others: seq<K>, k: K, n: nat): nat
    requires n <= |keys|
  {
    if n == 0 then 0
    else PairedOf(keys, others, k, n - 1) + if keys[n - 1] == k && Paired(keys, others)[n - 1] then 1 else 0
  }

  function Min(a: nat, b: nat): nat {
    if a <= b then a else b
  }

  /** Of each key as many entries are paired as both sides have: so the same number on either side. */
  lemma {:induction false} PairsAreTheMinimum<K>(keys: seq<K>, others: seq<K>, k: K, n: nat)
    requires n <= |keys|
    ensures PairedOf(keys, others, k, n) == Min(Occurrences(keys, k, n), Occurrences(others, k, |others|))
    decreases n
  {
    if n > 0 {
      PairsAreTheMinimum(keys, others, k, n - 1);
    }
  }

  /** Both sides have every key equally often: then every entry is paired. */
  lemma {:induction false} PermutedArePaired<K>(keys: seq<K>, others: seq<K>, i: nat)
    requires i < |keys|
    requires forall k :: Occurrences(keys, k, |keys|) == Occurrences(others, k, |others|)
    ensures Paired(keys, others)[i]
  {
    LaterOccurrence(keys, i, |keys|);
  }

  lemma {:induction false} LaterOccurrence<K>(keys: seq<K>, i: nat, n: nat)
    requires i < n <= |keys|
    ensures Occurrences(keys, keys[i], i) < Occurrences(keys, keys[i], n)
    decreases n
  {
    if i < n - 1 {
      LaterOccurrence(keys, i, n - 1);
    }
  }

  // ------------------------------------------------------------ what is promotable

  function AddedHunks(added: seq<AddedItem>): (r: seq<Hunk>)
    ensures |r| == |added|
  {
    seq(|added|, i requires 0 <= i < |added| => added[i].hunk)
  }

  function RemovedHunks(removed: seq<RemovedItem>): (r: seq<Hunk>)
    ensures |r| == |removed|
  {
    seq(|removed|, i requires 0 <= i < |removed| => removed[i].hunk)
  }

  /** How many of the first `n` entries of a hunk are not paired. */
  function Unpaired(hunks: seq<Hunk>, paired: seq<bool>, h: Hunk, n: nat): (c: nat)
    requires |hunks| == |paired| && n <= |hunks|
    ensures c <= n
  {
    if n == 0 then 0 else Unpaired(hunks, paired, h, n - 1) + if hunks[n - 1] == h && !paired[n - 1] then 1 else 0
  }

  function Get(counts: map<Hunk, nat>, h: Hunk): nat {
    if h in counts then counts[h] else 0
  }

  function Excess(a: nat, b: nat): nat {
    if a >= b then a - b else 0
  }

  /** The unpaired removals of every hunk. */
  ghost predicate CountsRemovals(counts: map<Hunk, nat>, hunks: seq<Hunk>, paired: seq<bool>, n: nat)
    requires |hunks| == |paired| && n <= |hunks|
  {
    forall h :: Get(counts, h) == Unpaired(hunks, paired, h, n)
  }

  /** An unpaired addition is promotable when the unpaired removals of its hunk are used up by those before
      it. */
  ghost predicate IsPromotable(added: seq<AddedItem>, removed: seq<RemovedItem>, i: nat)
    requires i < |added|
  {
    var paired := Paired(AddedKeys(added), RemovedKeys(removed));
    var removedPaired := Paired(RemovedKeys(removed), AddedKeys(added));
    && !paired[i]
    && Unpaired(AddedHunks(added), paired, added[i].hunk, i)
       >= Unpaired(RemovedHunks(removed), removedPaired, added[i].hunk, |removed|)
  }

  /** Line `line` of file `path` begins a promotable item. */
  ghost predicate Promotes(added: seq<AddedItem>, removed: seq<RemovedItem>, n: nat, path: string, line: nat)
    requires n <= |added|
  {
    exists i :: 0 <= i < n && added[i].path == path && added[i].lineNumber == line && IsPromotable(added, removed, i)
  }

  ghost predicate Collected(lines: map<string, set<nat>>, added: seq<AddedItem>, removed: seq<RemovedItem>, n: nat)
    requires n <= |added|
  {
    && (forall path: string, line: nat :: Listed(lines, path, line) <==> Promotes(added, removed, n, path, line))
    && forall path :: path in lines ==> lines[path] != {}
  }

  predicate Listed(lines: map<string, set<nat>>, path: string, line: nat) {
    path in lines && line in lines[path]
  }

  // ------------------------------------------------------------ removals by item

  /** The positions of a key, in order. */
  function Positions(keys: seq<ItemKey>, k: ItemKey, n: nat): (r: seq<nat>)
    requires n <= |keys|
    ensures |r| == Occurrences(keys, k, n)
    ensures forall p :: 0 <= p < |r| ==> r[p] < n && keys[r[p]] == k && Occurrences(keys, k, r[p]) == p
  {
    if n == 0 then []
    else if keys[n - 1] == k then Positions(keys, k, n - 1) + [n - 1]
    else Positions(keys, k, n - 1)
  }

  ghost predicate Groups(byItem: map<ItemKey, seq<nat>>, keys: seq<ItemKey>, n: nat)
    requires n <= |keys|
  {
    && (forall k :: k in byItem ==> byItem[k] == Positions(keys, k, n))
    && forall k :: k !in byItem ==> Positions(keys, k, n) == []
  }

  lemma {:induction false} PositionsStep(keys: seq<ItemKey>, i: nat)
    requires i < |keys|
    ensures forall k :: Positions(keys, k, i + 1) == Positions(keys, k, i) + if keys[i] == k then [i] else []
  {
  }

  method GroupByItem(keys: seq<ItemKey>) returns (byItem: map<ItemKey, seq<nat>>)
    ensures Groups(byItem, keys, |keys|)
  {
    byItem := map[];
    for i := 0 to |keys|
      invariant Groups(byItem, keys, i)
    {
      var key := keys[i];
      PositionsStep(keys, i);
      if key in byItem {
        byItem := byItem[key := byItem[key] + [i]];
      } else {
        byItem := byItem[key := [i]];
      }
    }
  }

  /** After the first `n` additions, of each key that many removals are paired, the first ones. */
  ghost predicate RemovalsPaired(paired: seq<bool>, keys: seq<ItemKey>, removedKeys: seq<ItemKey>, n: nat)
    requires n <= |keys| && |paired| == |removedKeys|
  {
    forall j :: 0 <= j < |paired| ==>
      (paired[j] <==> Occurrences(removedKeys, removedKeys[j], j) < Occurrences(keys, removedKeys[j], n))
  }

  method FindUnpaired(positions: seq<nat>, paired: seq<bool>) returns (p: nat)
    requires forall q :: 0 <= q < |positions| ==> positions[q] < |paired|
    ensures p <= |positions| && (forall q :: 0 <= q < p ==> paired[positions[q]])
    ensures p < |positions| ==> !paired[positions[p]]
  {
    p := 0;
    while p < |positions| && paired[positions[p]]
      invariant p <= |positions| && forall q :: 0 <= q < p ==> paired[positions[q]]
    {
      p := p + 1;
    }
  }

  lemma {:induction false} UsedPositions(paired: seq<bool>, keys: seq<ItemKey>, removedKeys: seq<ItemKey>, i: nat)
    requires i < |keys| && |paired| == |removedKeys| && RemovalsPaired(paired, keys, removedKeys, i)
    ensures var same := Positions(removedKeys, keys[i], |removedKeys|);
      && |same| == Occurrences(removedKeys, keys[i], |removedKeys|)
      && forall q :: 0 <= q < |same| ==>
           && same[q] < |removedKeys| && removedKeys[same[q]] == keys[i]
           && Occurrences(removedKeys, keys[i], same[q]) == q
           && (paired[same[q]] <==> q < Occurrences(keys, keys[i], i))
  {
  }

  lemma {:induction false} GroupOf(byItem: map<ItemKey, seq<nat>>, keys: seq<ItemKey>, k: ItemKey)
    requires Groups(byItem, keys, |keys|)
    ensures (if k in byItem then byItem[k] else []) == Positions(keys, k, |keys|)
  {
    hide Positions;
  }

  lemma {:induction false} PairedStep(keys: seq<ItemKey>, others: seq<ItemKey>, i: nat)
    requires i < |keys|
    ensures Paired(keys, others)[..i + 1]
         == Paired(keys, others)[..i] + [Occurrences(keys, keys[i], i) < Occurrences(others, keys[i], |others|)]
  {
    hide Occurrences;
  }

  lemma {:induction false} RemovalsStart(keys: seq<ItemKey>, removedKeys: seq<ItemKey>)
    ensures RemovalsPaired(seq(|removedKeys|, _ => false), keys, removedKeys, 0)
    ensures forall paired ::
      |paired| == |removedKeys| && RemovalsPaired(paired, keys, removedKeys, |keys|) ==>
        paired == Paired(removedKeys, keys)
  {
  }

  method PairItems(keys: seq<ItemKey>, removedKeys: seq<ItemKey>)
    returns (addedPaired: seq<bool>, removedPaired: seq<bool>)
    ensures addedPaired == Paired(keys, removedKeys)
    ensures removedPaired == Paired(removedKeys, keys)
  {
    hide *;
    var removalsByItem := GroupByItem(removedKeys);
    addedPaired := [];
    removedPaired := seq(|removedKeys|, _ => false);
    RemovalsStart(keys, removedKeys);
    for i := 0 to |keys|
      invariant addedPaired == Paired(keys, removedKeys)[..i]
      invariant |removedPaired| == |removedKeys| && RemovalsPaired(removedPaired, keys, removedKeys, i)
    {
      var same := if keys[i] in removalsByItem then removalsByItem[keys[i]] else [];
      GroupOf(removalsByItem, removedKeys, keys[i]);
      UsedPositions(removedPaired, keys, removedKeys, i);
      PairedStep(keys, removedKeys, i);
      var p := FindUnpaired(same, removedPaired);
      assert p > 0 ==> removedPaired[same[p - 1]];
      if p < |same| {
        assert p == Occurrences(keys, keys[i], i);
        TakeNext(removedPaired, keys, removedKeys, i, same[p]);
        removedPaired := removedPaired[same[p] := true];
        addedPaired := addedPaired + [true];
      } else {
        TakeNone(removedPaired, keys, removedKeys, i);
        addedPaired := addedPaired + [false];
      }
    }
    assert Paired(keys, removedKeys)[..|keys|] == Paired(keys, removedKeys);
  }

  lemma {:induction false} TakeNext(paired: seq<bool>, keys: seq<ItemKey>, removedKeys: seq<ItemKey>, i: nat, j: nat)
    requires i < |keys| && |paired| == |removedKeys| && RemovalsPaired(paired, keys, removedKeys, i)
    requires j < |removedKeys| && removedKeys[j] == keys[i]
    requires Occurrences(removedKeys, keys[i], j) == Occurrences(keys, keys[i], i)
    ensures RemovalsPaired(paired[j := true], keys, removedKeys, i + 1)
  {
    forall m | 0 <= m < |paired| && removedKeys[m] == keys[i] && m != j
      ensures Occurrences(removedKeys, keys[i], m) != Occurrences(removedKeys, keys[i], j)
    {
      if m < j { LaterOccurrence(removedKeys, m, j); } else { LaterOccurrence(removedKeys, j, m); }
    }
  }

  lemma {:induction false} TakeNone(paired: seq<bool>, keys: seq<ItemKey>, removedKeys: seq<ItemKey>, i: nat)
    requires i < |keys| && |paired| == |removedKeys| && RemovalsPaired(paired, keys, removedKeys, i)
    requires Occurrences(keys, keys[i], i) >= Occurrences(removedKeys, keys[i], |removedKeys|)
    ensures RemovalsPaired(paired, keys, removedKeys, i + 1)
  {
    forall m | 0 <= m < |paired| && removedKeys[m] == keys[i]
      ensures Occurrences(removedKeys, keys[i], m) < Occurrences(removedKeys, keys[i], |removedKeys|)
    {
      LaterOccurrence(removedKeys, m, |removedKeys|);
    }
  }

  // ------------------------------------------------------------ collecting

  method CountUnpairedRemovals(hunks: seq<Hunk>, paired: seq<bool>) returns (counts: map<Hunk, nat>)
    requires |hunks| == |paired|
    ensures CountsRemovals(counts, hunks, paired, |hunks|)
  {
    counts := map[];
    for i := 0 to |hunks|
      invariant CountsRemovals(counts, hunks, paired, i)
    {
      if paired[i] {
        continue;
      }
      var key := hunks[i];
      counts := counts[key := (if key in counts then counts[key] else 0) + 1];
    }
  }

  /** What is left of a hunk's unpaired removals after the first `n` additions. */
  ghost predicate Remaining(left: map<Hunk, nat>, removals: map<Hunk, nat>, hunks: seq<Hunk>, paired: seq<bool>, n: nat)
    requires |hunks| == |paired| && n <= |hunks|
  {
    forall h :: Get(left, h) == Excess(Get(removals, h), Unpaired(hunks, paired, h, n))
  }

  lemma {:induction false} BeginCollecting(added: seq<AddedItem>, removed: seq<RemovedItem>, removals: map<Hunk, nat>,
                                           hunks: seq<Hunk>, paired: seq<bool>)
    requires |hunks| == |paired|
    ensures Remaining(removals, removals, hunks, paired, 0) && Collected(map[], added, removed, 0)
  {
  }

  lemma {:induction false} RemainingStep(left: map<Hunk, nat>, removals: map<Hunk, nat>, hunks: seq<Hunk>,
                                         paired: seq<bool>, i: nat)
    requires |hunks| == |paired| && i < |hunks| && Remaining(left, removals, hunks, paired, i)
    ensures paired[i] || Get(left, hunks[i]) == 0 ==> Remaining(left, removals, hunks, paired, i + 1)
    ensures !paired[i] && Get(left, hunks[i]) > 0 ==>
      Remaining(left[hunks[i] := Get(left, hunks[i]) - 1], removals, hunks, paired, i + 1)
  {
    UnpairedStep(hunks, paired, i);
    hide Unpaired;
  }

  lemma {:induction false} UnpairedStep(hunks: seq<Hunk>, paired: seq<bool>, i: nat)
    requires |hunks| == |paired| && i < |hunks|
    ensures forall h ::
      Unpaired(hunks, paired, h, i + 1)
        == Unpaired(hunks, paired, h, i) + if hunks[i] == h && !paired[i] then 1 else 0
  {
  }

  /** The counts decide what is promotable. */
  lemma {:induction false} CountsDecide(added: seq<AddedItem>, removed: seq<RemovedItem>, left: map<Hunk, nat>,
                                        removals: map<Hunk, nat>, i: nat)
    requires i < |added|
    requires Remaining(left, removals, AddedHunks(added), Paired(AddedKeys(added), RemovedKeys(removed)), i)
    requires CountsRemovals(removals, RemovedHunks(removed), Paired(RemovedKeys(removed), AddedKeys(added)), |removed|)
    ensures IsPromotable(added, removed, i)
      <==> !Paired(AddedKeys(added), RemovedKeys(removed))[i] && Get(left, added[i].hunk) == 0
  {
    hide Paired, Unpaired, AddedKeys, RemovedKeys;
  }

  lemma {:induction false} CollectOne(lines: map<string, set<nat>>, added: seq<AddedItem>, removed: seq<RemovedItem>,
                                      i: nat)
    requires i < |added| && Collected(lines, added, removed, i)
    ensures !IsPromotable(added, removed, i) ==> Collected(lines, added, removed, i + 1)
    ensures var a := added[i];
      IsPromotable(added, removed, i) ==>
        var known := if a.path in lines then lines[a.path] else {};
        Collected(lines[a.path := known + {a.lineNumber}], added, removed, i + 1)
  {
    hide IsPromotable, Promotes;
    var a := added[i];
    var more := lines[a.path := (if a.path in lines then lines[a.path] else {}) + {a.lineNumber}];
    forall path: string, line: nat
      ensures Promotes(added, removed, i + 1, path, line)
        <==> (Listed(lines, path, line) || (IsPromotable(added, removed, i) && a.path == path && a.lineNumber == line))
      ensures Listed(more, path, line) <==> (Listed(lines, path, line) || (a.path == path && a.lineNumber == line))
    {
      PromotesStep(added, removed, i, path, line);
    }
  }

  lemma {:induction false} PromotesStep(added: seq<AddedItem>, removed: seq<RemovedItem>, i: nat, path: string,
                                        line: nat)
    requires i < |added|
    ensures Promotes(added, removed, i + 1, path, line)
      <==> (Promotes(added, removed, i, path, line)
            || (IsPromotable(added, removed, i) && added[i].path == path && added[i].lineNumber == line))
  {
    hide IsPromotable;
  }

  method CollectPromotableAddedItemLines(diffText: string) returns (linesByPath: map<string, set<nat>>)
    ensures var st := Scan(Split(ReplaceCrLf(diffText)));
      Collected(linesByPath, st.added, st.removed, |st.added|)
  {
    hide Scan, Split, ReplaceCrLf, Trim;
    var candidates, removed := ScanDiff(diffText);
    linesByPath := CollectFrom(candidates, removed);
  }

  method CollectFrom(candidates: seq<AddedItem>, removed: seq<RemovedItem>) returns (linesByPath: map<string, set<nat>>)
    ensures Collected(linesByPath, candidates, removed, |candidates|)
  {
    hide Trim, Paired, Unpaired, Collected, Remaining, CountsRemovals, IsPromotable, AddedKeys, RemovedKeys;
    var addedPaired, removedPaired := PairItems(AddedKeys(candidates), RemovedKeys(removed));
    var hunks, removedHunks := AddedHunks(candidates), RemovedHunks(removed);
    var counts := CountUnpairedRemovals(removedHunks, removedPaired);
    ghost var removals := counts;
    linesByPath := map[];
    BeginCollecting(candidates, removed, removals, hunks, addedPaired);
    for i := 0 to |candidates|
      invariant Remaining(counts, removals, hunks, addedPaired, i)
      invariant Collected(linesByPath, candidates, removed, i)
    {
      var candidate := candidates[i];
      CollectOne(linesByPath, candidates, removed, i);
      CountsDecide(candidates, removed, counts, removals, i);
      RemainingStep(counts, removals, hunks, addedPaired, i);
      if addedPaired[i] {
        continue;
      }
      var key := candidate.hunk;
      var unpairedRemovalCount := if key in counts then counts[key] else 0;
      if unpairedRemovalCount > 0 {
        counts := counts[key := unpairedRemovalCount - 1];
        continue;
      }
      assert {} + {candidate.lineNumber} == {candidate.lineNumber};
      if candidate.path in linesByPath {
        linesByPath := linesByPath[candidate.path := linesByPath[candidate.path] + {candidate.lineNumber}];
      } else {
        linesByPath := linesByPath[candidate.path := {candidate.lineNumber}];
      }
    }
  }

  // ------------------------------------------------------------ what collecting means

  /** A diff that only moves items within files, so that every file's text of an item is added as often as it
      is removed, promotes nothing. */
  lemma {:induction false} MovedItemsAreNotPromoted(added: seq<AddedItem>, removed: seq<RemovedItem>,
                                                    lines: map<string, set<nat>>)
    requires Collected(lines, added, removed, |added|)
    requires var keys, removedKeys := AddedKeys(added), RemovedKeys(removed);
      forall k :: Occurrences(keys, k, |keys|) == Occurrences(removedKeys, k, |removedKeys|)
    ensures lines == map[]
  {
    hide Occurrences, Paired, AddedKeys, RemovedKeys;
    forall i | 0 <= i < |added|
      ensures !IsPromotable(added, removed, i)
    {
      PermutedArePaired(AddedKeys(added), RemovedKeys(removed), i);
    }
    hide IsPromotable;
    if lines != map[] {
      SomethingListed(lines);
      assert false;
    }
  }

  lemma {:induction false} SomethingListed(lines: map<string, set<nat>>)
    requires lines != map[] && forall path :: path in lines ==> lines[path] != {}
    ensures exists path: string, line: nat :: Listed(lines, path, line)
  {
    var path :| path in lines;
    var line :| line in lines[path];
    assert Listed(lines, path, line);
  }

  /** The two sides form as many pairs of each item: the smaller of its additions and its removals. */
  lemma {:induction false} PairsPerItem(added: seq<AddedItem>, removed: seq<RemovedItem>, k: ItemKey)
    ensures var keys, removedKeys := AddedKeys(added), RemovedKeys(removed);
      PairedOf(keys, removedKeys, k, |keys|) == PairedOf(removedKeys, keys, k, |removedKeys|)
        == Min(Occurrences(keys, k, |keys|), Occurrences(removedKeys, k, |removedKeys|))
  {
    PairsAreTheMinimum(AddedKeys(added), RemovedKeys(removed), k, |added|);
    PairsAreTheMinimum(RemovedKeys(removed), AddedKeys(added), k, |removed|);
  }

  /** The promotable additions of a hunk, among the first `n`. */
  ghost function PromotableIn(added: seq<AddedItem>, removed: seq<RemovedItem>, h: Hunk, n: nat): nat
    requires n <= |added|
  {
    if n == 0 then 0
    else PromotableIn(added, removed, h, n - 1)
         + if added[n - 1].hunk == h && IsPromotable(added, removed, n - 1) then 1 else 0
  }

  /** The line numbers collected for a hunk from the first `n` additions. */
  ghost function LinesIn(added: seq<AddedItem>, removed: seq<RemovedItem>, h: Hunk, n: nat): set<nat>
    requires n <= |added|
  {
    if n == 0 then {}
    else if added[n - 1].hunk == h && IsPromotable(added, removed, n - 1)
    then LinesIn(added, removed, h, n - 1) + {added[n - 1].lineNumber}
    else LinesIn(added, removed, h, n - 1)
  }

  lemma {:induction false} LinesUnfold(added: seq<AddedItem>, removed: seq<RemovedItem>, h: Hunk, n: nat)
    requires n < |added|
    ensures var promotable := added[n].hunk == h && IsPromotable(added, removed, n);
      && LinesIn(added, removed, h, n + 1)
           == LinesIn(added, removed, h, n) + (if promotable then {added[n].lineNumber} else {})
      && PromotableIn(added, removed, h, n + 1) == PromotableIn(added, removed, h, n) + if promotable then 1 else 0
  {
    hide IsPromotable;
  }

  lemma {:induction false} InLines(added: seq<AddedItem>, removed: seq<RemovedItem>, h: Hunk, n: nat, line: nat)
    requires n <= |added|
    ensures line in LinesIn(added, removed, h, n) <==>
      exists i :: 0 <= i < n && added[i].hunk == h && added[i].lineNumber == line && IsPromotable(added, removed, i)
    decreases n
  {
    hide IsPromotable;
    if n > 0 { InLines(added, removed, h, n - 1, line); }
  }

  /** Per hunk, what its unpaired additions exceed its unpaired removals by is promotable. */
  lemma {:induction false} PromotableIsTheExcess(added: seq<AddedItem>, removed: seq<RemovedItem>, h: Hunk, n: nat)
    requires n <= |added|
    ensures PromotableIn(added, removed, h, n)
         == Excess(Unpaired(AddedHunks(added), Paired(AddedKeys(added), RemovedKeys(removed)), h, n),
                   Unpaired(RemovedHunks(removed), Paired(RemovedKeys(removed), AddedKeys(added)), h, |removed|))
    decreases n
  {
    hide Paired, AddedKeys, RemovedKeys;
    if n > 0 {
      PromotableIsTheExcess(added, removed, h, n - 1);
    }
  }

  /** Where a hunk's additions are numbered upwards, each promotable one is a line of its own. */
  lemma {:induction false} LinesAreCounted(added: seq<AddedItem>, removed: seq<RemovedItem>, h: Hunk, n: nat)
    requires n <= |added| && RisesPerHunk(added)
    ensures |LinesIn(added, removed, h, n)| == PromotableIn(added, removed, h, n)
    decreases n
  {
    hide *;
    if n > 0 {
      var i, line := n - 1, added[n - 1].lineNumber;
      LinesAreCounted(added, removed, h, i);
      LinesUnfold(added, removed, h, i);
      InLines(added, removed, h, i, line);
      LaterLines(added, i);
    } else {
      NoLines(added, removed, h);
    }
  }

  lemma {:induction false} LaterLines(added: seq<AddedItem>, i: nat)
    requires i < |added| && RisesPerHunk(added)
    ensures forall j :: 0 <= j < i && added[j].hunk == added[i].hunk ==> added[j].lineNumber < added[i].lineNumber
  {
  }

  lemma {:induction false} NoLines(added: seq<AddedItem>, removed: seq<RemovedItem>, h: Hunk)
    ensures LinesIn(added, removed, h, 0) == {} && PromotableIn(added, removed, h, 0) == 0
  {
  }

  /** For a diff that lists each file once: per hunk as many lines are collected as its unpaired additions
      exceed its unpaired removals by. */
  lemma {:induction false} CollectedLinesPerHunk(diffText: string, h: Hunk)
    requires HunksOnce(Split(ReplaceCrLf(diffText)))
    ensures var st := Scan(Split(ReplaceCrLf(diffText)));
      |LinesIn(st.added, st.removed, h, |st.added|)|
        == Excess(Unpaired(AddedHunks(st.added), Paired(AddedKeys(st.added), RemovedKeys(st.removed)), h, |st.added|),
                  Unpaired(RemovedHunks(st.removed), Paired(RemovedKeys(st.removed), AddedKeys(st.added)), h,
                           |st.removed|))
  {
    hide *;
    var st := Scan(Split(ReplaceCrLf(diffText)));
    LinesRise(Split(ReplaceCrLf(diffText)));
    RisingRises(st);
    LinesAreCounted(st.added, st.removed, h, |st.added|);
    PromotableIsTheExcess(st.added, st.removed, h, |st.added|);
  }

  lemma {:induction false} RisingRises(st: DiffState)
    ensures Rising(st) ==> RisesPerHunk(st.added)
  {
  }
}
