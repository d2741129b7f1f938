/** The list items of plain lines, and what adding an item below some lines does to them. */
module ChangelogTextItems {
  import opened ChangelogText
  import opened Changelog
  import opened ChangelogItems
  import opened ChangelogRoundTrip
  import opened ChangelogNormal
  import opened ChangelogPromote

  // ------------------------------------------------------------ the items of plain lines

  function NextStart(texts: seq<string>, i: nat): (k: nat)
    requires i <= |texts|
    ensures i <= k <= |texts|
    decreases |texts| - i
  {
    if i == |texts| || IsListItem(texts[i]) then i else NextStart(texts, i + 1)
  }

  function TextItems(texts: seq<string>): seq<seq<string>> {
    if texts == [] then []
    else if !IsListItem(texts[0]) then TextItems(texts[1..])
    else [TrimBlank(texts[..NextStart(texts, 1)])] + TextItems(texts[NextStart(texts, 1)..])
  }

  lemma {:induction false} TextItemsUnfold(texts: seq<string>)
    ensures TextItems(texts)
         == if texts == [] then []
            else if !IsListItem(texts[0]) then TextItems(texts[1..])
            else [TrimBlank(texts[..NextStart(texts, 1)])] + TextItems(texts[NextStart(texts, 1)..])
  {
    hide IsListItem, TrimBlank, NextStart;
  }

  lemma {:induction false} NextStartIs(lines: seq<NumberedLine>, i: nat)
    requires i <= |lines|
    ensures NextItem(lines, i) == NextStart(Texts(lines), i)
    decreases |lines| - i
  {
    hide IsListItem;
    if i < |lines| {
      NextStartIs(lines, i + 1);
    }
  }

  lemma {:induction false} ItemsAreTextItems(lines: seq<NumberedLine>)
    ensures |Items(lines)| == |TextItems(Texts(lines))|
    ensures forall i :: 0 <= i < |Items(lines)| ==> Items(lines)[i].lines == TextItems(Texts(lines))[i]
    decreases |lines|
  {
    hide IsListItem, TrimBlank, Items, TextItems, NextItem, NextStart;
    TextItemsUnfold(Texts(lines));
    if lines == [] {
      NoItems();
    } else {
      ItemsUnfold(lines);
      if IsListItem(lines[0].text) {
        NextStartIs(lines, 1);
        var k := NextItem(lines, 1);
        TextsSlice(lines, 0, k);
        TextsSlice(lines, k, |lines|);
        assert lines[0..k] == lines[..k] && Texts(lines)[0..k] == Texts(lines)[..k];
        ItemsAreTextItems(lines[k..]);
      } else {
        TextsSlice(lines, 1, |lines|);
        ItemsAreTextItems(lines[1..]);
      }
    }
  }

  predicate StartsItem(texts: seq<string>) {
    texts == [] || IsListItem(texts[0])
  }

  lemma {:induction false} NextStartConcat(a: seq<string>, b: seq<string>, i: nat)
    requires i <= |a| && StartsItem(b)
    ensures NextStart(a + b, i) == NextStart(a, i)
    decreases |a| - i
  {
    hide IsListItem;
    if i < |a| && !IsListItem(a[i]) {
      NextStartConcat(a, b, i + 1);
    }
  }

  /** Where a list item begins, the items before and from there do not depend on one another. */
  lemma {:induction false} TextItemsConcat(a: seq<string>, b: seq<string>)
    requires StartsItem(b)
    ensures TextItems(a + b) == TextItems(a) + TextItems(b)
    decreases |a|
  {
    hide IsListItem, TrimBlank, TextItems, NextStart, StartsItem;
    TextItemsUnfold(a);
    TextItemsUnfold(a + b);
    if a == [] {
      assert a + b == b;
    } else if !IsListItem(a[0]) {
      assert (a + b)[1..] == a[1..] + b;
      TextItemsConcat(a[1..], b);
    } else {
      NextStartConcat(a, b, 1);
      var k := NextStart(a, 1);
      assert (a + b)[..k] == a[..k] && (a + b)[k..] == a[k..] + b;
      TextItemsConcat(a[k..], b);
    }
  }

  lemma {:induction false} ListItemNotBlank(line: string)
    requires IsListItem(line)
    ensures !Blank(line)
  {
    FirstStays(TrimStart(line));
  }

  lemma {:induction false} NextStartBlank(a: seq<string>, line: string, i: nat)
    requires i <= |a| && !IsListItem(line)
    ensures NextStart(a + [line], i) == if NextStart(a, i) == |a| then |a| + 1 else NextStart(a, i)
    decreases |a| - i
  {
    hide IsListItem;
    if i < |a| && !IsListItem(a[i]) {
      NextStartBlank(a, line, i + 1);
    }
  }

  lemma {:induction false} TrimOneBlank(a: seq<string>, line: string)
    requires Blank(line)
    ensures TrimBlank(a + [line]) == TrimBlank(a)
    decreases |a|
  {
    hide Blank;
    if a == [] {
      assert [line][1..] == [];
    } else if Blank(a[0]) {
      assert (a + [line])[1..] == a[1..] + [line];
      TrimOneBlank(a[1..], line);
    } else {
      assert (a + [line])[..|a|] == a;
    }
  }

  /** A blank line at the end changes no item. */
  lemma {:induction false} BlankAfter(a: seq<string>, line: string)
    requires Blank(line)
    ensures TextItems(a + [line]) == TextItems(a)
    decreases |a|
  {
    hide IsListItem, TrimBlank, TextItems, NextStart, Blank;
    if IsListItem(line) { ListItemNotBlank(line); }
    TextItemsUnfold(a);
    TextItemsUnfold(a + [line]);
    TextItemsUnfold([]);
    if a == [] {
      assert a + [line] == [line] && [line][1..] == [];
    } else if !IsListItem(a[0]) {
      assert (a + [line])[1..] == a[1..] + [line];
      BlankAfter(a[1..], line);
    } else {
      NextStartBlank(a, line, 1);
      var k := NextStart(a, 1);
      assert (a + [line])[0] == a[0];
      if k == |a| {
        var b := a + [line];
        assert b[..|b|] == b && b[|b|..] == [] && a[..k] == a && a[k..] == [];
        TrimOneBlank(a, line);
        assert TextItems(b) == [TrimBlank(b)] + TextItems([]);
        assert TextItems(a) == [TrimBlank(a)] + TextItems([]);
      } else {
        assert (a + [line])[..k] == a[..k] && (a + [line])[k..] == a[k..] + [line];
        BlankAfter(a[k..], line);
      }
    }
  }

  lemma {:induction false} TrimEndItems(a: seq<string>)
    ensures TextItems(TrimBlankEnd(a)) == TextItems(a)
    decreases |a|
  {
    hide TextItems, Blank;
    if a != [] && Blank(a[|a| - 1]) {
      var front := a[..|a| - 1];
      TrimEndItems(front);
      BlankAfter(front, a[|a| - 1]);
      assert front + [a[|a| - 1]] == a;
    }
  }

  lemma {:induction false} TrimItems(a: seq<string>)
    ensures TextItems(TrimBlank(a)) == TextItems(a)
  {
    hide TextItems, Blank, TrimBlankEnd, IsListItem;
    if a != [] {
      if Blank(a[0]) {
        if IsListItem(a[0]) { ListItemNotBlank(a[0]); }
        TextItemsUnfold(a);
        TrimItems(a[1..]);
      } else {
        TrimEndItems(a);
      }
    }
  }

  // ------------------------------------------------------------ adding an item

  /** Trimmed lines of which the first, and no other, begins a list item. */
  ghost predicate IsItem(lines: seq<string>) {
    && lines != [] && TrimBlank(lines) == lines && IsListItem(lines[0])
    && forall i :: 1 <= i < |lines| ==> !IsListItem(lines[i])
  }

  lemma {:induction false} NoStartAfter(texts: seq<string>, i: nat)
    requires i <= |texts| && forall k :: i <= k < |texts| ==> !IsListItem(texts[k])
    ensures NextStart(texts, i) == |texts|
    decreases |texts| - i
  {
    hide IsListItem;
    if i < |texts| { NoStartAfter(texts, i + 1); }
  }

  lemma {:induction false} ItemAlone(lines: seq<string>)
    requires IsItem(lines)
    ensures TextItems(lines) == [lines]
  {
    hide IsListItem, TrimBlank, TextItems, NextStart;
    NoStartAfter(lines, 1);
    TextItemsUnfold(lines);
    TextItemsUnfold([]);
    assert lines[..|lines|] == lines && lines[|lines|..] == [];
  }

  lemma {:induction false} BlankBetween(existing: seq<string>)
    ensures TextItems(existing + [""]) == TextItems(existing)
  {
    EmptyLine();
    hide TextItems, Blank;
    BlankAfter(existing, "");
  }

  /** An item put below some lines is one more item there; the others stay. */
  lemma {:induction false} AppendedItems(existing: seq<string>, item: seq<string>)
    requires IsItem(item)
    ensures TextItems(AppendedTexts(existing, item)) == TextItems(existing) + [item]
  {
    hide IsListItem, TrimBlank, TextItems;
    ItemAlone(item);
    TextItemsUnfold([]);
    BlankBetween(existing);
    TextItemsConcat(existing, item);
    TextItemsConcat(existing + [""], item);
    assert existing + [] + item == existing + item;
    assert TextItems([]) + [item] == [item];
  }

  ghost predicate Contains(s: Subsection, item: seq<string>) {
    exists i :: 0 <= i < |TextItems(Texts(s.lines))| && Join(TextItems(Texts(s.lines))[i]) == Join(item)
  }

  lemma {:induction false} HasIsContains(s: Subsection, item: seq<string>)
    requires IsItem(item)
    ensures HasItem(s, item) <==> Join(item) == "" || Contains(s, item)
  {
    hide IsListItem, TrimBlank, TextItems, Items, Join, Texts;
    ItemsAreTextItems(s.lines);
  }

  lemma {:induction false} ItemNotEmpty(item: seq<string>)
    requires IsItem(item)
    ensures Join(item) != ""
  {
    ListItemNotBlank(item[0]);
    EmptyLine();
    hide IsListItem, Blank, TrimBlank;
  }

  lemma {:induction false} AppendedContains(s: Subsection, item: seq<string>, other: seq<string>)
    requires IsItem(item)
    ensures Contains(Appended(s, item), item)
    ensures Contains(s, other) ==> Contains(Appended(s, item), other)
  {
    hide *;
    var r := Appended(s, item);
    var existing, before := TrimBlank(Texts(s.lines)), TextItems(Texts(s.lines));
    AppendedTextsAre(s, item);
    TrimItems(Texts(s.lines));
    AppendedItems(existing, item);
    ContainsOneMore(s, r, item, item);
    ContainsOneMore(s, r, item, other);
  }

  lemma {:induction false} ContainsOneMore(s: Subsection, r: Subsection, item: seq<string>, other: seq<string>)
    requires TextItems(Texts(r.lines)) == TextItems(Texts(s.lines)) + [item]
    ensures Contains(r, item)
    ensures Contains(s, other) ==> Contains(r, other)
  {
    hide TextItems, Texts, Join;
    var before, after := TextItems(Texts(s.lines)), TextItems(Texts(r.lines));
    assert after[|before|] == item;
    if Contains(s, other) {
      var i :| 0 <= i < |before| && Join(before[i]) == Join(other);
      assert after[i] == before[i];
    }
  }

  lemma {:induction false} AppendedTextsAre(s: Subsection, item: seq<string>)
    requires IsItem(item)
    ensures Texts(Appended(s, item).lines) == AppendedTexts(TrimBlank(Texts(s.lines)), item)
  {
    SyntheticTexts(AppendedTexts(TrimBlank(Texts(s.lines)), item));
    hide TrimBlank, Texts, Synthetic, AppendedTexts, IsListItem;
  }

  // ------------------------------------------------------------ adding all of them

  /** A part has an item below a title. */
  ghost predicate Shows(u: ReleaseSection, p: Pick) {
    exists i :: 0 <= i < |u.subsections| && u.subsections[i].title == p.title && Contains(u.subsections[i], p.lines)
  }

  ghost predicate AllItems(picks: seq<Pick>) {
    forall i :: 0 <= i < |picks| ==> IsItem(picks[i].lines)
  }

  // ------------------------------------------------------------ what is promoted are items

  lemma {:induction false} ItemsAreItems(lines: seq<NumberedLine>)
    ensures forall i :: 0 <= i < |Items(lines)| ==> IsItem(Items(lines)[i].lines)
    decreases |lines|
  {
    hide IsListItem, Items, TrimBlank, IsItem, NextItem;
    if lines == [] {
      NoItems();
    } else {
      ItemsUnfold(lines);
      if IsListItem(lines[0].text) {
        var k := NextItem(lines, 1);
        NextItemFound(lines, 1);
        FirstIsItem(lines[..k]);
        ItemsAreItems(lines[k..]);
      } else {
        ItemsAreItems(lines[1..]);
      }
    }
  }

  lemma {:induction false} FirstIsItem(lines: seq<NumberedLine>)
    requires lines != [] && IsListItem(lines[0].text)
    requires forall i :: 1 <= i < |lines| ==> !IsListItem(lines[i].text)
    ensures IsItem(ItemOf(lines).lines)
  {
    var texts := Texts(lines);
    ListItemNotBlank(texts[0]);
    TrimTwice(texts);
    TrimBlankEndShape(texts);
    hide IsListItem, Blank, TrimBlankEnd;
  }

  lemma {:induction false} ChosenAreItems(items: seq<Item>, starts: set<nat>)
    requires forall i :: 0 <= i < |items| ==> IsItem(items[i].lines)
    ensures forall i :: 0 <= i < |Chosen(items, starts)| ==> IsItem(Chosen(items, starts)[i].lines)
  {
    hide IsItem;
    if items != [] {
      ChosenAreItems(items[1..], starts);
    }
  }

  lemma {:induction false} PicksAreItems(subs: seq<Subsection>, starts: set<nat>, j: nat)
    requires j <= |subs|
    ensures AllItems(AllPicks(subs[..j], starts))
    decreases j
  {
    hide IsItem, Items, Chosen;
    if j > 0 {
      PicksAreItems(subs, starts, j - 1);
      PicksStep(subs, starts, j - 1);
      ItemsAreItems(subs[j - 1].lines);
      ChosenAreItems(Items(subs[j - 1].lines), starts);
      hide AllPicks;
    }
  }

  lemma {:induction false} DocumentPicksAreItems(sections: seq<ReleaseSection>, starts: set<nat>, i: nat)
    requires i <= |sections|
    ensures AllItems(DocumentPicks(sections[..i], starts))
    decreases i
  {
    hide IsItem, AllPicks, KeptSection;
    if i > 0 {
      DocumentPicksAreItems(sections, starts, i - 1);
      KeptParts(sections, starts, i - 1);
      var s := sections[i - 1];
      PicksAreItems(s.subsections, starts, |s.subsections|);
      assert s.subsections[..|s.subsections|] == s.subsections;
      hide DocumentPicks;
    }
  }
}
