/** The list items of a subsection, and putting lines below those it already has. */
module ChangelogItems {
  import opened ChangelogText
  import opened Changelog

  datatype Item = Item(startLine: nat, endLine: nat, lines: seq<string>)

  // ------------------------------------------------------------ items

  function NextItem(lines: seq<NumberedLine>, i: nat): (k: nat)
    requires i <= |lines|
    ensures i <= k <= |lines|
    decreases |lines| - i
  {
    if i == |lines| || IsListItem(lines[i].text) then i else NextItem(lines, i + 1)
  }

  lemma {:induction false} NextItemFound(lines: seq<NumberedLine>, i: nat)
    requires i <= |lines|
    ensures var k := NextItem(lines, i);
      && (k < |lines| ==> IsListItem(lines[k].text))
      && forall j :: i <= j < k ==> !IsListItem(lines[j].text)
    decreases |lines| - i
  {
    hide IsListItem;
    if i < |lines| && !IsListItem(lines[i].text) {
      NextItemFound(lines, i + 1);
    }
  }

  function ItemOf(lines: seq<NumberedLine>): Item
    requires lines != []
  {
    Item(lines[0].lineNumber, lines[|lines| - 1].lineNumber, TrimBlank(Texts(lines)))
  }

  /** Each list item reaches up to the next one; what comes before the first belongs to none. */
  function Items(lines: seq<NumberedLine>): seq<Item>
    decreases |lines|
  {
    if lines == [] then []
    else if !IsListItem(lines[0].text) then Items(lines[1..])
    else
      var k := NextItem(lines, 1);
      [ItemOf(lines[..k])] + Items(lines[k..])
  }

  lemma {:induction false} NextItemShifts(lines: seq<NumberedLine>, i: nat, j: nat)
    requires i <= j <= |lines|
    ensures NextItem(lines[i..], j - i) == NextItem(lines, j) - i
    decreases |lines| - j
  {
    hide IsListItem;
    if j < |lines| {
      assert lines[i..][j - i] == lines[j];
      NextItemShifts(lines, i, j + 1);
    }
  }

  lemma {:induction false} ItemsUnfold(lines: seq<NumberedLine>)
    requires lines != []
    ensures Items(lines)
         == if !IsListItem(lines[0].text) then Items(lines[1..])
            else [ItemOf(lines[..NextItem(lines, 1)])] + Items(lines[NextItem(lines, 1)..])
  {
    hide IsListItem, NextItem, ItemOf;
  }

  lemma {:induction false} ItemStep(lines: seq<NumberedLine>, i: nat)
    requires i < |lines|
    ensures var k := NextItem(lines, i + 1);
      Items(lines[i..]) == if !IsListItem(lines[i].text) then Items(lines[i + 1..])
                           else [ItemOf(lines[i..k])] + Items(lines[k..])
  {
    hide *;
    var rest, k := lines[i..], NextItem(lines, i + 1);
    assert rest[0] == lines[i];
    NextItemShifts(lines, i, i + 1);
    ItemsUnfold(rest);
    assert rest[1..] == lines[i + 1..] && rest[..k - i] == lines[i..k] && rest[k - i..] == lines[k..];
  }

  method ParseItems(lines: seq<NumberedLine>) returns (items: seq<Item>)
    ensures items == Items(lines)
  {
    hide *;
    items := [];
    var index := 0;
    assert lines[0..] == lines;
    while index < |lines|
      invariant index <= |lines| && items + Items(lines[index..]) == Items(lines)
    {
      ItemStep(lines, index);
      if !IsListItem(lines[index].text) {
        index := index + 1;
        continue;
      }
      var start := index;
      index := index + 1;
      ghost var k := NextItem(lines, index);
      while index < |lines| && !IsListItem(lines[index].text)
        invariant start < index <= |lines| && NextItem(lines, index) == k
      {
        NextItemUnfolds(lines, index);
        index := index + 1;
      }
      NextItemUnfolds(lines, index);
      var itemLines := lines[start..index];
      var text := TrimBlankLines(Texts(itemLines));
      var item := Item(itemLines[0].lineNumber, itemLines[|itemLines| - 1].lineNumber, text);
      ItemIs(itemLines);
      AppendOne(items, item, Items(lines[index..]));
      items := items + [item];
    }
    NoItems();
    assert lines[|lines|..] == [] && items + [] == items;
  }

  lemma {:induction false} NextItemUnfolds(lines: seq<NumberedLine>, i: nat)
    requires i <= |lines|
    ensures NextItem(lines, i) == if i == |lines| || IsListItem(lines[i].text) then i else NextItem(lines, i + 1)
  {
    hide IsListItem;
  }

  lemma {:induction false} ItemIs(lines: seq<NumberedLine>)
    requires lines != []
    ensures ItemOf(lines) == Item(lines[0].lineNumber, lines[|lines| - 1].lineNumber, TrimBlank(Texts(lines)))
  {
  }

  lemma {:induction false} NoItems()
    ensures Items([]) == []
  {
  }

  // ------------------------------------------------------------ adding lines

  /** The lines below which others are put are trimmed, and a blank line comes between unless a list
      goes on. */
  function AppendedTexts(existing: seq<string>, source: seq<string>): seq<string> {
    if source == [] then existing
    else if existing == [] then source
    else existing + (if IsListItem(existing[|existing| - 1]) && IsListItem(source[0]) then [] else [""]) + source
  }

  function Appended(target: Subsection, source: seq<string>): Subsection {
    var s := TrimBlank(source);
    if s == [] then target
    else target.(lines := Synthetic(AppendedTexts(TrimBlank(Texts(target.lines)), s)))
  }

  method AppendSubsectionLines(target: Subsection, sourceLines: seq<string>) returns (r: Subsection)
    ensures r == Appended(target, sourceLines)
  {
    hide TrimBlank, IsListItem, Texts, Synthetic;
    var trimmedSource := TrimBlankLines(sourceLines);
    if |trimmedSource| == 0 { return target; }
    var existing := TrimBlankLines(Texts(target.lines));
    if |existing| == 0 {
      return target.(lines := Synthetic(trimmedSource));
    }
    var separator: seq<string> :=
      if IsListItem(existing[|existing| - 1]) && IsListItem(trimmedSource[0]) then [] else [""];
    r := target.(lines := Synthetic(existing + separator + trimmedSource));
  }

  /** Lines that were not read from a file have no number. */
  lemma {:induction false} SyntheticTexts(texts: seq<string>)
    ensures Texts(Synthetic(texts)) == texts
    ensures forall i :: 0 <= i < |texts| ==> Synthetic(texts)[i].lineNumber == 0
  {
  }

  /** What a subsection contains after lines were put below it: what it contained, perhaps a blank
      line, and those lines. */
  lemma {:induction false} AppendedContent(target: Subsection, source: seq<string>)
    ensures TrimBlank(Texts(Appended(target, source).lines))
         == AppendedTexts(TrimBlank(Texts(target.lines)), TrimBlank(source))
  {
    hide TrimBlank, Texts, Synthetic, IsListItem, AppendedTexts;
    var existing, s := TrimBlank(Texts(target.lines)), TrimBlank(source);
    TrimTwice(Texts(target.lines));
    TrimTwice(source);
    if s == [] {
      NothingAppended(existing);
    } else {
      SyntheticTexts(AppendedTexts(existing, s));
      AppendedIsTrimmed(existing, s);
    }
  }

  lemma {:induction false} NothingAppended(existing: seq<string>)
    ensures AppendedTexts(existing, []) == existing
  {
  }

  lemma {:induction false} AppendedIsTrimmed(existing: seq<string>, source: seq<string>)
    requires TrimBlank(existing) == existing && TrimBlank(source) == source && source != []
    ensures TrimBlank(AppendedTexts(existing, source)) == AppendedTexts(existing, source)
  {
    hide TrimBlank, IsListItem, Blank;
    TrimBlankShape(existing);
    TrimBlankShape(source);
    TextAtEnds(AppendedTexts(existing, source));
  }

  lemma {:induction false} TextAtEnds(lines: seq<string>)
    requires lines != [] && !Blank(lines[0]) && !Blank(lines[|lines| - 1])
    ensures TrimBlank(lines) == lines
  {
    hide Blank;
  }

  predicate HasItem(subsection: Subsection, itemLines: seq<string>) {
    var wanted := Join(TrimBlank(itemLines));
    wanted == "" || exists i :: 0 <= i < |Items(subsection.lines)| && Join(Items(subsection.lines)[i].lines) == wanted
  }

  method SubsectionHasItem(subsection: Subsection, itemLines: seq<string>) returns (has: bool)
    ensures has == HasItem(subsection, itemLines)
  {
    hide TrimBlank, Join, Items;
    var trimmed := TrimBlankLines(itemLines);
    var wanted := Join(trimmed);
    if wanted == "" { return true; }
    var items := ParseItems(subsection.lines);
    for i := 0 to |items|
      invariant forall j :: 0 <= j < i ==> Join(items[j].lines) != wanted
    {
      if Join(items[i].lines) == wanted { return true; }
    }
    has := false;
  }
}
