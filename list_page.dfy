/**
 * The shopping list page (app/list/page.tsx): the list items, the edits made to
 * them, and the grouping of items by category.
 */
module ListPage {
  import opened Wrappers
  import opened Seqs
  import opened Text

  datatype ShoppingItem = ShoppingItem(id: string, name: string, amount: real, unit: string,
                                       category: string, checked: bool, fromRecipe: Option<string>)

  /** The list the page starts with; only the eggs are checked. */
  const InitialItems: seq<ShoppingItem> := [
    ShoppingItem("1", "Köttfärs", 500.0, "g", "Kött", false, Some("Köttbullar")),
    ShoppingItem("2", "Mjölk", 1.0, "l", "Mejeri", false, Some("Pannkakor")),
    ShoppingItem("3", "Ägg", 6.0, "st", "Mejeri", true, Some("Pannkakor")),
    ShoppingItem("4", "Lax", 600.0, "g", "Fisk", false, Some("Laxgryta")),
    ShoppingItem("5", "Potatis", 1.0, "kg", "Grönsaker", false, None),
    ShoppingItem("6", "Bröd", 1.0, "st", "Bakverk", false, None)
  ]

  function Flip(item: ShoppingItem, id: string): ShoppingItem {
    if item.id == id then item.(checked := !item.checked) else item
  }

  /** `toggleItem(id)`: the items with that id change `checked` and nothing else; every other
      item is unchanged. */
  function ToggleItem(items: seq<ShoppingItem>, id: string): (r: seq<ShoppingItem>)
    ensures |r| == |items|
    ensures forall i :: 0 <= i < |items| ==>
      && r[i].(checked := items[i].checked) == items[i]
      && (r[i].checked != items[i].checked <==> items[i].id == id)
  {
    seq(|items|, i requires 0 <= i < |items| => Flip(items[i], id))
  }

  /** Toggling twice restores the list. */
  lemma ToggleTwice(items: seq<ShoppingItem>, id: string)
    ensures ToggleItem(ToggleItem(items, id), id) == items
  {
    var r := ToggleItem(ToggleItem(items, id), id);
    assert forall i :: 0 <= i < |items| ==> r[i] == items[i];
  }

  function IdIsNot(id: string): ShoppingItem -> bool {
    (item: ShoppingItem) => item.id != id
  }

  /** `removeItem(id)`: drops exactly the items with that id, keeping the rest in order. */
  function RemoveItem(items: seq<ShoppingItem>, id: string): (r: seq<ShoppingItem>)
    ensures forall x :: x in r <==> x in items && x.id != id
    ensures Subseq(r, items)
    ensures (forall x :: x in items ==> x.id != id) ==> r == items
    ensures forall x: ShoppingItem :: x.id != id ==> multiset(r)[x] == multiset(items)[x]
  {
    FilterSubseq(items, IdIsNot(id));
    FilterMultiset(items, IdIsNot(id));
    FilterAll(items, IdIsNot(id));
    Filter(items, IdIsNot(id))
  }

  /** `addItem()`: with `newItem` the input field's text and `nowId` the string of
      `Date.now()`. A blank input changes nothing; otherwise one unchecked item named by the
      trimmed input, of amount 1 "st" in category "Övrigt", is appended and the input is
      cleared. Returns the new items and the new input text. */
  function AddItem(items: seq<ShoppingItem>, newItem: string, nowId: string): (r: (seq<ShoppingItem>, string))
    ensures Blank(newItem) ==> r == (items, newItem)
    ensures !Blank(newItem) ==> r.1 == "" && |r.0| == |items| + 1 && r.0[..|items|] == items
    ensures !Blank(newItem) ==> r.0[|items|] == ShoppingItem(nowId, Trim(newItem), 1.0, "st", "Övrigt", false, None)
    ensures !Blank(newItem) ==> Trim(newItem) != ""
  {
    TrimEmptyIff(newItem);
    var name := Trim(newItem);
    if name != "" then
      (items + [ShoppingItem(nowId, name, 1.0, "st", "Övrigt", false, None)], "")
    else
      (items, newItem)
  }

  function IsChecked(item: ShoppingItem): bool {
    item.checked
  }

  /** `clearChecked()`: keeps exactly the unchecked items, in their order. */
  function ClearChecked(items: seq<ShoppingItem>): (r: seq<ShoppingItem>)
    ensures forall x :: x in r <==> x in items && !x.checked
    ensures Subseq(r, items)
  {
    FilterSubseq(items, Not(IsChecked));
    assert forall x :: Not(IsChecked)(x) == !x.checked;
    Filter(items, Not(IsChecked))
  }

  /** The positions in the list that hold a checked item. */
  function CheckedPositions(items: seq<ShoppingItem>): set<int> {
    set i | 0 <= i < |items| && items[i].checked
  }

  /** Filtering on `checked` keeps one item per checked position. */
  lemma {:induction false} CheckedPositionsCount(items: seq<ShoppingItem>)
    ensures |Filter(items, IsChecked)| == |CheckedPositions(items)|
  {
    if items != [] {
      var s, x := items[..|items| - 1], items[|items| - 1];
      CheckedPositionsCount(s);
      assert items == s + [x];
      FilterSnoc(s, x, IsChecked);
      CheckedPositionsSnoc(s, x);
    }
  }

  /** One more item adds its position exactly when it is checked. */
  lemma CheckedPositionsSnoc(s: seq<ShoppingItem>, x: ShoppingItem)
    ensures |CheckedPositions(s + [x])| == |CheckedPositions(s)| + if x.checked then 1 else 0
  {
    var a, b := CheckedPositions(s + [x]), CheckedPositions(s);
    forall i
      ensures i in a <==> i in b || (x.checked && i == |s|)
    {
      if 0 <= i < |s| {
        assert (s + [x])[i] == s[i];
      }
    }
    if x.checked {
      assert a == b + {|s|};
    } else {
      assert a == b;
    }
  }

  /** `checkedCount`. */
  function CheckedCount(items: seq<ShoppingItem>): (n: nat)
    ensures n <= |items|
    ensures n == 0 <==> forall x :: x in items ==> !x.checked
    ensures n == |CheckedPositions(items)|
  {
    CheckedPositionsCount(items);
    var f := Filter(items, IsChecked);
    assert forall x :: IsChecked(x) == x.checked;
    assert f != [] ==> f[0] in f;
    |f|
  }

  /** After `clearChecked` nothing is checked, clearing again changes nothing, and exactly
      `checkedCount` items were removed. */
  lemma ClearCheckedLaws(items: seq<ShoppingItem>)
    ensures CheckedCount(ClearChecked(items)) == 0
    ensures ClearChecked(ClearChecked(items)) == ClearChecked(items)
    ensures |ClearChecked(items)| == |items| - CheckedCount(items)
  {
    FilterIdempotent(items, Not(IsChecked));
    FilterComplement(items, IsChecked);
  }

  /** Of the initial six items one is checked. */
  lemma InitialCounts()
    ensures CheckedCount(InitialItems) == 1 && |InitialItems| == 6
  {
    var s := InitialItems;
    assert s[..0] == [];
    FilterSnoc(s[..0], s[0], IsChecked);
    assert s[..1] == s[..0] + [s[0]];
    FilterSnoc(s[..1], s[1], IsChecked);
    assert s[..2] == s[..1] + [s[1]];
    FilterSnoc(s[..2], s[2], IsChecked);
    assert s[..3] == s[..2] + [s[2]];
    FilterSnoc(s[..3], s[3], IsChecked);
    assert s[..4] == s[..3] + [s[3]];
    FilterSnoc(s[..4], s[4], IsChecked);
    assert s[..5] == s[..4] + [s[4]];
    FilterSnoc(s[..5], s[5], IsChecked);
    assert s == s[..5] + [s[5]];
  }

  // ---------------------------------------------------------------------------
  // `groupedItems`.

  function CategoriesOf(items: seq<ShoppingItem>): (cs: seq<string>)
    ensures |cs| == |items| && forall i :: 0 <= i < |items| ==> cs[i] == items[i].category
  {
    seq(|items|, i requires 0 <= i < |items| => items[i].category)
  }

  function InCategory(c: string): ShoppingItem -> bool {
    (item: ShoppingItem) => item.category == c
  }

  lemma CategoriesSnoc(done: seq<ShoppingItem>, item: ShoppingItem)
    ensures Dedup(CategoriesOf(done + [item])) ==
      if item.category in Dedup(CategoriesOf(done)) then Dedup(CategoriesOf(done))
      else Dedup(CategoriesOf(done)) + [item.category]
  {
    assert CategoriesOf(done + [item]) == CategoriesOf(done) + [item.category];
    DedupSnoc(CategoriesOf(done), item.category);
  }

  /** The dictionary the loop builds, item by item: a category seen for the first time gets
      an empty group, and the item is pushed onto its category's group. */
  function GroupMap(items: seq<ShoppingItem>): map<string, seq<ShoppingItem>> {
    if items == [] then map[]
    else
      var g, x := GroupMap(items[..|items| - 1]), items[|items| - 1];
      var start := if x.category in g then g else g[x.category := []];
      start[x.category := start[x.category] + [x]]
  }

  /** What the dictionary holds: a group for exactly the categories that occur, and in each
      the items of that category, in list order. */
  lemma {:induction false} GroupMapGroups(items: seq<ShoppingItem>)
    ensures forall c :: c in GroupMap(items) <==> c in CategoriesOf(items)
    ensures forall c :: c in GroupMap(items) ==> GroupMap(items)[c] == Filter(items, InCategory(c))
  {
    if items != [] {
      var s, x := items[..|items| - 1], items[|items| - 1];
      assert items == s + [x];
      assert CategoriesOf(items) == CategoriesOf(s) + [x.category];
      GroupMapGroups(s);
      var g := GroupMap(s);
      forall c | c in GroupMap(items) ensures GroupMap(items)[c] == Filter(items, InCategory(c)) {
        FilterSnoc(s, x, InCategory(c));
        if c == x.category && c !in g {
          NoneInAbsentCategory(s, c);
        }
      }
    }
  }

  /** A category has a group exactly when it is one of the listed categories. */
  lemma HasGroupIff(items: seq<ShoppingItem>, c: string)
    ensures c in GroupMap(items) <==> c in Dedup(CategoriesOf(items))
  {
    GroupMapGroups(items);
  }

  /** One pass of the loop body extends the keys and the dictionary by one item. */
  lemma GroupStep(done: seq<ShoppingItem>, item: ShoppingItem, keys: seq<string>, groups: map<string, seq<ShoppingItem>>)
    requires keys == Dedup(CategoriesOf(done)) && groups == GroupMap(done)
    ensures var c := item.category;
      && (if c in groups then keys else keys + [c]) == Dedup(CategoriesOf(done + [item]))
      && var start := if c in groups then groups else groups[c := []];
         start[c := start[c] + [item]] == GroupMap(done + [item])
  {
    assert (done + [item])[..|done|] == done;
    CategoriesSnoc(done, item);
    HasGroupIff(done, item.category);
  }

  /** `groupedItems`: a dictionary from category to the items of that category. The
      categories are its keys in insertion order (the order of first appearance), and each
      group holds the items of its category in list order. */
  method GroupItems(items: seq<ShoppingItem>) returns (keys: seq<string>, groups: map<string, seq<ShoppingItem>>)
    ensures keys == Dedup(CategoriesOf(items))
    ensures forall c :: c in groups <==> c in keys
    ensures forall c :: c in groups ==> groups[c] == Filter(items, InCategory(c))
  {
    keys, groups := [], map[];
    var i := 0;
    while i < |items|
      invariant 0 <= i <= |items|
      invariant keys == Dedup(CategoriesOf(items[..i]))
      invariant groups == GroupMap(items[..i])
    {
      var item := items[i];
      assert items[..i + 1] == items[..i] + [item];
      GroupStep(items[..i], item, keys, groups);
      if item.category !in groups {
        keys := keys + [item.category];
        groups := groups[item.category := []];
      }
      groups := groups[item.category := groups[item.category] + [item]];
      i := i + 1;
    }
    assert items[..i] == items;
    GroupMapGroups(items);
  }

  /** The total size of the groups listed under `keys`. */
  function SizeSum(items: seq<ShoppingItem>, keys: seq<string>): nat {
    if keys == [] then 0 else SizeSum(items, keys[..|keys| - 1]) + |Filter(items, InCategory(keys[|keys| - 1]))|
  }

  /** One more item adds one to the sum when its category is listed. */
  lemma {:induction false} SizeSumSnoc(items: seq<ShoppingItem>, x: ShoppingItem, keys: seq<string>)
    requires NoDups(keys)
    ensures SizeSum(items + [x], keys) == SizeSum(items, keys) + (if x.category in keys then 1 else 0)
  {
    assert (items + [x])[..|items|] == items;
    if keys != [] {
      SizeSumSnoc(items, x, keys[..|keys| - 1]);
      assert x.category in keys <==> x.category in keys[..|keys| - 1] || x.category == keys[|keys| - 1];
    }
  }

  /** No item lies in a category none of them has. */
  lemma NoneInAbsentCategory(items: seq<ShoppingItem>, c: string)
    requires c !in CategoriesOf(items)
    ensures Filter(items, InCategory(c)) == []
  {
  }

  /** Every item lands in exactly one group: the group sizes add up to the number of items. */
  lemma {:induction false} GroupSizesSum(items: seq<ShoppingItem>)
    ensures SizeSum(items, Dedup(CategoriesOf(items))) == |items|
  {
    if items != [] {
      var items', x := items[..|items| - 1], items[|items| - 1];
      assert items == items' + [x];
      assert CategoriesOf(items) == CategoriesOf(items') + [x.category];
      var d' := Dedup(CategoriesOf(items'));
      GroupSizesSum(items');
      SizeSumSnoc(items', x, d');
      if x.category !in d' {
        NoneInAbsentCategory(items', x.category);
        assert (d' + [x.category])[..|d'|] == d';
      }
    }
  }
}
