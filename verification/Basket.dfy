/** Order lines: choices counted, checked against their groups, and priced
    (internal/api/graphql/resolver/order.go:177-293).

    Prices are integers in a fixed unit. Ids are opaque. */
module Basket {
  import opened Prelude

  type ProductId = int
  type ChoiceId = int
  type GroupId = int

  datatype Choice = Choice(product: ProductId, group: GroupId, modifier: int)
  datatype Group = Group(id: GroupId, min: int, max: int)

  /** What the product service answers. A choice that cannot be loaded is absent. */
  datatype Catalog = Catalog(prices: map<ProductId, int>, choices: map<ChoiceId, Choice>,
                             groups: map<ProductId, seq<Group>>)

  datatype Selection = Selection(group: GroupId, choice: ChoiceId, quantity: int)
  datatype Item = Item(product: ProductId, quantity: int, choice: Option<ChoiceId>, selections: seq<Selection>)

  datatype Line = Line(product: ProductId, quantity: int, unitPrice: int, total: int,
                       single: Option<ChoiceId>, counts: map<ChoiceId, int>)

  datatype Error =
    | ProductNotFound
    | InvalidQuantity
    | ChoiceNotFound
    | ChoiceOfOtherProduct
    | ChoiceOfOtherGroup
    | InvalidSelectionQuantity
    | InvalidGroupCount(group: GroupId)
    | NegativePrice

  datatype Result<+T> = Ok(value: T) | Err(error: Error)

  // ---------------------------------------------------------------------------
  // What a line asks for, read off the request
  // ---------------------------------------------------------------------------

  datatype Wish = Wish(choice: ChoiceId, quantity: int)

  /** The choices of an item with their quantities: the single choice, then the selections. */
  function Wishes(item: Item): seq<Wish> {
    ChoiceWishes(item.choice) + SelectionWishes(item.selections)
  }

  function ChoiceWishes(choice: Option<ChoiceId>): seq<Wish> {
    if choice.Some? then [Wish(choice.value, 1)] else []
  }

  function SelectionWishes(ss: seq<Selection>): seq<Wish> {
    if ss == [] then []
    else SelectionWishes(ss[..|ss| - 1]) + [Wish(ss[|ss| - 1].choice, ss[|ss| - 1].quantity)]
  }

  /** How often a choice, or the choices of a group, are asked for. */
  function Asked(ws: seq<Wish>, c: ChoiceId): int {
    if ws == [] then 0
    else Asked(ws[..|ws| - 1], c) + if ws[|ws| - 1].choice == c then ws[|ws| - 1].quantity else 0
  }

  predicate Known(cat: Catalog, ws: seq<Wish>) {
    forall i :: 0 <= i < |ws| ==> ws[i].choice in cat.choices
  }

  function AskedOfGroup(cat: Catalog, ws: seq<Wish>, g: GroupId): int
    requires Known(cat, ws)
  {
    if ws == [] then 0
    else AskedOfGroup(cat, ws[..|ws| - 1], g) +
         if cat.choices[ws[|ws| - 1].choice].group == g then ws[|ws| - 1].quantity else 0
  }

  /** The price of the wishes: a negative modifier counts as nothing. */
  function Extras(cat: Catalog, ws: seq<Wish>): int
    requires Known(cat, ws)
  {
    if ws == [] then 0
    else Extras(cat, ws[..|ws| - 1]) + Max(0, cat.choices[ws[|ws| - 1].choice].modifier) * ws[|ws| - 1].quantity
  }

  /** The request is one the shop can serve. */
  predicate Acceptable(cat: Catalog, item: Item) {
    && item.product in cat.prices
    && 1 <= item.quantity <= 99
    && (item.choice.Some? ==> item.choice.value in cat.choices && cat.choices[item.choice.value].product == item.product)
    && (forall i :: 0 <= i < |item.selections| ==> GoodSelection(cat, item, item.selections[i]))
    && Known(cat, Wishes(item))
    && (forall i :: 0 <= i < |Groups(cat, item)| ==> InRange(cat, item, Groups(cat, item)[i]))
    && cat.prices[item.product] + Extras(cat, Wishes(item)) >= 0
  }

  /** The unit price of an item, and the price of all its pieces. */
  function UnitPrice(cat: Catalog, item: Item): int
    requires Acceptable(cat, item)
  {
    cat.prices[item.product] + Extras(cat, Wishes(item))
  }

  function Price(cat: Catalog, item: Item): (p: int)
    requires Acceptable(cat, item)
    ensures p >= 0
  {
    Piecewise(UnitPrice(cat, item), item.quantity)
  }

  function Piecewise(unitPrice: int, quantity: int): (p: int)
    requires unitPrice >= 0 && quantity >= 0
    ensures p >= 0
  {
    unitPrice * quantity
  }

  predicate GoodSelection(cat: Catalog, item: Item, s: Selection) {
    s.quantity > 0 && s.choice in cat.choices &&
    cat.choices[s.choice].product == item.product && cat.choices[s.choice].group == s.group
  }

  function Groups(cat: Catalog, item: Item): seq<Group> {
    if item.product in cat.groups then cat.groups[item.product] else []
  }

  /** A group's count lies between its limits, each multiplied by the item's quantity. */
  predicate InRange(cat: Catalog, item: Item, g: Group)
    requires Known(cat, Wishes(item))
  {
    g.min * item.quantity <= AskedOfGroup(cat, Wishes(item), g.id) <= g.max * item.quantity
  }

  // ---------------------------------------------------------------------------
  // Counting in maps and counting in the request agree
  // ---------------------------------------------------------------------------

  /** The counter map that the wishes build up, one increment each. */
  function Tally(ws: seq<Wish>): map<ChoiceId, int> {
    if ws == [] then map[]
    else
      var before := Tally(ws[..|ws| - 1]);
      var w := ws[|ws| - 1];
      before[w.choice := Count(before, w.choice) + w.quantity]
  }

  function GroupTally(cat: Catalog, ws: seq<Wish>): map<GroupId, int>
    requires Known(cat, ws)
  {
    if ws == [] then map[]
    else
      var before := GroupTally(cat, ws[..|ws| - 1]);
      var g := cat.choices[ws[|ws| - 1].choice].group;
      before[g := Count(before, g) + ws[|ws| - 1].quantity]
  }

  /** What a counter map is worth, and what it counts for one group, choice by choice. */
  ghost function Weighted(cat: Catalog, counts: map<ChoiceId, int>): map<ChoiceId, int>
    requires counts.Keys <= cat.choices.Keys
  {
    map c | c in counts :: Max(0, cat.choices[c].modifier) * counts[c]
  }

  ghost function OfGroup(cat: Catalog, counts: map<ChoiceId, int>, g: GroupId): map<ChoiceId, int>
    requires counts.Keys <= cat.choices.Keys
  {
    map c | c in counts :: if cat.choices[c].group == g then counts[c] else 0
  }

  /** The counters say how often each choice and each group is asked for. */
  lemma {:induction false} TallyCounts(cat: Catalog, ws: seq<Wish>, c: ChoiceId, g: GroupId)
    requires Known(cat, ws)
    ensures Tally(ws).Keys <= cat.choices.Keys
    ensures Count(Tally(ws), c) == Asked(ws, c)
    ensures Count(GroupTally(cat, ws), g) == AskedOfGroup(cat, ws, g)
    decreases |ws|
  {
    if ws != [] {
      TallyCounts(cat, ws[..|ws| - 1], c, g);
    }
  }

  /** The counter map may be summed in any order: what it is worth is the extras of the request. */
  lemma {:induction false} TallyIsWorthExtras(cat: Catalog, ws: seq<Wish>)
    requires Known(cat, ws)
    ensures Tally(ws).Keys <= cat.choices.Keys
    ensures Sum(Weighted(cat, Tally(ws))) == Extras(cat, ws)
    decreases |ws|
  {
    if ws == [] {
      assert Weighted(cat, map[]) == map[];
    } else {
      var front, w := ws[..|ws| - 1], ws[|ws| - 1];
      TallyIsWorthExtras(cat, front);
      WorthOfOneMore(cat, Tally(front), w.choice, w.quantity);
      assert Tally(ws) == Tally(front)[w.choice := Count(Tally(front), w.choice) + w.quantity];
    }
  }

  lemma WorthOfOneMore(cat: Catalog, t: map<ChoiceId, int>, c: ChoiceId, q: int)
    requires t.Keys <= cat.choices.Keys && c in cat.choices
    ensures Sum(Weighted(cat, t[c := Count(t, c) + q])) == Sum(Weighted(cat, t)) + Max(0, cat.choices[c].modifier) * q
  {
    var n, m := Count(t, c), Max(0, cat.choices[c].modifier);
    Distribute(m, n, q);
    assert Weighted(cat, t[c := n + q]) == Weighted(cat, t)[c := m * (n + q)];
    SumUpdate(Weighted(cat, t), c, m * (n + q));
  }

  lemma Distribute(m: int, n: int, q: int)
    ensures m * (n + q) == m * n + m * q
  {
  }

  /** The counters of a group's choices add up to the group's own counter. */
  lemma {:induction false} GroupIsSumOfChoices(cat: Catalog, ws: seq<Wish>, g: GroupId)
    requires Known(cat, ws)
    ensures Tally(ws).Keys <= cat.choices.Keys
    ensures Sum(OfGroup(cat, Tally(ws), g)) == Count(GroupTally(cat, ws), g)
    decreases |ws|
  {
    TallyCounts(cat, ws, 0, g);
    if ws == [] {
      assert OfGroup(cat, map[], g) == map[];
    } else {
      var front, w := ws[..|ws| - 1], ws[|ws| - 1];
      GroupIsSumOfChoices(cat, front, g);
      var t, c := Tally(front), w.choice;
      var k := if cat.choices[c].group == g then Count(t, c) + w.quantity else 0;
      assert OfGroup(cat, Tally(ws), g) == OfGroup(cat, t, g)[c := k];
      SumUpdate(OfGroup(cat, t, g), c, k);
    }
  }

  lemma TallyAppend(cat: Catalog, ws: seq<Wish>, w: Wish)
    requires Known(cat, ws) && w.choice in cat.choices
    ensures Known(cat, ws + [w])
    ensures Tally(ws + [w]) == Tally(ws)[w.choice := Count(Tally(ws), w.choice) + w.quantity]
    ensures var g := cat.choices[w.choice].group;
      GroupTally(cat, ws + [w]) == GroupTally(cat, ws)[g := Count(GroupTally(cat, ws), g) + w.quantity]
  {
  }

  // ---------------------------------------------------------------------------
  // What the wishes and the prices are, and what is wrong with an item
  // ---------------------------------------------------------------------------

  lemma {:induction false} SelectionsAreWishes(ss: seq<Selection>)
    ensures |SelectionWishes(ss)| == |ss|
    ensures forall i :: 0 <= i < |ss| ==> SelectionWishes(ss)[i] == Wish(ss[i].choice, ss[i].quantity)
    decreases |ss|
  {
    if ss != [] {
      SelectionsAreWishes(ss[..|ss| - 1]);
    }
  }

  /** The single choice is wished for once, each selection as often as it says. */
  lemma WishesOfItem(item: Item)
    ensures var first := if item.choice.Some? then 1 else 0;
      && |Wishes(item)| == first + |item.selections|
      && (item.choice.Some? ==> Wishes(item)[0] == Wish(item.choice.value, 1))
      && forall i :: 0 <= i < |item.selections| ==>
           Wishes(item)[first + i] == Wish(item.selections[i].choice, item.selections[i].quantity)
  {
    SelectionsAreWishes(item.selections);
  }

  /** A further wish adds its quantity to its choice and to its choice's group, and its modifier
      as often, if that is positive. */
  lemma OneMoreCounts(cat: Catalog, ws: seq<Wish>, w: Wish, c: ChoiceId, g: GroupId)
    requires Known(cat, ws) && w.choice in cat.choices
    ensures Known(cat, ws + [w])
    ensures Asked(ws + [w], c) == Asked(ws, c) + if w.choice == c then w.quantity else 0
    ensures AskedOfGroup(cat, ws + [w], g) ==
      AskedOfGroup(cat, ws, g) + if cat.choices[w.choice].group == g then w.quantity else 0
    ensures var m := cat.choices[w.choice].modifier;
      Extras(cat, ws + [w]) == Extras(cat, ws) + if m > 0 then m * w.quantity else 0
  {
    assert (ws + [w])[..|ws|] == ws;
  }

  lemma NothingAsked(cat: Catalog, c: ChoiceId, g: GroupId)
    ensures Asked([], c) == 0 && AskedOfGroup(cat, [], g) == 0 && Extras(cat, []) == 0
  {
  }

  /** An item costs, for each piece, its product and the extras of its wishes. */
  lemma PriceOfPieces(cat: Catalog, item: Item)
    requires Acceptable(cat, item)
    ensures Known(cat, Wishes(item)) && item.product in cat.prices
    ensures Price(cat, item) == item.quantity * (cat.prices[item.product] + Extras(cat, Wishes(item)))
  {
  }

  /** What each error says is wrong with an item. */
  ghost predicate Wrong(cat: Catalog, item: Item, e: Error) {
    match e
    case ProductNotFound => item.product !in cat.prices
    case InvalidQuantity => item.quantity < 1 || item.quantity > 99
    case ChoiceNotFound =>
      (item.choice.Some? && item.choice.value !in cat.choices) || exists s :: s in item.selections && s.choice !in cat.choices
    case ChoiceOfOtherProduct =>
      || (item.choice.Some? && item.choice.value in cat.choices && cat.choices[item.choice.value].product != item.product)
      || exists s :: s in item.selections && s.choice in cat.choices && cat.choices[s.choice].product != item.product
    case ChoiceOfOtherGroup =>
      exists s :: s in item.selections && s.choice in cat.choices && cat.choices[s.choice].group != s.group
    case InvalidSelectionQuantity => exists s :: s in item.selections && s.quantity < 1
    case InvalidGroupCount(id) => item.product in cat.groups && OutOfRange(cat, item, id)
    case NegativePrice =>
      item.product in cat.prices && Known(cat, Wishes(item)) && cat.prices[item.product] + Extras(cat, Wishes(item)) < 0
  }

  /** Of some group of the product with this id, fewer or more are asked for than so many pieces
      allow. */
  ghost predicate OutOfRange(cat: Catalog, item: Item, id: GroupId)
    requires item.product in cat.groups
  {
    Known(cat, Wishes(item)) &&
    var n := AskedOfGroup(cat, Wishes(item), id);
    exists g :: g in cat.groups[item.product] && g.id == id && (n < g.min * item.quantity || n > g.max * item.quantity)
  }

  /** An item is acceptable exactly when nothing is wrong with it. */
  lemma AcceptableMeansNothingWrong(cat: Catalog, item: Item)
    ensures Acceptable(cat, item) <==> forall e :: !Wrong(cat, item, e)
  {
    if Acceptable(cat, item) {
      forall e
        ensures !Wrong(cat, item, e)
      {
        NothingIsWrong(cat, item, e);
      }
    } else {
      var e := SomethingIsWrong(cat, item);
    }
  }

  lemma NothingIsWrong(cat: Catalog, item: Item, e: Error)
    requires Acceptable(cat, item)
    ensures !Wrong(cat, item, e)
  {
    EarlierIsRight(cat, item, 5, e);
  }

  /** The order in which errors are looked for. */
  function Stage(e: Error): nat {
    match e
    case ProductNotFound => 0
    case InvalidQuantity => 1
    case InvalidGroupCount(_) => 3
    case NegativePrice => 4
    case _ => 2
  }

  /** The checks before this stage pass. */
  ghost predicate RightUpTo(cat: Catalog, item: Item, stage: nat) {
    && (stage > 0 ==> item.product in cat.prices)
    && (stage > 1 ==> 1 <= item.quantity <= 99)
    && (stage > 2 ==>
          && (item.choice.Some? ==> item.choice.value in cat.choices && cat.choices[item.choice.value].product == item.product)
          && forall i :: 0 <= i < |item.selections| ==> GoodSelection(cat, item, item.selections[i]))
    && (stage > 3 ==>
          Known(cat, Wishes(item)) && forall i :: 0 <= i < |Groups(cat, item)| ==> InRange(cat, item, Groups(cat, item)[i]))
    && (stage > 4 ==> cat.prices[item.product] + Extras(cat, Wishes(item)) >= 0)
  }

  lemma EarlierIsRight(cat: Catalog, item: Item, stage: nat, e: Error)
    requires RightUpTo(cat, item, stage) && Stage(e) < stage
    ensures !Wrong(cat, item, e)
  {
    if stage > 2 {
      forall s | s in item.selections
        ensures GoodSelection(cat, item, s)
      {
        var i :| 0 <= i < |item.selections| && item.selections[i] == s;
      }
    }
    if e.InvalidGroupCount? && item.product in cat.groups {
      forall g | g in cat.groups[item.product]
        ensures InRange(cat, item, g)
      {
        var i :| 0 <= i < |Groups(cat, item)| && Groups(cat, item)[i] == g;
      }
    }
  }

  /** This is wrong with the item, and nothing that is looked for earlier. */
  ghost predicate FirstError(cat: Catalog, item: Item, e: Error) {
    Wrong(cat, item, e) && forall other :: Stage(other) < Stage(e) ==> !Wrong(cat, item, other)
  }

  lemma FirstAtStage(cat: Catalog, item: Item, e: Error)
    requires Wrong(cat, item, e) && RightUpTo(cat, item, Stage(e))
    ensures FirstError(cat, item, e)
  {
    forall other | Stage(other) < Stage(e)
      ensures !Wrong(cat, item, other)
    {
      EarlierIsRight(cat, item, Stage(e), other);
    }
  }

  lemma WrongSelection(cat: Catalog, item: Item, s: Selection)
    requires s in item.selections && !GoodSelection(cat, item, s)
    ensures Wrong(cat, item, SelectionError(cat, item, s).value)
  {
  }

  lemma SomethingIsWrong(cat: Catalog, item: Item) returns (e: Error)
    requires !Acceptable(cat, item)
    ensures Wrong(cat, item, e)
  {
    if item.product !in cat.prices {
      e := ProductNotFound;
    } else if !(1 <= item.quantity <= 99) {
      e := InvalidQuantity;
    } else if item.choice.Some? && item.choice.value !in cat.choices {
      e := ChoiceNotFound;
    } else if item.choice.Some? && cat.choices[item.choice.value].product != item.product {
      e := ChoiceOfOtherProduct;
    } else if i :| 0 <= i < |item.selections| && !GoodSelection(cat, item, item.selections[i]) {
      e := SelectionError(cat, item, item.selections[i]).value;
      WrongSelection(cat, item, item.selections[i]);
    } else {
      WishesAreKnown(cat, item);
      if i :| 0 <= i < |Groups(cat, item)| && !InRange(cat, item, Groups(cat, item)[i]) {
        e := InvalidGroupCount(Groups(cat, item)[i].id);
        assert Groups(cat, item)[i] in cat.groups[item.product];
      } else {
        e := NegativePrice;
      }
    }
  }

  lemma WishesAreKnown(cat: Catalog, item: Item)
    requires item.choice.Some? ==> item.choice.value in cat.choices
    requires forall i :: 0 <= i < |item.selections| ==> GoodSelection(cat, item, item.selections[i])
    ensures Known(cat, Wishes(item))
  {
    SelectionsAreWishes(item.selections);
  }

  // ---------------------------------------------------------------------------
  // Counting, checking and pricing a line
  // ---------------------------------------------------------------------------

  /** What is wrong with a selection, in the order in which it is looked for. */
  function SelectionError(cat: Catalog, item: Item, s: Selection): (e: Option<Error>)
    ensures e.None? <==> GoodSelection(cat, item, s)
  {
    if s.quantity <= 0 then Some(InvalidSelectionQuantity)
    else if s.choice !in cat.choices then Some(ChoiceNotFound)
    else if cat.choices[s.choice].product != item.product then Some(ChoiceOfOtherProduct)
    else if cat.choices[s.choice].group != s.group then Some(ChoiceOfOtherGroup)
    else None
  }

  /** The counter maps hold the counts of these wishes. */
  predicate Counted(cat: Catalog, ws: seq<Wish>, byChoice: map<ChoiceId, int>, byGroup: map<GroupId, int>) {
    Known(cat, ws) && byChoice == Tally(ws) && byGroup == GroupTally(cat, ws)
  }

  lemma CountedOneMore(cat: Catalog, ws: seq<Wish>, byChoice: map<ChoiceId, int>, byGroup: map<GroupId, int>, s: Selection)
    requires Counted(cat, ws, byChoice, byGroup)
    requires s.choice in cat.choices && cat.choices[s.choice].group == s.group
    ensures Counted(cat, ws + [Wish(s.choice, s.quantity)],
                    byChoice[s.choice := Count(byChoice, s.choice) + s.quantity],
                    byGroup[s.group := Count(byGroup, s.group) + s.quantity])
  {
  }

  method CountSingleChoice(cat: Catalog, choice: Option<ChoiceId>)
    returns (byChoice: map<ChoiceId, int>, byGroup: map<GroupId, int>)
    requires choice.Some? ==> choice.value in cat.choices
    ensures Counted(cat, ChoiceWishes(choice), byChoice, byGroup)
  {
    byChoice, byGroup := map[], map[];
    if choice.Some? {
      var c := choice.value;
      byChoice := byChoice[c := Count(byChoice, c) + 1];
      byGroup := byGroup[cat.choices[c].group := Count(byGroup, cat.choices[c].group) + 1];
      TallyAppend(cat, [], Wish(c, 1));
      assert [] + [Wish(c, 1)] == ChoiceWishes(choice);
    }
  }

  /** Counts the selections of an item, refusing the first one that is wrong. */
  method CountSelections(cat: Catalog, item: Item)
    returns (byChoice: map<ChoiceId, int>, byGroup: map<GroupId, int>, error: Option<Error>)
    requires item.choice.Some? ==>
      item.choice.value in cat.choices && cat.choices[item.choice.value].product == item.product
    ensures error.None? <==> forall i :: 0 <= i < |item.selections| ==> GoodSelection(cat, item, item.selections[i])
    ensures error.None? ==> Counted(cat, Wishes(item), byChoice, byGroup)
    ensures error.Some? ==> Wrong(cat, item, error.value) && Stage(error.value) == 2
  {
    byChoice, byGroup := CountSingleChoice(cat, item.choice);
    assert FirstWishes(item, 0) == ChoiceWishes(item.choice);
    for i := 0 to |item.selections|
      invariant forall j :: 0 <= j < i ==> GoodSelection(cat, item, item.selections[j])
      invariant Counted(cat, FirstWishes(item, i), byChoice, byGroup)
    {
      byChoice, byGroup, error := CountSelection(cat, item, i, byChoice, byGroup);
      if error.Some? {
        WrongSelection(cat, item, item.selections[i]);
        return;
      }
    }
    AllWishes(item);
    error := None;
  }

  /** One selection is checked and counted. */
  method CountSelection(cat: Catalog, item: Item, i: nat, choices: map<ChoiceId, int>, groups: map<GroupId, int>)
    returns (byChoice: map<ChoiceId, int>, byGroup: map<GroupId, int>, error: Option<Error>)
    requires i < |item.selections| && Counted(cat, FirstWishes(item, i), choices, groups)
    ensures error == SelectionError(cat, item, item.selections[i])
    ensures error.None? ==> Counted(cat, FirstWishes(item, i + 1), byChoice, byGroup)
  {
    var s := item.selections[i];
    byChoice, byGroup := choices, groups;
    error := SelectionError(cat, item, s);
    if error.None? {
      OneMoreWish(item, i);
      CountedOneMore(cat, FirstWishes(item, i), byChoice, byGroup, s);
      byChoice := byChoice[s.choice := Count(byChoice, s.choice) + s.quantity];
      byGroup := byGroup[s.group := Count(byGroup, s.group) + s.quantity];
    }
  }

  /** The wishes up to a selection. */
  function FirstWishes(item: Item, i: nat): seq<Wish>
    requires i <= |item.selections|
  {
    ChoiceWishes(item.choice) + SelectionWishes(item.selections[..i])
  }

  lemma AllWishes(item: Item)
    ensures FirstWishes(item, |item.selections|) == Wishes(item)
  {
    assert item.selections[..|item.selections|] == item.selections;
  }

  lemma OneMoreWish(item: Item, i: nat)
    requires i < |item.selections|
    ensures var s := item.selections[i]; FirstWishes(item, i + 1) == FirstWishes(item, i) + [Wish(s.choice, s.quantity)]
  {
    assert item.selections[..i + 1][..i] == item.selections[..i];
  }

  /** The first group whose counter is out of range, if any. */
  method CheckGroups(cat: Catalog, item: Item, byGroup: map<GroupId, int>) returns (bad: Option<GroupId>)
    requires Known(cat, Wishes(item)) && byGroup == GroupTally(cat, Wishes(item))
    ensures bad.None? <==> forall i :: 0 <= i < |Groups(cat, item)| ==> InRange(cat, item, Groups(cat, item)[i])
    ensures bad.Some? ==> Wrong(cat, item, InvalidGroupCount(bad.value))
  {
    var groups := Groups(cat, item);
    for i := 0 to |groups|
      invariant forall j :: 0 <= j < i ==> InRange(cat, item, groups[j])
    {
      var n := Count(byGroup, groups[i].id);
      TallyCounts(cat, Wishes(item), 0, groups[i].id);
      if n < groups[i].min * item.quantity || n > groups[i].max * item.quantity {
        assert groups[i] in cat.groups[item.product];
        return Some(groups[i].id);
      }
    }
    bad := None;
  }

  /** The only choice of a line that counts one single piece. */
  method SingleChoice(counts: map<ChoiceId, int>) returns (single: Option<ChoiceId>)
    ensures single.Some? <==> exists c :: counts == map[c := 1]
    ensures single.Some? ==> counts == map[single.value := 1]
  {
    single := None;
    if |counts| == 1 {
      ghost var some := SomeKey(counts);
      assert some in counts;
      var c :| c in counts;
      OnlyOne(counts.Keys, c);
      if counts[c] == 1 {
        assert counts == map[c := 1];
        single := Some(c);
      }
    }
  }

  /** Adds the positive modifiers, visiting the counted choices in whatever order. */
  method AddModifiers(cat: Catalog, base: int, counts: map<ChoiceId, int>) returns (unitPrice: int)
    requires counts.Keys <= cat.choices.Keys
    ensures unitPrice == base + Sum(Weighted(cat, counts))
  {
    unitPrice := base;
    var todo := counts;
    while todo != map[]
      invariant todo.Keys <= counts.Keys && (forall c :: c in todo ==> todo[c] == counts[c])
      invariant unitPrice + Sum(Weighted(cat, todo)) == base + Sum(Weighted(cat, counts))
      decreases |todo.Keys|
    {
      ghost var some := SomeKey(todo);
      assert some in todo;
      var c :| c in todo;
      var modifier := cat.choices[c].modifier;
      if modifier < 0 {
        modifier := 0;
      }
      unitPrice := unitPrice + modifier * todo[c];
      SumRemove(Weighted(cat, todo), c);
      assert Weighted(cat, todo) - {c} == Weighted(cat, todo - {c});
      assert (todo - {c}).Keys == todo.Keys - {c};
      todo := todo - {c};
    }
    assert Weighted(cat, map[]) == map[];
  }

  /** One item becomes an order line, or the first error found. */
  method PriceLine(cat: Catalog, item: Item) returns (r: Result<Line>)
    ensures r.Ok? <==> Acceptable(cat, item)
    ensures r.Ok? ==>
      && r.value.product == item.product && r.value.quantity == item.quantity
      && r.value.unitPrice == UnitPrice(cat, item) >= 0
      && r.value.total == Price(cat, item) == r.value.quantity * r.value.unitPrice
      && r.value.counts == Tally(Wishes(item))
    ensures r.Err? ==> FirstError(cat, item, r.error)
    ensures r.Ok? && r.value.single.Some? ==> r.value.counts == map[r.value.single.value := 1]
    ensures r.Ok? && r.value.single.None? ==> forall c :: r.value.counts != map[c := 1]
  {
    if item.product !in cat.prices {
      return Err(ProductNotFound);
    }
    if item.quantity <= 0 || item.quantity > 99 {
      FirstAtStage(cat, item, InvalidQuantity);
      return Err(InvalidQuantity);
    }
    if item.choice.Some? {
      if item.choice.value !in cat.choices {
        FirstAtStage(cat, item, ChoiceNotFound);
        return Err(ChoiceNotFound);
      }
      if cat.choices[item.choice.value].product != item.product {
        FirstAtStage(cat, item, ChoiceOfOtherProduct);
        return Err(ChoiceOfOtherProduct);
      }
    }
    var byChoice, byGroup, wrong := CountSelections(cat, item);
    if wrong.Some? {
      FirstAtStage(cat, item, wrong.value);
      return Err(wrong.value);
    }
    var bad := CheckGroups(cat, item, byGroup);
    if bad.Some? {
      FirstAtStage(cat, item, InvalidGroupCount(bad.value));
      return Err(InvalidGroupCount(bad.value));
    }
    TallyIsWorthExtras(cat, Wishes(item));
    var unitPrice := AddModifiers(cat, cat.prices[item.product], byChoice);
    if unitPrice < 0 {
      FirstAtStage(cat, item, NegativePrice);
      return Err(NegativePrice);
    }
    var single := SingleChoice(byChoice);
    r := Ok(Line(item.product, item.quantity, unitPrice, unitPrice * item.quantity, single, byChoice));
  }

  lemma OnlyOne<T>(s: set<T>, x: T)
    requires |s| == 1 && x in s
    ensures s == {x}
  {
    assert |s - {x}| == 0;
  }

  // ---------------------------------------------------------------------------
  // The running total
  // ---------------------------------------------------------------------------

  /** The sum of the lines' totals: what the resolver keeps as its running total, and what
      saving the order computes again from the lines. */
  function LineSum(lines: seq<Line>): int {
    if lines == [] then 0 else LineSum(lines[..|lines| - 1]) + lines[|lines| - 1].total
  }

  lemma OneMoreLine(lines: seq<Line>, line: Line)
    ensures LineSum(lines + [line]) == LineSum(lines) + line.total
  {
    assert (lines + [line])[..|lines|] == lines;
  }

  /** The line is that of the item, at the item's price. */
  ghost predicate Fits(cat: Catalog, item: Item, line: Line) {
    && Acceptable(cat, item) && line.product == item.product && line.quantity == item.quantity
    && line.unitPrice == UnitPrice(cat, item) && line.total == Price(cat, item)
  }

  ghost predicate PricedLines(cat: Catalog, items: seq<Item>, lines: seq<Line>) {
    |lines| == |items| && forall i :: 0 <= i < |items| ==> Fits(cat, items[i], lines[i])
  }

  ghost predicate FirstWrong(cat: Catalog, items: seq<Item>, i: int, e: Error) {
    0 <= i < |items| && FirstError(cat, items[i], e) && forall j :: 0 <= j < i ==> Acceptable(cat, items[j])
  }

  lemma StopsAt(cat: Catalog, items: seq<Item>, i: nat, e: Error)
    requires i < |items| && FirstError(cat, items[i], e) && forall j :: 0 <= j < i ==> Acceptable(cat, items[j])
    ensures exists k :: FirstWrong(cat, items, k, e)
    ensures !Acceptable(cat, items[i])
  {
    assert FirstWrong(cat, items, i, e);
    AcceptableMeansNothingWrong(cat, items[i]);
  }

  /** Prices the items in order and adds them up, up to the first one that is wrong. */
  method PriceItems(cat: Catalog, items: seq<Item>) returns (lines: seq<Line>, total: int, error: Option<Error>)
    ensures error.None? <==> forall i :: 0 <= i < |items| ==> Acceptable(cat, items[i])
    ensures error.Some? ==> exists i :: FirstWrong(cat, items, i, error.value)
    ensures error.None? ==> PricedLines(cat, items, lines)
    ensures total == LineSum(lines)
  {
    lines, total := [], 0;
    for i := 0 to |items|
      invariant |lines| == i && total == LineSum(lines)
      invariant forall j :: 0 <= j < i ==> Fits(cat, items[j], lines[j])
    {
      var line := PriceLine(cat, items[i]);
      if line.Err? {
        StopsAt(cat, items, i, line.error);
        return lines, total, Some(line.error);
      }
      OneMoreLine(lines, line.value);
      lines := lines + [line.value];
      total := total + line.value.total;
    }
    error := None;
  }

  /** What the items cost together. */
  function Subtotal(cat: Catalog, items: seq<Item>): int
    requires forall i :: 0 <= i < |items| ==> Acceptable(cat, items[i])
  {
    if items == [] then 0 else Subtotal(cat, items[..|items| - 1]) + Price(cat, items[|items| - 1])
  }

  /** The same, spelled out: the pieces of every item, at its product's price with its extras. */
  function Worth(cat: Catalog, items: seq<Item>): int
    requires forall i :: 0 <= i < |items| ==> items[i].product in cat.prices && Known(cat, Wishes(items[i]))
  {
    if items == [] then 0
    else
      var last := items[|items| - 1];
      Worth(cat, items[..|items| - 1]) + last.quantity * (cat.prices[last.product] + Extras(cat, Wishes(last)))
  }

  lemma {:induction false} SubtotalIsWorth(cat: Catalog, items: seq<Item>)
    requires forall i :: 0 <= i < |items| ==> Acceptable(cat, items[i])
    ensures Subtotal(cat, items) == Worth(cat, items)
    decreases |items|
  {
    if items != [] {
      SubtotalIsWorth(cat, items[..|items| - 1]);
      PriceOfPieces(cat, items[|items| - 1]);
    }
  }

  lemma {:induction false} LineSumIsSubtotal(cat: Catalog, items: seq<Item>, lines: seq<Line>)
    requires forall i :: 0 <= i < |items| ==> Acceptable(cat, items[i])
    requires PricedLines(cat, items, lines)
    ensures LineSum(lines) == Subtotal(cat, items)
    decreases |items|
  {
    if items != [] {
      FrontIsPriced(cat, items, lines);
      LineSumIsSubtotal(cat, items[..|items| - 1], lines[..|items| - 1]);
    }
  }

  lemma FrontIsPriced(cat: Catalog, items: seq<Item>, lines: seq<Line>)
    requires items != [] && PricedLines(cat, items, lines)
    ensures PricedLines(cat, items[..|items| - 1], lines[..|items| - 1])
    ensures lines[|items| - 1].total == Price(cat, items[|items| - 1])
  {
    assert Fits(cat, items[|items| - 1], lines[|items| - 1]);
  }
}
