// Building the quick-register list from the inventory, and cutting it into pages.
module QuickListBuilder {
  import opened ActorValues
  import opened Progression
  import opened State

  datatype Gate = Allow | BlockNotDisplayed | BlockUnavailable

  /** One inventory entry with what the game says about its item and its register key. */
  datatype Entry = Entry(
    item: FormId, key: Option<FormId>, keyForm: FormType, itemExcluded: bool, keyExcluded: bool,
    count: int, safeCount: int, favorite: bool, questProtected: bool, gate: Gate, name: string)

  datatype ListItem = ListItem(
    formId: FormId, regKey: FormId, group: u32, totalCount: int, safeCount: int,
    blocked: bool, points: u32, disabledReason: string, name: string)

  /** The part of the state the list is built from. */
  datatype Registry = Registry(registered: set<FormId>, blocked: set<FormId>)

  function DisabledReason(e: Entry): string {
    if e.questProtected then "quest_protected"
    else if !e.gate.Allow? then "not_actionable"
    else if e.safeCount > 0 then ""
    else if e.favorite then "favorite_protected"
    else "not_actionable"
  }

  /** Everything that keeps an entry off the list, but for the keys already seen and an empty stack. */
  predicate Qualifies(e: Entry, reg: Registry) {
    && e.key.Some?
    && !e.keyExcluded && e.key.value !in reg.blocked && GroupFromFormType(e.keyForm) <= 5
    && !e.itemExcluded && e.item !in reg.blocked
    && e.key.value !in reg.registered && e.item !in reg.registered
  }

  function ItemFor(e: Entry): ListItem
    requires e.key.Some?
  {
    var reason := DisabledReason(e);
    ListItem(e.item, e.key.value, GroupFromFormType(e.keyForm), e.count, if reason == "" then e.safeCount else 0,
             reason != "", PointsForFormType(e.keyForm), reason, e.name)
  }

  /** The entries in order; a key is only looked at once, whether or not its stack turns out empty. */
  function Eligible(entries: seq<Entry>, reg: Registry, seen: set<FormId>): seq<ListItem> {
    if entries == [] then []
    else
      var e := entries[0];
      if !Qualifies(e, reg) || e.key.value in seen then Eligible(entries[1..], reg, seen)
      else (if e.count > 0 then [ItemFor(e)] else []) + Eligible(entries[1..], reg, seen + {e.key.value})
  }

  predicate DistinctKeys(list: seq<ListItem>) {
    forall i, j | 0 <= i < j < |list| :: list[i].regKey != list[j].regKey
  }

  predicate Lists(list: seq<ListItem>, key: FormId) { exists x :: x in list && x.regKey == key }

  /** The first entry for a key decides: the key is listed when that entry has anything in its stack. */
  predicate FirstHasStock(entries: seq<Entry>, reg: Registry, key: FormId) {
    entries != [] &&
    if Qualifies(entries[0], reg) && entries[0].key.value == key then entries[0].count > 0
    else FirstHasStock(entries[1..], reg, key)
  }

  lemma {:induction false} EligibleKeys(entries: seq<Entry>, reg: Registry, seen: set<FormId>)
    ensures var list := Eligible(entries, reg, seen);
      && DistinctKeys(list)
      && (forall x | x in list :: x.regKey !in seen && x.regKey !in reg.registered && x.formId !in reg.registered
                                  && x.regKey !in reg.blocked && x.formId !in reg.blocked && x.group <= 5
                                     && x.totalCount > 0)
      && (forall x | x in list :: x.blocked <==> x.safeCount <= 0)
    decreases |entries|
  {
    if entries != [] {
      var e := entries[0];
      if !Qualifies(e, reg) || e.key.value in seen {
        EligibleKeys(entries[1..], reg, seen);
      } else {
        EligibleKeys(entries[1..], reg, seen + {e.key.value});
      }
    }
  }

  lemma {:induction false} ListedExactlyWhen(entries: seq<Entry>, reg: Registry, seen: set<FormId>, key: FormId)
    ensures Lists(Eligible(entries, reg, seen), key) <==> key !in seen && FirstHasStock(entries, reg, key)
    decreases |entries|
  {
    if entries != [] {
      var e := entries[0];
      var rest := entries[1..];
      if !Qualifies(e, reg) || e.key.value in seen {
        ListedExactlyWhen(rest, reg, seen, key);
      } else {
        var tail := Eligible(rest, reg, seen + {e.key.value});
        var list := Eligible(entries, reg, seen);
        ListedExactlyWhen(rest, reg, seen + {e.key.value}, key);
        EligibleKeys(rest, reg, seen + {e.key.value});
        if e.count > 0 {
          assert list[0] == ItemFor(e) && list[0] in list;
        }
        if Lists(tail, key) {
          var x :| x in tail && x.regKey == key;
          assert x in list;
        }
      }
    }
  }

  // ---- Order -------------------------------------------------------------------------------

  /** Byte by byte; a proper prefix comes first. */
  predicate NameBefore(a: string, b: string) {
    if a == [] then b != []
    else if b == [] then false
    else if a[0] != b[0] then a[0] < b[0]
    else NameBefore(a[1..], b[1..])
  }

  predicate Before(a: ListItem, b: ListItem) {
    if a.group != b.group then a.group < b.group else NameBefore(a.name, b.name)
  }

  /** Behind all that two names have in common, the smaller byte comes first, and the end of a name before any. */
  lemma {:induction false} NamesDifferExactly(common: string, x: string, y: string)
    requires x == [] || y == [] || x[0] != y[0]
    ensures NameBefore(common + x, common + y) <==> y != [] && (x == [] || x[0] < y[0])
    decreases |common|
  {
    if common == [] {
      assert common + x == x && common + y == y;
    } else {
      assert (common + x)[1..] == common[1..] + x && (common + y)[1..] == common[1..] + y;
      NamesDifferExactly(common[1..], x, y);
    }
  }

  predicate Sorted(list: seq<ListItem>) {
    forall i, j | 0 <= i < j < |list| :: !Before(list[j], list[i])
  }

  /** In a sorted list groups ascend, and within a group no name stands behind one that it comes before. */
  lemma SortedByGroupAndName(list: seq<ListItem>, i: nat, j: nat)
    requires Sorted(list) && i < j < |list|
    ensures list[i].group <= list[j].group
    ensures list[i].group == list[j].group ==> !NameBefore(list[j].name, list[i].name)
  {
    assert !Before(list[j], list[i]);
  }

  lemma {:induction false} NameOrder(a: string, b: string, c: string)
    ensures !NameBefore(a, a)
    ensures NameBefore(a, b) && !NameBefore(c, b) ==> NameBefore(a, c)
    ensures NameBefore(a, b) ==> !NameBefore(b, a)
  {
    if a != [] {
      NameOrder(a[1..], if b == [] then [] else b[1..], if c == [] then [] else c[1..]);
    }
  }

  lemma BeforeOrder(a: ListItem, b: ListItem, c: ListItem)
    ensures Before(a, b) && !Before(c, b) ==> Before(a, c)
    ensures Before(a, b) ==> !Before(b, a)
  {
    NameOrder(a.name, b.name, c.name);
  }

  lemma InsertedIsSorted(list: seq<ListItem>, i: nat, x: ListItem)
    requires Sorted(list) && i <= |list|
    requires forall j | 0 <= j < i :: !Before(x, list[j])
    requires forall j | i <= j < |list| :: !Before(list[j], x)
    ensures Sorted(list[..i] + [x] + list[i..])
    ensures multiset(list[..i] + [x] + list[i..]) == multiset(list) + multiset{x}
  {
    hide Before;
    assert list == list[..i] + list[i..];
    var out := list[..i] + [x] + list[i..];
    forall m, n | 0 <= m < n < |out| ensures !Before(out[n], out[m]) {
      assert out[m] == if m < i then list[m] else if m == i then x else list[m - 1];
      assert out[n] == if n < i then list[n] else if n == i then x else list[n - 1];
    }
  }

  /** An item goes behind everything that does not come after it. */
  method InsertSorted(list: seq<ListItem>, x: ListItem) returns (out: seq<ListItem>)
    requires Sorted(list)
    ensures Sorted(out) && multiset(out) == multiset(list) + multiset{x}
  {
    hide Before;
    var i := |list|;
    while i > 0 && Before(x, list[i - 1])
      invariant 0 <= i <= |list|
      invariant forall j | i <= j < |list| :: Before(x, list[j])
    {
      i := i - 1;
    }
    out := list[..i] + [x] + list[i..];
    forall j | 0 <= j < i ensures !Before(x, list[j]) {
      BeforeOrder(x, list[j], list[i - 1]);
    }
    forall j | i <= j < |list| ensures !Before(list[j], x) {
      BeforeOrder(x, list[j], x);
    }
    InsertedIsSorted(list, i, x);
  }

  /** A list for these entries: the eligible items, in any order the sort may leave equal ones in. */
  ghost predicate IsListFor(list: seq<ListItem>, entries: seq<Entry>, reg: Registry) {
    multiset(list) == multiset(Eligible(entries, reg, {})) && Sorted(list)
  }

  method BuildQuickListEligibleItems(entries: seq<Entry>, reg: Registry) returns (list: seq<ListItem>)
    ensures IsListFor(list, entries, reg)
  {
    hide Eligible, Before, Qualifies;
    var all := CollectEligible(entries, reg);
    list := [];
    for i := 0 to |all|
      invariant Sorted(list) && multiset(list) == multiset(all[..i])
    {
      list := InsertSorted(list, all[i]);
      assert all[..i + 1] == all[..i] + [all[i]];
    }
    assert all[..|all|] == all;
  }

  method CollectEligible(entries: seq<Entry>, reg: Registry) returns (all: seq<ListItem>)
    ensures all == Eligible(entries, reg, {})
  {
    all := [];
    var seen := {};
    for i := 0 to |entries|
      invariant Eligible(entries, reg, {}) == all + Eligible(entries[i..], reg, seen)
    {
      var e := entries[i];
      assert entries[i..][0] == e && entries[i..][1..] == entries[i + 1..];
      if Qualifies(e, reg) && e.key.value !in seen {
        seen := seen + {e.key.value};
        if e.count > 0 {
          all := all + [ItemFor(e)];
        }
      }
    }
  }

  /** Whatever order equal items end up in: no key twice, and nothing registered or blocked. */
  lemma ListedKeys(list: seq<ListItem>, entries: seq<Entry>, reg: Registry)
    requires IsListFor(list, entries, reg)
    ensures DistinctKeys(list)
    ensures forall x | x in list :: x.regKey !in reg.registered && x.formId !in reg.registered
    ensures forall key :: Lists(list, key) <==> FirstHasStock(entries, reg, key)
  {
    var all := Eligible(entries, reg, {});
    EligibleKeys(entries, reg, {});
    SameMembers(list, all);
    SameKeysDistinct(list, all);
    forall key ensures Lists(list, key) <==> FirstHasStock(entries, reg, key) {
      ListedExactlyWhen(entries, reg, {}, key);
    }
  }

  lemma SameMembers(a: seq<ListItem>, b: seq<ListItem>)
    requires multiset(a) == multiset(b)
    ensures forall x :: x in a <==> x in b
  {
    forall x ensures x in a <==> x in b {
      assert x in a <==> x in multiset(a);
      assert x in b <==> x in multiset(b);
    }
  }

  lemma {:induction false} CountOfDistinct(list: seq<ListItem>, x: ListItem)
    requires DistinctKeys(list)
    ensures multiset(list)[x] <= 1
  {
    if list != [] {
      assert list == [list[0]] + list[1..];
      CountOfDistinct(list[1..], x);
      if x == list[0] {
        assert x !in list[1..];
      }
    }
  }

  lemma CountOfTwice(list: seq<ListItem>, i: nat, j: nat)
    requires i < j < |list| && list[i] == list[j]
    ensures multiset(list)[list[i]] >= 2
  {
    var x := list[i];
    assert list == list[..j] + list[j..];
    assert multiset(list) == multiset(list[..j]) + multiset(list[j..]);
    assert x == list[..j][i] && x in list[..j];
    assert x == list[j..][0] && x in list[j..];
  }

  lemma SameKeysDistinct(a: seq<ListItem>, b: seq<ListItem>)
    requires multiset(a) == multiset(b) && DistinctKeys(b)
    ensures DistinctKeys(a)
  {
    SameMembers(a, b);
    forall i, j | 0 <= i < j < |a| ensures a[i].regKey != a[j].regKey {
      if a[i] == a[j] {
        CountOfTwice(a, i, j);
        CountOfDistinct(b, a[i]);
      } else {
        assert a[i] in b && a[j] in b;
      }
    }
  }

  // ---- What a listed item says ---------------------------------------------------------------

  /** What stands between the player and the item, in order of precedence. */
  function WhyNot(e: Entry): string {
    if e.questProtected then "quest_protected"
    else if e.gate.Allow? && e.favorite && e.safeCount <= 0 then "favorite_protected"
    else if e.gate.Allow? && e.safeCount > 0 then ""
    else "not_actionable"
  }

  ghost predicate Shows(x: ListItem, e: Entry) {
    && x.formId == e.item && e.key == Some(x.regKey) && x.name == e.name && x.totalCount == e.count
    && x.group == GroupFromFormType(e.keyForm) && x.points == PointsForFormType(e.keyForm)
    && x.disabledReason == WhyNot(e) && x.blocked == (WhyNot(e) != "")
    && x.safeCount == if WhyNot(e) == "" then e.safeCount else 0
  }

  /** Every listed item shows one of the entries. */
  lemma {:induction false} ListedItemsShowEntries(entries: seq<Entry>, reg: Registry, seen: set<FormId>, x: ListItem)
    requires x in Eligible(entries, reg, seen)
    ensures exists e :: e in entries && Shows(x, e)
    decreases |entries|
  {
    var e, rest := entries[0], entries[1..];
    if Qualifies(e, reg) && e.key.value !in seen {
      if x in Eligible(rest, reg, seen + {e.key.value}) {
        ListedItemsShowEntries(rest, reg, seen + {e.key.value}, x);
      } else {
        assert Shows(x, e);
      }
    } else {
      ListedItemsShowEntries(rest, reg, seen, x);
    }
  }

  // ---- Pages -------------------------------------------------------------------------------

  datatype Page = Page(hasMore: bool, total: nat, items: seq<ListItem>)

  function PageOf(all: seq<ListItem>, offset: nat, limit: nat): Page {
    var start: nat := MinInt(offset, |all|);
    var size: nat := MinInt(limit, |all| - start);
    Page(start + size < |all|, |all|, all[start..start + size])
  }

  /** What a reader collects by asking for page after page while there is more. */
  function Walk(all: seq<ListItem>, offset: nat, limit: nat): seq<ListItem>
    requires limit > 0
    decreases |all| - offset
  {
    var page := PageOf(all, offset, limit);
    page.items + if page.hasMore then Walk(all, offset + limit, limit) else []
  }

  lemma {:induction false} WalkFrom(all: seq<ListItem>, offset: nat, limit: nat)
    requires limit > 0
    ensures Walk(all, offset, limit) == all[MinInt(offset, |all|)..]
    decreases |all| - offset
  {
    if PageOf(all, offset, limit).hasMore {
      WalkFrom(all, offset + limit, limit);
      assert all[offset..] == all[offset..offset + limit] + all[offset + limit..];
    }
  }

  /** A page holds the items of its range that there are; more follow exactly if the range ends before the list does. */
  lemma PageExactly(all: seq<ListItem>, offset: nat, limit: nat)
    ensures var page := PageOf(all, offset, limit);
      && page.total == |all| && (page.hasMore <==> offset + limit < |all|)
      && |page.items| == MaxInt(0, MinInt(offset + limit, |all|) - offset)
      && forall i | 0 <= i < |page.items| :: page.items[i] == all[offset + i]
  {
  }

  /** Successive pages of any positive size concatenate to the full list. */
  lemma PagesConcatenate(all: seq<ListItem>, limit: nat)
    requires limit > 0
    ensures Walk(all, 0, limit) == all
  {
    WalkFrom(all, 0, limit);
  }
}
