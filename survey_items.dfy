/**
 * The survey definition tree and its flattening into one ordered sequence
 * of single items.
 */
module SurveyItems {
  import opened Wrappers

  /** The `type` tag of a single item that marks a page break. */
  const PageBreakType: string := "pageBreak"

  /**
   * An item of the definition tree: a single item (a leaf, possibly a page
   * break) or a group whose children are flattened in place.  An absent
   * `follows` list is the empty list.
   */
  datatype SurveyItem =
    | SingleItem(key: string, version: int, itemType: Option<string>, follows: seq<string>)
    | GroupItem(key: string, version: int, items: seq<SurveyItem>, follows: seq<string>)

  /** The root of a survey definition is always a group. */
  type SurveyGroupItem = item: SurveyItem | item.GroupItem? witness GroupItem("", 0, [], [])

  /** The single items of the tree under `item`, in declared order. */
  function Flatten(item: SurveyItem): (r: seq<SurveyItem>)
    ensures forall x :: x in r ==> x.SingleItem?
    decreases item, 1
  {
    match item
    case SingleItem(_, _, _, _) => [item]
    case GroupItem(_, _, children, _) => FlattenAll(children)
  }

  /** The single items of the trees under `items`, tree after tree. */
  function FlattenAll(items: seq<SurveyItem>): (r: seq<SurveyItem>)
    ensures forall x :: x in r ==> x.SingleItem?
    decreases items, 0
  {
    if items == [] then [] else Flatten(items[0]) + FlattenAll(items[1..])
  }

  /** Flattening distributes over the concatenation of sibling lists. */
  lemma {:induction false} FlattenAllAppend(a: seq<SurveyItem>, b: seq<SurveyItem>)
    ensures FlattenAll(a + b) == FlattenAll(a) + FlattenAll(b)
  {
    if a == [] {
      assert a + b == b;
    } else {
      assert (a + b)[0] == a[0];
      assert (a + b)[1..] == a[1..] + b;
      FlattenAllAppend(a[1..], b);
    }
  }

  /** A nested group contributes its children's items exactly where it stands. */
  lemma FlattenGroupInPlace(before: seq<SurveyItem>, group: SurveyItem, after: seq<SurveyItem>)
    requires group.GroupItem?
    ensures FlattenAll(before + [group] + after)
         == FlattenAll(before) + FlattenAll(group.items) + FlattenAll(after)
  {
    FlattenAllAppend(before + [group], after);
    FlattenAllAppend(before, [group]);
    assert [group][1..] == [];
  }

  /** A list of single items (no groups) flattens to itself: declared order is kept. */
  lemma {:induction false} FlattenPlain(items: seq<SurveyItem>)
    requires forall x :: x in items ==> x.SingleItem?
    ensures FlattenAll(items) == items
  {
    if items != [] {
      assert items[0] in items;
      FlattenPlain(items[1..]);
    }
  }

  /**
   * Every key named in a `follows` list of `s[i]` is in `allowed` or is the key
   * of an item strictly before position `i`.
   */
  predicate PredecessorsEarlier(s: seq<SurveyItem>, allowed: set<string>) {
    forall i, k :: 0 <= i < |s| && k in s[i].follows ==>
      k in allowed || exists j :: 0 <= j < i && s[j].key == k
  }

  /** The keys of the tree under `item`, the group's own key before its children's. */
  function Keys(item: SurveyItem): (r: seq<string>)
    ensures |r| >= 1 && r[0] == item.key
    decreases item, 1
  {
    match item
    case SingleItem(key, _, _, _) => [key]
    case GroupItem(key, _, children, _) => [key] + KeysAll(children)
  }

  /** The keys of the trees under `items`, tree after tree. */
  function KeysAll(items: seq<SurveyItem>): seq<string>
    decreases items, 0
  {
    if items == [] then [] else Keys(items[0]) + KeysAll(items[1..])
  }

  /** A list of single items has exactly their keys, in order. */
  lemma {:induction false} KeysPlain(items: seq<SurveyItem>)
    requires forall x :: x in items ==> x.SingleItem?
    ensures KeysAll(items) == seq(|items|, i requires 0 <= i < |items| => items[i].key)
  {
    if items != [] {
      assert items[0] in items;
      KeysPlain(items[1..]);
    }
  }

  /** No key occurs twice in `keys`. */
  predicate Distinct(keys: seq<string>) {
    forall i, j :: 0 <= i < j < |keys| ==> keys[i] != keys[j]
  }

  /** No two items of `s` share a key. */
  predicate DistinctItemKeys(s: seq<SurveyItem>) {
    forall i, j :: 0 <= i < j < |s| ==> s[i].key != s[j].key
  }

  /** Every flattened item's key is one of the tree's keys. */
  lemma {:induction false} FlatKeysInKeys(item: SurveyItem)
    ensures forall x :: x in Flatten(item) ==> x.key in Keys(item)
    decreases item, 1
  {
    if item.GroupItem? {
      FlatKeysInKeysAll(item.items);
    }
  }

  /** Every flattened item's key is one of the trees' keys. */
  lemma {:induction false} FlatKeysInKeysAll(items: seq<SurveyItem>)
    ensures forall x :: x in FlattenAll(items) ==> x.key in KeysAll(items)
    decreases items, 0
  {
    if items != [] {
      FlatKeysInKeys(items[0]);
      FlatKeysInKeysAll(items[1..]);
    }
  }

  /** The two halves of a repetition-free key list are repetition-free and disjoint. */
  lemma DistinctSplit(a: seq<string>, b: seq<string>)
    requires Distinct(a + b)
    ensures Distinct(a) && Distinct(b)
    ensures forall k :: k in a ==> k !in b
  {
    forall i, j | 0 <= i < j < |a|
      ensures a[i] != a[j]
    {
      assert (a + b)[i] == a[i] && (a + b)[j] == a[j];
    }
    forall i, j | 0 <= i < j < |b|
      ensures b[i] != b[j]
    {
      assert (a + b)[|a| + i] == b[i] && (a + b)[|a| + j] == b[j];
    }
    forall i, j | 0 <= i < |a| && 0 <= j < |b|
      ensures a[i] != b[j]
    {
      assert (a + b)[i] == a[i] && (a + b)[|a| + j] == b[j];
    }
  }

  /** Two item lists without repeated keys and without a shared key join without one. */
  lemma DistinctItemKeysJoin(a: seq<SurveyItem>, b: seq<SurveyItem>)
    requires DistinctItemKeys(a) && DistinctItemKeys(b)
    requires forall x, y :: x in a && y in b ==> x.key != y.key
    ensures DistinctItemKeys(a + b)
  {
    var t := a + b;
    forall i, j | 0 <= i < j < |t|
      ensures t[i].key != t[j].key
    {
      if j < |a| {
        assert t[i] == a[i] && t[j] == a[j];
      } else if i >= |a| {
        assert t[i] == b[i - |a|] && t[j] == b[j - |a|];
      } else {
        assert t[i] == a[i] && t[j] == b[j - |a|];
        assert t[i] in a && t[j] in b;
      }
    }
  }

  /** A tree without repeated keys flattens to items without repeated keys. */
  lemma {:induction false} FlatKeysDistinct(item: SurveyItem)
    requires Distinct(Keys(item))
    ensures DistinctItemKeys(Flatten(item))
    decreases item, 1
  {
    if item.GroupItem? {
      DistinctSplit([item.key], KeysAll(item.items));
      FlatKeysDistinctAll(item.items);
    }
  }

  /** Trees without repeated keys flatten to items without repeated keys. */
  lemma {:induction false} FlatKeysDistinctAll(items: seq<SurveyItem>)
    requires Distinct(KeysAll(items))
    ensures DistinctItemKeys(FlattenAll(items))
    decreases items, 0
  {
    if items != [] {
      var head, rest := Flatten(items[0]), FlattenAll(items[1..]);
      DistinctSplit(Keys(items[0]), KeysAll(items[1..]));
      FlatKeysDistinct(items[0]);
      FlatKeysDistinctAll(items[1..]);
      FlatKeysInKeys(items[0]);
      FlatKeysInKeysAll(items[1..]);
      DistinctItemKeysJoin(head, rest);
    }
  }

  /**
   * In a tree without repeated keys no flattened item carries the root's key,
   * and no two flattened items share a key.
   */
  lemma RootKeyNotFlat(root: SurveyGroupItem)
    requires Distinct(Keys(root))
    ensures forall x :: x in Flatten(root) ==> x.key != root.key
    ensures DistinctItemKeys(Flatten(root))
  {
    DistinctSplit([root.key], KeysAll(root.items));
    FlatKeysInKeysAll(root.items);
    FlatKeysDistinct(root);
  }

  /**
   * A well-formed definition: no two items of the tree, the root and nested
   * groups included, share a key, and each `follows` entry of a single item
   * names the root group or a single item declared earlier, so declared order
   * already satisfies every dependency.
   */
  predicate WellFormed(root: SurveyGroupItem)
    ensures WellFormed(root) ==> DistinctItemKeys(Flatten(root))
    ensures WellFormed(root) ==> forall x :: x in Flatten(root) ==> x.key != root.key
  {
    && Distinct(Keys(root))
    && (RootKeyNotFlat(root); PredecessorsEarlier(Flatten(root), {root.key}))
  }
}
