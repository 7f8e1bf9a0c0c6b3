/** The children of a JSON node: a doubly linked list whose head points back to its tail. */
module JsonList {
  import opened Graph

  function Without<T>(s: seq<T>, k: nat): seq<T>
    requires k < |s|
  {
    s[..k] + s[k + 1..]
  }

  function With<T>(s: seq<T>, k: nat, x: T): seq<T>
    requires k <= |s|
  {
    s[..k] + [x] + s[k..]
  }

  ghost predicate Linked(child: Item?, kids: seq<Item>)
    reads kids
  {
    && (kids == [] ==> child == null)
    && (kids != [] ==>
          && child == kids[0]
          && kids[0].prev == kids[|kids| - 1]
          && kids[|kids| - 1].next == null)
    && (forall i {:trigger kids[i].prev} :: 1 <= i < |kids| ==> kids[i].prev == kids[i - 1])
    && (forall i {:trigger kids[i].next} :: 0 <= i < |kids| - 1 ==> kids[i].next == kids[i + 1])
  }

  /** The links under a node represent this sequence of children. */
  ghost predicate ListOf(parent: Item, kids: seq<Item>)
    reads parent, kids
  {
    parent !in kids && Distinct(kids) && Linked(parent.child, kids)
  }

  /** Each node's next link leads to the node behind it. */
  ghost predicate IsPath(path: seq<Item>)
    reads path
  {
    forall i {:trigger path[i].next} :: 0 <= i < |path| - 1 ==> path[i].next == path[i + 1]
  }

  /** Whatever list the links represent, it begins with every path from the first child. */
  lemma {:induction false} PathIsPrefix(child: Item?, kids: seq<Item>, path: seq<Item>)
    requires Linked(child, kids) && path != [] && child == path[0] && IsPath(path)
    ensures path <= kids
  {
    var n := |path| - 1;
    if n > 0 {
      assert path[..n][0] == path[0] && forall i :: 0 <= i < n ==> path[..n][i] == path[i];
      PathIsPrefix(child, kids, path[..n]);
      assert kids[n - 1] == path[..n][n - 1];
      assert path[n - 1].next == path[n];
    }
  }

  /** So no path from the first child repeats a node or meets the parent. */
  lemma PathDistinct(parent: Item, kids: seq<Item>, path: seq<Item>)
    requires ListOf(parent, kids) && path != [] && parent.child == path[0] && IsPath(path)
    ensures path <= kids && Distinct(path) && parent !in path
  {
    PathIsPrefix(parent.child, kids, path);
    assert forall i :: 0 <= i < |path| ==> path[i] == kids[i];
  }

  /**
    * A path that ends at the node before the first child, in the circle, or at a node that leads nowhere, is the
    * list.
    */
  lemma PathIsAll(parent: Item, kids: seq<Item>, path: seq<Item>)
    requires ListOf(parent, kids) && path != [] && parent.child == path[0] && IsPath(path)
    requires path[0].prev == path[|path| - 1] || path[|path| - 1].next == null
    ensures kids == path
  {
    PathDistinct(parent, kids, path);
    var n := |path| - 1;
    assert kids[n] == path[n] && kids[0] == path[0];
    OnlyThere(kids, n);
  }

  /** An appended item that was a child already, or that leads on, leaves links that represent no list. */
  lemma AppendBreaks(parent: Item, kids: seq<Item>, item: Item)
    requires kids != [] && parent.child == kids[0] && IsPath(kids + [item]) && kids[0].prev == item
    requires item in kids || item.next != null
    ensures !exists ks: seq<Item> :: ListOf(parent, ks)
  {
    var path, n := kids + [item], |kids|;
    assert path[n] == item && path[0] == kids[0];
    assert item in kids ==> !Distinct(path) by {
      if j :| 0 <= j < n && kids[j] == item {
        assert path[j] == path[n];
      }
    }
    forall ks: seq<Item> | ListOf(parent, ks)
      ensures false
    {
      PathIsAll(parent, ks, path);
    }
  }

  /** The links after `x` was put in front of the child at `m`, whatever `x` is. */
  ghost predicate Spliced(parent: Item, kids: seq<Item>, m: nat, x: Item)
    requires m < |kids|
    reads parent, kids, x
  {
    && parent.child == (if m == 0 then x else kids[0])
    && (m > 0 ==> kids[m - 1].next == x)
    && (forall i {:trigger kids[i].next} :: 0 <= i < |kids| - 1 && i != m - 1 && kids[i] != x ==>
         kids[i].next == kids[i + 1])
    && (kids[|kids| - 1] != x ==> kids[|kids| - 1].next == null)
    && x.next == (if x == kids[m] || (m > 0 && x == kids[m - 1]) then x else kids[m])
    && kids[m].prev == x
    && (x != kids[m] ==> x.prev == Before(kids, m))
    && (forall i {:trigger kids[i].prev} :: 0 <= i < |kids| && i != m && kids[i] != x ==>
         kids[i].prev == Before(kids, i))
  }

  /** The node that the prev link of a child leads to. */
  function Before(kids: seq<Item>, i: nat): Item
    requires i < |kids|
  {
    if i == 0 then kids[|kids| - 1] else kids[i - 1]
  }

  lemma SplicedNext(parent: Item, kids: seq<Item>, m: nat, x: Item, i: nat)
    requires m < |kids| && Spliced(parent, kids, m, x) && x !in kids && i < |kids|
    ensures With(kids, m, x)[i].next == With(kids, m, x)[i + 1]
  {
    if i > m {
      assert kids[i - 1].next == kids[i];
    } else if i < m {
      assert kids[i].next == if i == m - 1 then x else kids[i + 1];
    }
  }

  lemma SplicedPrev(parent: Item, kids: seq<Item>, m: nat, x: Item, i: nat)
    requires m < |kids| && Spliced(parent, kids, m, x) && x !in kids && 1 <= i <= |kids|
    ensures With(kids, m, x)[i].prev == With(kids, m, x)[i - 1]
  {
    if i > m {
      assert kids[i - 1].prev == if i == m + 1 then x else kids[i - 2];
    } else if i < m {
      assert kids[i].prev == kids[i - 1];
    }
  }

  lemma SplicedEnds(parent: Item, kids: seq<Item>, m: nat, x: Item)
    requires m < |kids| && Spliced(parent, kids, m, x) && x !in kids
    ensures var all := With(kids, m, x); var last := |kids|;
            parent.child == all[0] && all[0].prev == all[last] && all[last].next == null
  {
    assert kids[|kids| - 1] != x && With(kids, m, x)[|kids|] == kids[|kids| - 1];
    assert m > 0 ==> kids[0].prev == Before(kids, 0);
  }

  /** A node that is new to the list is spliced in. */
  lemma SplicedIsList(parent: Item, kids: seq<Item>, m: nat, x: Item)
    requires Distinct(kids) && parent !in kids && m < |kids| && Spliced(parent, kids, m, x)
    requires x != parent && x !in kids
    ensures ListOf(parent, With(kids, m, x))
  {
    hide Spliced, Distinct;
    WithDistinct(kids, m, x);
    SplicedEnds(parent, kids, m, x);
    var all := With(kids, m, x);
    hide With;
    forall i | 1 <= i < |all| ensures all[i].prev == all[i - 1] {
      SplicedPrev(parent, kids, m, x, i);
    }
    forall i | 0 <= i < |all| - 1 ensures all[i].next == all[i + 1] {
      SplicedNext(parent, kids, m, x, i);
    }
  }

  /**
    * A path that repeats its last node or ends at the parent: from the first child to `x`, and from there back to
    * `x`.
    */
  lemma SplicedPath(parent: Item, kids: seq<Item>, m: nat, x: Item) returns (path: seq<Item>)
    requires Distinct(kids) && parent !in kids && m < |kids| && Spliced(parent, kids, m, x)
    requires x == parent || exists j :: m - 1 <= j < |kids| && j >= 0 && kids[j] == x
    ensures path != [] && path[0] == parent.child && IsPath(path) && (parent in path || !Distinct(path))
  {
    if x == parent {
      path := kids[..m] + [x];
      assert path[m] == parent;
    } else {
      var j :| m - 1 <= j < |kids| && j >= 0 && kids[j] == x;
      OnlyThere(kids, j);
      if j <= m {
        path := kids[..j + 1] + [x];
        assert path[j] == path[j + 1];
      } else {
        path := kids[..m] + [x] + kids[m..j + 1];
        assert path[m] == x && path[j + 1] == x;
      }
    }
  }

  /** A child that is put further back cuts out what lies between, but its own prev link then points there. */
  lemma SplicedSkip(parent: Item, kids: seq<Item>, m: nat, x: Item, j: nat, ks: seq<Item>)
    requires Distinct(kids) && m < |kids| && j + 1 < m && kids[j] == x && Spliced(parent, kids, m, x)
    ensures !ListOf(parent, ks)
  {
    OnlyThere(kids, j);
    OnlyThere(kids, m - 1);
    OnlyThere(kids, m);
    var path := kids[..j + 1] + kids[m..];
    assert forall i :: 0 <= i <= j ==> path[i] == kids[i];
    assert forall i :: j < i < |path| ==> path[i] == kids[i - j - 1 + m];
    assert IsPath(path);
    assert path[j] == x && path[|path| - 1] == kids[|kids| - 1];
    if ListOf(parent, ks) {
      PathIsAll(parent, ks, path);
    }
  }

  /** The parent or a child put in front of a child leaves links that represent no list. */
  lemma InsertBreaks(parent: Item, kids: seq<Item>, m: nat, x: Item)
    requires Distinct(kids) && parent !in kids && m < |kids| && Spliced(parent, kids, m, x)
    requires x == parent || x in kids
    ensures !exists ks: seq<Item> :: ListOf(parent, ks)
  {
    forall ks: seq<Item> | ListOf(parent, ks)
      ensures false
    {
      if j :| 0 <= j < |kids| && j + 1 < m && kids[j] == x {
        SplicedSkip(parent, kids, m, x, j, ks);
      } else {
        var path := SplicedPath(parent, kids, m, x);
        PathDistinct(parent, ks, path);
      }
    }
  }

  /** A child occurs at one position only. */
  lemma OnlyThere(kids: seq<Item>, k: nat)
    requires Distinct(kids) && k < |kids|
    ensures forall i :: 0 <= i < |kids| && i != k ==> kids[i] != kids[k]
  {
  }

  lemma WithoutDistinct(kids: seq<Item>, k: nat)
    requires Distinct(kids) && k < |kids|
    ensures Distinct(Without(kids, k)) && kids[k] !in Without(kids, k)
    ensures forall x :: x in Without(kids, k) ==> x in kids
    ensures forall i :: 0 <= i < k ==> Without(kids, k)[i] == kids[i]
    ensures forall i :: k <= i < |kids| - 1 ==> Without(kids, k)[i] == kids[i + 1]
  {
  }

  lemma WithDistinct(kids: seq<Item>, k: nat, x: Item)
    requires Distinct(kids) && k <= |kids|
    ensures |With(kids, k, x)| == |kids| + 1
    ensures Distinct(With(kids, k, x)) <==> x !in kids
    ensures forall y :: y in With(kids, k, x) <==> y == x || y in kids
    ensures With(kids, k, x)[k] == x
    ensures forall i :: 0 <= i < k ==> With(kids, k, x)[i] == kids[i]
    ensures forall i :: k < i <= |kids| ==> With(kids, k, x)[i] == kids[i - 1]
  {
    var all := With(kids, k, x);
    assert all[k] == x;
    if x in kids {
      var j :| 0 <= j < |kids| && kids[j] == x;
      assert all[if j < k then j else j + 1] == x;
    }
  }

  lemma ReplacedDistinct(kids: seq<Item>, k: nat, x: Item)
    requires Distinct(kids) && k < |kids| && x !in kids
    ensures Distinct(kids[k := x]) && forall y :: y in kids[k := x] ==> y == x || y in kids
  {
  }

  class Item {
    var next: Item?
    var prev: Item?
    var child: Item?
    /** The children that the links are meant to represent. */
    ghost var kids: seq<Item>

    constructor ()
      ensures next == null && prev == null && child == null && kids == [] && Valid()
    {
      next, prev, child := null, null, null;
      kids := [];
    }

    /** next and prev mirror each other, the last child has no next, and the first one's prev is the last. */
    ghost predicate Valid()
      reads this, kids
    {
      ListOf(this, kids)
    }

    /** Walks `index` links from the first child. */
    method GetArrayItem(index: nat) returns (r: Item?)
      requires Valid()
      ensures r == if index < |kids| then kids[index] else null
    {
      r := child;
      var left := index;
      ghost var at := 0;
      while r != null && left > 0
        invariant 0 <= at <= |kids| && at + left == index
        invariant r == if at < |kids| then kids[at] else null
      {
        left := left - 1;
        assert at < |kids| - 1 ==> kids[at].next == kids[at + 1];
        r := r.next;
        at := at + 1;
      }
    }
  }

  /** The children of a node that may be missing. */
  ghost function Kids(parent: Item?): set<Item>
    reads parent
  {
    if parent == null then {} else set x | x in parent.kids
  }

  /** The operations only relink: a frame leaves out what nodes other than the parent hold themselves. */
  ghost function Only(item: Item?): set<Item> {
    if item == null then {} else {item}
  }

  /** Behind other children an appended item must be new to them and have no next item. */
  ghost predicate Appendable(kids: seq<Item>, item: Item)
    reads item
  {
    item !in kids && (kids != [] ==> item.next == null)
  }

  /**
   * Appends through the tail shortcut. Nothing clears the item's next link or looks for the item among the
   * children: the list stays a list exactly when that is not needed.
   */
  method AddItemToArray(parent: Item?, item: Item?) returns (ok: bool)
    requires parent != null ==> parent.Valid()
    modifies Only(parent)`child, Only(parent)`kids, Kids(parent)`next, Kids(parent)`prev
    modifies Only(item)`next, Only(item)`prev
    ensures ok <==> parent != null && item != null && parent != item
    ensures parent != null ==> parent.kids == if ok then old(parent.kids) + [item] else old(parent.kids)
    ensures parent != null ==> (parent.Valid() <==> !ok || old(Appendable(parent.kids, item)))
    ensures parent != null ==>
              ((exists ks: seq<Item> :: ListOf(parent, ks)) <==> !ok || old(Appendable(parent.kids, item)))
  {
    if item == null || parent == null || parent == item {
      return false;
    }
    ghost var kids := parent.kids;
    var first := parent.child;
    if first == null {
      parent.child := item;
      item.prev := item;
      item.next := null;
    } else {
      var last := first.prev;
      if last != null {
        last.next := item;
        item.prev := last;
        parent.child.prev := item;
      }
    }
    parent.kids := kids + [item];
    assert parent.kids[|kids|] == item && forall i :: 0 <= i < |kids| ==> parent.kids[i] == kids[i];
    if !old(Appendable(parent.kids, item)) {
      AppendBreaks(parent, kids, item);
    }
    return true;
  }

  /** Unlinks a child; afterwards it points nowhere. */
  method DetachItemViaPointer(parent: Item?, item: Item?) returns (r: Item?)
    requires parent != null ==> parent.Valid()
    requires parent != null && item != null ==> item in parent.kids || (item != parent.child && item.prev == null)
    modifies Only(parent)`child, Only(parent)`kids, Kids(parent)`next, Kids(parent)`prev
    ensures parent != null ==> parent.Valid()
    ensures parent != null && item != null && item in old(parent.kids) ==>
              && r == item && item.next == null && item.prev == null
              && exists k :: 0 <= k < |old(parent.kids)| && old(parent.kids)[k] == item
                   && parent.kids == Without(old(parent.kids), k)
    ensures parent == null || item == null || item !in old(parent.kids) ==>
              r == null && (parent != null ==> parent.kids == old(parent.kids))
  {
    if parent == null || item == null || (item != parent.child && item.prev == null) {
      return null;
    }
    ghost var kids := parent.kids;
    ghost var k :| 0 <= k < |kids| && kids[k] == item;
    Unlink(parent, item, k);
    return item;
  }

  /** Takes a child out of the links. */
  method Unlink(parent: Item, item: Item, ghost k: nat)
    requires parent.Valid() && k < |parent.kids| && parent.kids[k] == item
    modifies Only(parent)`child, Only(parent)`kids, Kids(parent)`next, Kids(parent)`prev
    ensures parent.Valid() && parent.kids == Without(old(parent.kids), k)
    ensures item.next == null && item.prev == null
  {
    ghost var kids := parent.kids;
    WithoutDistinct(kids, k);
    OnlyThere(kids, k);
    OnlyThere(kids, if k > 0 then k - 1 else 0);
    OnlyThere(kids, if k + 1 < |kids| then k + 1 else 0);
    OnlyThere(kids, 0);
    hide Distinct;
    if item != parent.child {
      item.prev.next := item.next;
    }
    if item.next != null {
      item.next.prev := item.prev;
    }
    if item == parent.child {
      parent.child := item.next;
    } else if item.next == null {
      parent.child.prev := item.prev;
    }
    item.prev := null;
    item.next := null;
    parent.kids := Without(kids, k);
  }

  /** Unlinks the child at `which`, if there is one. */
  method DetachItemFromArray(parent: Item?, which: int) returns (r: Item?)
    requires parent != null ==> parent.Valid()
    modifies Only(parent)`child, Only(parent)`kids, Kids(parent)`next, Kids(parent)`prev
    ensures parent != null ==> parent.Valid()
    ensures parent != null && 0 <= which < |old(parent.kids)| ==>
              && r == old(parent.kids)[which] && r.next == null && r.prev == null
              && parent.kids == Without(old(parent.kids), which)
    ensures parent == null || !(0 <= which < |old(parent.kids)|) ==>
              r == null && (parent != null ==> parent.kids == old(parent.kids))
  {
    if which < 0 {
      return null;
    }
    var item: Item? := null;
    if parent != null {
      item := parent.GetArrayItem(which);
    }
    r := DetachItemViaPointer(parent, item);
  }

  /** Links a node in front of a child, whatever node it is. */
  method LinkBefore(parent: Item, after: Item, newItem: Item, ghost which: nat)
    requires parent.Valid() && which < |parent.kids| && after == parent.kids[which]
    modifies Only(parent)`child, Only(parent)`kids, Kids(parent)`next, Kids(parent)`prev
    modifies Only(newItem)`next, Only(newItem)`prev
    ensures parent.kids == With(old(parent.kids), which, newItem)
    ensures Spliced(parent, old(parent.kids), which, newItem)
  {
    ghost var kids := parent.kids;
    OnlyThere(kids, which);
    OnlyThere(kids, if which > 0 then which - 1 else 0);
    hide Distinct;
    newItem.next := after;
    newItem.prev := after.prev;
    after.prev := newItem;
    if after == parent.child {
      parent.child := newItem;
    } else {
      newItem.prev.next := newItem;
    }
    parent.kids := With(kids, which, newItem);
  }

  /** Inserts before the child at `which`, or appends when there is none. */
  method InsertItemInArray(parent: Item?, which: int, newItem: Item?) returns (ok: bool)
    requires parent != null ==> parent.Valid()
    modifies Only(parent)`child, Only(parent)`kids, Kids(parent)`next, Kids(parent)`prev
    modifies Only(newItem)`next, Only(newItem)`prev
    ensures ok <==> parent != null && newItem != null && which >= 0 && (which < |old(parent.kids)| || parent != newItem)
    ensures parent != null ==>
              parent.kids == if !ok then old(parent.kids)
                             else if which < |old(parent.kids)| then With(old(parent.kids), which, newItem)
                             else old(parent.kids) + [newItem]
    ensures parent != null ==> (parent.Valid() <==> !ok || old(Insertable(parent, which, newItem)))
    ensures parent != null ==>
              ((exists ks: seq<Item> :: ListOf(parent, ks)) <==> !ok || old(Insertable(parent, which, newItem)))
  {
    if which < 0 || newItem == null {
      return false;
    }
    var after: Item? := null;
    if parent != null {
      after := parent.GetArrayItem(which);
    }
    if after == null {
      ok := AddItemToArray(parent, newItem);
      return;
    }
    ghost var kids := parent.kids;
    LinkBefore(parent, after, newItem, which);
    if newItem == parent || newItem in kids {
      InsertBreaks(parent, kids, which, newItem);
    } else {
      SplicedIsList(parent, kids, which, newItem);
    }
    return true;
  }

  /** Between the children an item only has to be new to them; behind them it must be appendable. */
  ghost predicate Insertable(parent: Item, which: int, item: Item)
    reads parent, item
  {
    if which < |parent.kids| then item != parent && item !in parent.kids else Appendable(parent.kids, item)
  }

  /** Links a node where a child was. */
  method Relink(parent: Item, item: Item, replacement: Item, ghost k: nat)
    requires parent.Valid() && k < |parent.kids| && item == parent.kids[k]
    requires replacement != parent && replacement !in parent.kids
    modifies Only(parent)`child, Only(parent)`kids, Kids(parent)`next, Kids(parent)`prev
    modifies Only(replacement)`next, Only(replacement)`prev
    ensures parent.Valid() && parent.kids == old(parent.kids)[k := replacement]
    ensures item.next == null && item.prev == null
  {
    ghost var kids, last := parent.kids, |parent.kids| - 1;
    ReplacedDistinct(kids, k, replacement);
    OnlyThere(kids, k);
    OnlyThere(kids, if k > 0 then k - 1 else 0);
    OnlyThere(kids, if k < last then k + 1 else 0);
    OnlyThere(kids, 0);
    hide Distinct;
    assert item.next == if k < last then kids[k + 1] else null;
    assert item.prev == if k > 0 then kids[k - 1] else kids[last];
    replacement.next := item.next;
    replacement.prev := item.prev;
    if replacement.next != null {
      replacement.next.prev := replacement;
    }
    if parent.child == item {
      if parent.child.prev == parent.child {
        replacement.prev := replacement;
      }
      parent.child := replacement;
    } else {
      if replacement.prev != null {
        replacement.prev.next := replacement;
      }
      if replacement.next == null {
        parent.child.prev := replacement;
      }
    }
    item.next := null;
    item.prev := null;
    parent.kids := kids[k := replacement];
    assert forall i :: 0 <= i <= last && i != k ==> parent.kids[i] == kids[i];
  }

  /** Puts another node in a child's place; the replaced one is unlinked. */
  method ReplaceItemViaPointer(parent: Item?, item: Item?, replacement: Item?) returns (ok: bool)
    requires parent != null ==> parent.Valid()
    requires parent != null && item != null && parent.kids != [] ==> item in parent.kids
    requires parent != null && replacement != null ==>
               replacement != parent && (replacement == item || replacement !in parent.kids)
    modifies Only(parent)`child, Only(parent)`kids, Kids(parent)`next, Kids(parent)`prev
    modifies Only(replacement)`next, Only(replacement)`prev
    ensures ok <==> parent != null && old(parent.kids) != [] && item != null && replacement != null
    ensures parent != null ==> parent.Valid()
    ensures ok && replacement != item ==>
              && item.next == null && item.prev == null
              && exists k :: 0 <= k < |old(parent.kids)| && old(parent.kids)[k] == item
                   && parent.kids == old(parent.kids)[k := replacement]
    ensures parent != null && (!ok || replacement == item) ==> parent.kids == old(parent.kids)
  {
    if parent == null || parent.child == null || replacement == null || item == null {
      return false;
    }
    if replacement == item {
      return true;
    }
    ghost var kids := parent.kids;
    ghost var k :| 0 <= k < |kids| && kids[k] == item;
    Relink(parent, item, replacement, k);
    return true;
  }

  /** Detaching a child and inserting it where it was restores the list, at the ends as in the middle. */
  method DetachAndPutBack(parent: Item, which: nat)
    requires parent.Valid() && which < |parent.kids|
    modifies Only(parent)`child, Only(parent)`kids, Kids(parent)`next, Kids(parent)`prev
    ensures parent.Valid() && parent.kids == old(parent.kids)
  {
    ghost var kids := parent.kids;
    var item := DetachItemFromArray(parent, which);
    assert kids[which] !in Without(kids, which);
    assert With(Without(kids, which), which, kids[which]) == kids;
    var ok := InsertItemInArray(parent, which, item);
    assert which == |kids| - 1 ==> kids == kids[..which] + [kids[which]];
  }

  /** Appending an item and detaching it again restores the list. */
  method AddAndDetach(parent: Item, item: Item)
    requires parent.Valid() && item != parent && item !in parent.kids && item.next == null
    modifies Only(parent)`child, Only(parent)`kids, Kids(parent)`next, Kids(parent)`prev
    modifies Only(item)`next, Only(item)`prev
    ensures parent.Valid() && parent.kids == old(parent.kids)
    ensures item.next == null && item.prev == null
  {
    ghost var kids := parent.kids;
    var ok := AddItemToArray(parent, item);
    var r := DetachItemViaPointer(parent, item);
    assert Without(kids + [item], |kids|) == kids;
  }

  /** Appending one item twice leaves a node whose links are no list. */
  method AppendedTwice() returns (parent: Item)
    ensures fresh(parent) && !exists ks: seq<Item> :: ListOf(parent, ks)
  {
    parent := new Item();
    var item := new Item();
    var ok := AddItemToArray(parent, item);
    ok := AddItemToArray(parent, item);
  }
}
