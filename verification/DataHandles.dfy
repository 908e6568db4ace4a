/**
 * What the biometric device library does with its list of data handles: drain it, and add a channel's
 * products all or nothing (bio/bdl/bdl.c, bio/bdl/bdlioctl.c).
 */
module DataHandles {
  import opened Base
  import opened HandleList

  /** The item a handle points to: a block owned here, or a handle of the device driver; 0 is NULL. */
  datatype Item = BlockItem(buffer: nat) | HandleItem(data: nat)

  datatype Release = FreeBuffer(buffer: nat) | CloseHandle(data: nat) | FreeItem(handle: Handle)

  function Drop(h: Handle, item: Item): seq<Release> {
    match item
    case BlockItem(buffer) => [FreeBuffer(buffer), FreeItem(h)]
    case HandleItem(data) => [CloseHandle(data), FreeItem(h)]
  }

  /** Dropping a handle frees its item and no other. */
  lemma DropFreesItem(h: Handle, item: Item, other: Handle)
    ensures Occurrences(Drop(h, item), FreeItem(other)) == if h == other then 1 else 0
  {
    assert Drop(h, item) == [Drop(h, item)[0]] + [FreeItem(h)];
    OccurrencesConcat([Drop(h, item)[0]], [FreeItem(h)], FreeItem(other));
  }

  /** Everything a drain releases, in list order. */
  ghost function Drained(handles: seq<Handle>, items: map<Handle, Item>): seq<Release>
    requires forall h :: h in handles ==> h in items
  {
    if handles == [] then []
    else Drop(handles[0], items[handles[0]]) + Drained(handles[1..], items)
  }

  /** Each handle is released as often as it was listed, so exactly once when the handles are distinct. */
  lemma {:induction false} DrainedOnce(handles: seq<Handle>, items: map<Handle, Item>, h: Handle)
    requires forall h :: h in handles ==> h in items
    ensures Occurrences(Drained(handles, items), FreeItem(h)) == Occurrences(handles, h)
  {
    if handles != [] {
      DrainedOnce(handles[1..], items, h);
      DropFreesItem(handles[0], items[handles[0]], h);
      OccurrencesConcat(Drop(handles[0], items[handles[0]]), Drained(handles[1..], items), FreeItem(h));
    }
  }

  /** What the item holds, as it is released: a buffer is freed, a handle of the device driver is closed. */
  predicate Holds(item: Item, release: Release) {
    match item
    case BlockItem(buffer) => release == FreeBuffer(buffer)
    case HandleItem(data) => release == CloseHandle(data)
  }

  /** For each handle in turn first what its item holds is released, then the item is freed; and nothing else is. */
  lemma {:induction false} DrainedInPairs(handles: seq<Handle>, items: map<Handle, Item>)
    requires forall h :: h in handles ==> h in items
    ensures var released := Drained(handles, items);
            && |released| == 2 * |handles|
            && forall i :: 0 <= i < |handles| ==>
                 Holds(items[handles[i]], released[2 * i]) && released[2 * i + 1] == FreeItem(handles[i])
  {
    if handles != [] {
      DrainedInPairs(handles[1..], items);
      var first, rest := Drop(handles[0], items[handles[0]]), Drained(handles[1..], items);
      forall i | 0 <= i < |handles|
        ensures Holds(items[handles[i]], (first + rest)[2 * i]) && (first + rest)[2 * i + 1] == FreeItem(handles[i])
      {
        if i > 0 {
          assert (first + rest)[2 * i] == rest[2 * (i - 1)] && (first + rest)[2 * i + 1] == rest[2 * (i - 1) + 1];
          assert handles[i] == handles[1..][i - 1];
        }
      }
    }
  }

  lemma DrainFirst(released: seq<Release>, handles: seq<Handle>, items: map<Handle, Item>)
    requires handles != [] && forall h :: h in handles ==> h in items
    ensures released + Drained(handles, items)
         == released + Drop(handles[0], items[handles[0]]) + Drained(handles[1..], items)
  {
  }

  /** A local block is freed, any other handle is closed by the device driver; then the item goes. */
  method ReleaseItem(handle: Handle, item: Item) returns (released: seq<Release>)
    ensures released == Drop(handle, item)
  {
    if item.BlockItem? {
      released := [FreeBuffer(item.buffer)];
    } else {
      released := [CloseHandle(item.data)];
    }
    released := released + [FreeItem(handle)];
  }

  /** The first handle leaves the list and is released. */
  method DrainOne(list: List, handle: Handle, items: map<Handle, Item>) returns (drop: seq<Release>)
    requires list.Valid() && list.contents != [] && handle == list.contents[0] && handle in items
    modifies list, list.repr
    ensures list.Valid() && list.repr == old(list.repr)
    ensures list.contents == old(list.contents)[1..]
    ensures drop == Drop(handle, items[handle])
  {
    RemoveFirstAt(list.contents, handle, 0);
    var removed := list.Remove(handle);
    drop := ReleaseItem(handle, items[handle]);
  }

  /** BDLCleanupDataHandles. */
  method CleanupDataHandles(list: List, items: map<Handle, Item>) returns (released: seq<Release>)
    requires list.Valid() && forall h :: h in list.contents ==> h in items
    modifies list, list.repr
    ensures list.Valid() && list.contents == []
    ensures released == Drained(old(list.contents), items)
  {
    released := [];
    ghost var contents := list.contents;
    var found, handle := list.GetFirst();
    while found
      invariant list.Valid() && (found <==> list.contents != []) && (found ==> handle == list.contents[0])
      invariant list.repr == old(list.repr)
      invariant forall h :: h in list.contents ==> h in items
      invariant released + Drained(list.contents, items) == Drained(contents, items)
      decreases |list.contents|
    {
      DrainFirst(released, list.contents, items);
      var drop := DrainOne(list, handle, items);
      released := released + drop;
      found, handle := list.GetFirst();
    }
  }

  /** The products that were requested; one that was not is NULL. */
  function NonNull(products: seq<Handle>): seq<Handle> {
    if products == [] then []
    else (if products[0] == NULL then [] else [products[0]]) + NonNull(products[1..])
  }

  lemma {:induction false} NonNullSnoc(products: seq<Handle>, h: Handle)
    ensures NonNull(products + [h]) == NonNull(products) + (if h == NULL then [] else [h])
  {
    if products == [] {
      assert products + [h] == [h];
    } else {
      NonNullSnoc(products[1..], h);
      assert (products + [h])[1..] == products[1..] + [h];
    }
  }

  lemma {:induction false} NonNullMembers(products: seq<Handle>, h: Handle)
    ensures h in NonNull(products) <==> h != NULL && h in products
  {
    if products != [] {
      NonNullMembers(products[1..], h);
    }
  }

  function Reversed(s: seq<Handle>): seq<Handle> {
    if s == [] then [] else Reversed(s[1..]) + [s[0]]
  }

  lemma {:induction false} ReversedSnoc(s: seq<Handle>, h: Handle)
    ensures Reversed(s + [h]) == [h] + Reversed(s)
  {
    if s == [] {
      assert s + [h] == [h];
    } else {
      ReversedSnoc(s[1..], h);
      assert (s + [h])[1..] == s[1..] + [h];
    }
  }

  /** Two lists that hold the same handles equally often, in whatever order. */
  ghost predicate SameHandles(a: seq<Handle>, b: seq<Handle>) {
    forall h :: Occurrences(a, h) == Occurrences(b, h)
  }

  lemma {:induction false} ReversedSame(s: seq<Handle>)
    ensures SameHandles(Reversed(s), s)
  {
    if s != [] {
      ReversedSame(s[1..]);
      forall h ensures Occurrences(Reversed(s), h) == Occurrences(s, h) {
        OccurrencesConcat(Reversed(s[1..]), [s[0]], h);
      }
    }
  }

  /** The list after adding every product that is not NULL, in order, each at the front. */
  function Added(contents: seq<Handle>, products: seq<Handle>): seq<Handle> {
    Reversed(NonNull(products)) + contents
  }

  lemma AddedSnoc(contents: seq<Handle>, products: seq<Handle>, h: Handle)
    ensures Added(contents, products + [h])
         == if h == NULL then Added(contents, products) else [h] + Added(contents, products)
  {
    NonNullSnoc(products, h);
    ReversedSnoc(NonNull(products), h);
    assert NonNull(products) + [] == NonNull(products);
    assert [h] + Reversed(NonNull(products)) + contents == [h] + Added(contents, products);
  }

  /** Adding lists each product that is not NULL once more, and leaves what was listed behind them. */
  lemma {:induction false} AddedCounts(contents: seq<Handle>, products: seq<Handle>, h: Handle)
    ensures Occurrences(Added(contents, products), h)
         == Occurrences(contents, h) + if h == NULL then 0 else Occurrences(products, h)
    ensures |contents| <= |Added(contents, products)|
    ensures Added(contents, products)[|Added(contents, products)| - |contents|..] == contents
  {
    OccurrencesConcat(Reversed(NonNull(products)), contents, h);
    ReversedSame(NonNull(products));
    assert Occurrences(Reversed(NonNull(products)), h) == Occurrences(NonNull(products), h);
    NonNullCounts(products, h);
  }

  lemma {:induction false} NonNullCounts(products: seq<Handle>, h: Handle)
    ensures Occurrences(NonNull(products), h) == if h == NULL then 0 else Occurrences(products, h)
  {
    if products != [] {
      NonNullCounts(products[1..], h);
      OccurrencesConcat(if products[0] == NULL then [] else [products[0]], NonNull(products[1..]), h);
    }
  }

  /** The latest one comes first. */
  lemma {:induction false} AddedOrder(contents: seq<Handle>, products: seq<Handle>, i: nat)
    requires NULL !in products && i < |products|
    ensures i < |Added(contents, products)| && Added(contents, products)[i] == products[|products| - 1 - i]
  {
    var n := |products| - 1;
    assert products == products[..n] + [products[n]];
    var before := Added(contents, products[..n]);
    assert Added(contents, products) == [products[n]] + before by {
      AddedSnoc(contents, products[..n], products[n]);
    }
    if i > 0 {
      AddedOrder(contents, products[..n], i - 1);
      assert ([products[n]] + before)[i] == before[i - 1];
    }
  }

  /** The list after removing products 0, 1, ... in turn, NULL or not, as the rollback does. */
  function RemoveAll(contents: seq<Handle>, products: seq<Handle>): seq<Handle>
    decreases products
  {
    if products == [] then contents
    else RemoveAll(RemoveFirst(contents, products[0]), products[1..])
  }

  lemma {:induction false} RemoveAllSnoc(contents: seq<Handle>, products: seq<Handle>, h: Handle)
    ensures RemoveAll(contents, products + [h]) == RemoveFirst(RemoveAll(contents, products), h)
    decreases products
  {
    if products == [] {
      assert products + [h] == [h];
    } else {
      RemoveAllSnoc(RemoveFirst(contents, products[0]), products[1..], h);
      assert (products + [h])[1..] == products[1..] + [h];
    }
  }

  /** RemoveFirst works in the first part of a list if the handle is there, else in the second. */
  lemma RemoveFirstSplit(a: seq<Handle>, b: seq<Handle>, h: Handle)
    ensures RemoveFirst(a + b, h) == if h in a then RemoveFirst(a, h) + b else a + RemoveFirst(b, h)
  {
    if h in a {
      RemoveFirstLeft(a, b, h);
    } else {
      RemoveFirstRight(a, b, h);
    }
  }

  lemma {:induction false} RemoveFirstLeft(a: seq<Handle>, b: seq<Handle>, h: Handle)
    requires h in a
    ensures RemoveFirst(a + b, h) == RemoveFirst(a, h) + b
  {
    assert (a + b)[1..] == a[1..] + b;
    if a[0] != h {
      RemoveFirstLeft(a[1..], b, h);
      ConsConcat(a[0], RemoveFirst(a[1..], h), b);
    }
  }

  lemma {:induction false} RemoveFirstRight(a: seq<Handle>, b: seq<Handle>, h: Handle)
    requires h !in a
    ensures RemoveFirst(a + b, h) == a + RemoveFirst(b, h)
  {
    if a == [] {
      assert a + b == b;
    } else {
      assert (a + b)[1..] == a[1..] + b;
      RemoveFirstRight(a[1..], b, h);
      ConsConcat(a[0], a[1..], RemoveFirst(b, h));
      assert [a[0]] + a[1..] == a;
    }
  }

  lemma ConsConcat(h: Handle, s: seq<Handle>, t: seq<Handle>)
    ensures [h] + (s + t) == [h] + s + t
  {
  }

  lemma {:induction false} RemoveFirstCount(s: seq<Handle>, h: Handle, x: Handle)
    ensures Occurrences(RemoveFirst(s, h), x) == Occurrences(s, x) - if h in s && x == h then 1 else 0
  {
    if s != [] {
      RemoveFirstCount(s[1..], h, x);
    }
  }

  lemma {:induction false} RemoveFirstLength(s: seq<Handle>, h: Handle)
    ensures |RemoveFirst(s, h)| == |s| - if h in s then 1 else 0
  {
    if s != [] {
      RemoveFirstLength(s[1..], h);
    }
  }

  /** Removing the products takes exactly their additions out of any list that has them in front, in any order. */
  lemma {:induction false} RemoveAllUndoes(front: seq<Handle>, contents: seq<Handle>, products: seq<Handle>)
    requires SameHandles(front, NonNull(products))
    ensures |RemoveAll(front + contents, products)| <= |contents|
    ensures NULL !in products || NULL !in contents ==> RemoveAll(front + contents, products) == contents
    ensures NULL in products && NULL in contents ==> |RemoveAll(front + contents, products)| < |contents|
    decreases products
  {
    if products == [] {
      assert front == [] || Occurrences(front, front[0]) > 0;
      assert front + contents == contents;
    } else {
      RemoveFirstSplit(front, contents, products[0]);
      assert Occurrences(front, products[0]) == Occurrences(NonNull(products), products[0]);
      OccurrencesMember(front, products[0]);
      OccurrencesMember(NonNull(products), products[0]);
      NonNullMembers(products, products[0]);
      if products[0] == NULL {
        UndoNull(front, contents, products);
      } else {
        UndoProduct(front, contents, products);
      }
    }
  }

  lemma UndoNull(front: seq<Handle>, contents: seq<Handle>, products: seq<Handle>)
    requires products != [] && products[0] == NULL && SameHandles(front, NonNull(products))
    requires RemoveFirst(front + contents, NULL) == front + RemoveFirst(contents, NULL)
    ensures |RemoveAll(front + contents, products)| <= |contents|
    ensures NULL !in contents ==> RemoveAll(front + contents, products) == contents
    ensures NULL in contents ==> |RemoveAll(front + contents, products)| < |contents|
    decreases products, 0
  {
    RemoveFirstLength(contents, NULL);
    if NULL !in contents {
      RemoveFirstAbsent(contents, NULL);
    }
    assert NonNull(products) == NonNull(products[1..]);
    RemoveAllUndoes(front, RemoveFirst(contents, NULL), products[1..]);
  }

  lemma {:induction false} UndoProduct(front: seq<Handle>, contents: seq<Handle>, products: seq<Handle>)
    requires products != [] && products[0] != NULL && SameHandles(front, NonNull(products))
    requires products[0] in front
    requires RemoveFirst(front + contents, products[0]) == RemoveFirst(front, products[0]) + contents
    ensures |RemoveAll(front + contents, products)| <= |contents|
    ensures NULL !in products || NULL !in contents ==> RemoveAll(front + contents, products) == contents
    ensures NULL in products && NULL in contents ==> |RemoveAll(front + contents, products)| < |contents|
    decreases products, 0
  {
    var p, rest := products[0], products[1..];
    forall h ensures Occurrences(RemoveFirst(front, p), h) == Occurrences(NonNull(rest), h) {
      RemoveFirstCount(front, p, h);
      assert Occurrences(front, h) == Occurrences(NonNull(products), h);
      OccurrencesConcat([p], NonNull(rest), h);
    }
    RemoveAllUndoes(RemoveFirst(front, p), contents, rest);
  }

  /**
   * The rollback restores the list exactly, contents and order, unless a product is NULL and NULL is
   * in the list: removing the product that was never added then takes NULL out. The products need not
   * be distinct nor new to the list.
   */
  lemma RollbackExactly(contents: seq<Handle>, products: seq<Handle>)
    ensures RemoveAll(Added(contents, products), products) == contents <==> NULL !in products || NULL !in contents
  {
    ReversedSame(NonNull(products));
    RemoveAllUndoes(Reversed(NonNull(products)), contents, products);
  }

  /** Adding products keeps NULL out of the list, so the rollback is exact on every list this driver builds. */
  lemma NullNeverAdded(contents: seq<Handle>, products: seq<Handle>)
    ensures NULL in Added(contents, products) <==> NULL in contents
  {
    NonNullMembers(products, NULL);
    ReversedSame(NonNull(products));
    assert Occurrences(Reversed(NonNull(products)), NULL) == Occurrences(NonNull(products), NULL);
    OccurrencesMember(Reversed(NonNull(products)), NULL);
    OccurrencesMember(NonNull(products), NULL);
  }

  /** What the error path releases for one product: what the device driver put into the item, then the item. */
  function Discard(p: Handle, items: map<Handle, Item>): seq<Release>
    requires p != NULL ==> p in items
  {
    if p == NULL then []
    else if items[p] == BlockItem(0) || items[p] == HandleItem(0) then [FreeItem(p)]
    else Drop(p, items[p])
  }

  function Discarded(products: seq<Handle>, items: map<Handle, Item>): seq<Release>
    requires forall p :: p in products && p != NULL ==> p in items
  {
    if products == [] then []
    else Discard(products[0], items) + Discarded(products[1..], items)
  }

  lemma {:induction false} DiscardedSnoc(products: seq<Handle>, items: map<Handle, Item>, p: Handle)
    requires forall h :: h in products + [p] && h != NULL ==> h in items
    ensures Discarded(products + [p], items) == Discarded(products, items) + Discard(p, items)
  {
    if products == [] {
      assert products + [p] == [p];
      assert Discarded([p][1..], items) == [];
    } else {
      assert (products + [p])[1..] == products[1..] + [p];
      DiscardedSnoc(products[1..], items, p);
    }
  }

  /** The error path frees each product as often as it was requested, and never NULL. */
  lemma {:induction false} DiscardedOnce(products: seq<Handle>, items: map<Handle, Item>, p: Handle)
    requires forall h :: h in products && h != NULL ==> h in items
    ensures Occurrences(Discarded(products, items), FreeItem(p)) == if p == NULL then 0 else Occurrences(products, p)
  {
    if products != [] {
      DiscardedOnce(products[1..], items, p);
      if products[0] != NULL {
        DropFreesItem(products[0], items[products[0]], p);
      }
      OccurrencesConcat(Discard(products[0], items), Discarded(products[1..], items), FreeItem(p));
    }
  }

  /** The item holds something: neither kind of content is NULL. */
  predicate Filled(item: Item) {
    match item
    case BlockItem(buffer) => buffer != 0
    case HandleItem(data) => data != 0
  }

  /** How many products have an item that holds something which is released in this way. */
  function Holders(products: seq<Handle>, items: map<Handle, Item>, release: Release): nat
    requires forall p :: p in products && p != NULL ==> p in items
  {
    if products == [] then 0
    else
      var p := products[0];
      (if p != NULL && Filled(items[p]) && Holds(items[p], release) then 1 else 0)
      + Holders(products[1..], items, release)
  }

  /** The error path frees each buffer and closes each handle as often as products hold it, and never NULL. */
  lemma {:induction false} DiscardedContents(products: seq<Handle>, items: map<Handle, Item>, release: Release)
    requires forall p :: p in products && p != NULL ==> p in items
    requires !release.FreeItem?
    ensures Occurrences(Discarded(products, items), release) == Holders(products, items, release)
  {
    if products != [] {
      DiscardedContents(products[1..], items, release);
      OccurrencesConcat(Discard(products[0], items), Discarded(products[1..], items), release);
      DiscardContents(products[0], items, release);
    }
  }

  lemma DiscardContents(p: Handle, items: map<Handle, Item>, release: Release)
    requires (p != NULL ==> p in items) && !release.FreeItem?
    ensures Occurrences(Discard(p, items), release)
         == if p != NULL && Filled(items[p]) && Holds(items[p], release) then 1 else 0
  {
    if p != NULL && Filled(items[p]) {
      var drop := Drop(p, items[p]);
      assert drop == [drop[0]] + [FreeItem(p)];
      OccurrencesConcat([drop[0]], [FreeItem(p)], release);
    }
  }

  /** And no item is freed before what it holds. */
  lemma {:induction false} DiscardedInOrder(products: seq<Handle>, items: map<Handle, Item>, k: nat)
    requires forall p :: p in products && p != NULL ==> p in items
    requires k < |Discarded(products, items)|
    ensures var released := Discarded(products, items);
            match released[k]
            case FreeItem(p) => p in items && (Filled(items[p]) ==> k > 0 && Holds(items[p], released[k - 1]))
            case _ => k + 1 < |released| && released[k + 1].FreeItem?
  {
    var first := Discard(products[0], items);
    if k >= |first| {
      DiscardedInOrder(products[1..], items, k - |first|);
    }
  }

  method Rollback(list: List, products: seq<Handle>, x: nat)
    requires list.Valid() && x <= |products|
    modifies list, list.repr
    ensures list.Valid() && list.repr == old(list.repr)
    ensures list.contents == RemoveAll(old(list.contents), products[..x])
  {
    var y := 0;
    while y < x
      invariant 0 <= y <= x
      invariant list.Valid() && list.repr == old(list.repr)
      invariant list.contents == RemoveAll(old(list.contents), products[..y])
    {
      RemoveAllSnoc(old(list.contents), products[..y], products[y]);
      assert products[..y + 1] == products[..y] + [products[y]];
      var _ := list.Remove(products[y]);
      y := y + 1;
    }
  }

  /** There is memory for the nodes of the products from x on. */
  predicate HasRoom(products: seq<Handle>, room: seq<bool>, x: nat)
    requires x <= |products| == |room|
    decreases |products| - x
  {
    x < |products| ==> (products[x] != NULL ==> room[x]) && HasRoom(products, room, x + 1)
  }

  /** That is, for each of them that was requested. */
  lemma {:induction false} HasRoomExactly(products: seq<Handle>, room: seq<bool>, x: nat)
    requires x <= |products| == |room|
    ensures HasRoom(products, room, x) <==> forall i :: x <= i < |products| && products[i] != NULL ==> room[i]
    decreases |products| - x
  {
    if x < |products| {
      HasRoomExactly(products, room, x + 1);
    }
  }

  /** One product: a product that was not requested needs no room, and a refused one takes back those before it. */
  method AddProduct(list: List, products: seq<Handle>, x: nat, room: bool,
                    ghost contents: seq<Handle>, ghost done: seq<Handle>)
    returns (ok: bool)
    requires list.Valid() && x < |products| && done == products[..x]
    requires list.contents == Added(contents, done)
    modifies list, list.repr
    ensures list.Valid() && fresh(list.repr - old(list.repr))
    ensures ok <==> products[x] != NULL ==> room
    ensures ok ==> list.contents == Added(contents, done + [products[x]])
    ensures !ok && (NULL !in products || NULL !in contents) ==> list.contents == contents
  {
    AddedSnoc(contents, done, products[x]);
    if products[x] == NULL {
      return true;
    }
    ok := list.Add(products[x], room);
    if !ok {
      RollbackExactly(contents, done);
      Rollback(list, products, x);
    }
  }

  /** Add the products to the output and the list; room[x] tells whether there is memory for node x. */
  method AddProducts(list: List, products: seq<Handle>, room: seq<bool>) returns (ok: bool, output: seq<Handle>)
    requires list.Valid() && |room| == |products|
    modifies list, list.repr
    ensures list.Valid() && fresh(list.repr - old(list.repr))
    ensures ok <==> HasRoom(products, room, 0)
    ensures ok ==> output == products && list.contents == Added(old(list.contents), products)
    ensures !ok && (NULL !in products || NULL !in old(list.contents)) ==> list.contents == old(list.contents)
  {
    ok, output := true, [];
    ghost var contents := list.contents;
    while ok && |output| < |products|
      invariant |output| <= |products| && output == products[..|output|]
      invariant list.Valid() && fresh(list.repr - old(list.repr))
      invariant ok ==> list.contents == Added(contents, output)
      invariant ok ==> (HasRoom(products, room, |output|) <==> HasRoom(products, room, 0))
      invariant !ok ==> !HasRoom(products, room, 0)
      invariant !ok && (NULL !in products || NULL !in contents) ==> list.contents == contents
      decreases |products| - |output|
    {
      var x := |output|;
      ok := AddProduct(list, products, x, room[x], contents, output);
      PrefixSnoc(products, x);
      output := output + [products[x]];
    }
    WholePrefix(products);
  }

  /** The error return: give back every product. */
  method DiscardProducts(products: seq<Handle>, items: map<Handle, Item>) returns (released: seq<Release>)
    requires forall p :: p in products && p != NULL ==> p in items
    ensures released == Discarded(products, items)
  {
    released := [];
    var x := 0;
    while x < |products|
      invariant 0 <= x <= |products|
      invariant released == Discarded(products[..x], items)
    {
      assert products[..x + 1] == products[..x] + [products[x]];
      DiscardedSnoc(products[..x], items, products[x]);
      if products[x] != NULL {
        match items[products[x]] {
          case HandleItem(data) =>
            if data != 0 {
              released := released + [CloseHandle(data)];
            }
          case BlockItem(buffer) =>
            if buffer != 0 {
              released := released + [FreeBuffer(buffer)];
            }
        }
        released := released + [FreeItem(products[x])];
      }
      x := x + 1;
    }
    assert products[..x] == products;
  }

  /**
   * The end of BDLIOCTL_DoChannel, from the device driver's answer on: all or nothing. Either every
   * requested product is in the list and in the output, or the list is as it was and every product is
   * given back.
   */
  method DoChannel(list: List, products: seq<Handle>, items: map<Handle, Item>, room: seq<bool>, succeeded: bool)
    returns (ok: bool, output: seq<Handle>, released: seq<Release>)
    requires list.Valid() && |room| == |products|
    requires forall p :: p in products && p != NULL ==> p in items
    modifies list, list.repr
    ensures list.Valid()
    ensures ok <==> succeeded && HasRoom(products, room, 0)
    ensures ok ==> output == products && released == [] && list.contents == Added(old(list.contents), products)
    ensures !ok ==> released == Discarded(products, items)
    ensures !ok && NULL !in old(list.contents) ==> list.contents == old(list.contents)
  {
    ok, output, released := false, [], [];
    if succeeded {
      ok, output := AddProducts(list, products, room);
    }
    if !ok {
      released := DiscardProducts(products, items);
    }
  }
}
