/**
 * The biometric device library's list of data handles (bio/bdl/bdlutil.c): a singly linked list with a
 * tail and a count.
 */
module HandleList {
  import opened Base

  /** A handle is the address of its item; NULL is 0. */
  type Handle = nat

  const NULL: Handle := 0

  /** Only the first occurrence goes, and everything else keeps its order. */
  lemma {:induction false} RemoveFirstAt(s: seq<Handle>, h: Handle, k: nat)
    requires k < |s| && s[k] == h && h !in s[..k]
    ensures RemoveFirst(s, h) == Without(s, k)
  {
    if k > 0 {
      assert s[..k] == [s[0]] + s[1..][..k - 1];
      RemoveFirstAt(s[1..], h, k - 1);
    }
  }

  lemma {:induction false} RemoveFirstAbsent(s: seq<Handle>, h: Handle)
    requires h !in s
    ensures RemoveFirst(s, h) == s
  {
    if s != [] {
      RemoveFirstAbsent(s[1..], h);
    }
  }

  /** The node at a position, or null past the end. */
  ghost function At(nodes: seq<Node>, i: nat): Node? {
    if i < |nodes| then nodes[i] else null
  }

  function Without<T>(s: seq<T>, k: nat): seq<T>
    requires k < |s|
  {
    s[..k] + s[k + 1..]
  }

  ghost function Members(nodes: seq<Node>): set<Node> {
    if nodes == [] then {} else {nodes[0]} + Members(nodes[1..])
  }

  lemma {:induction false} MembersAre(nodes: seq<Node>, node: Node)
    ensures node in Members(nodes) <==> node in nodes
  {
    if nodes != [] {
      MembersAre(nodes[1..], node);
    }
  }

  lemma {:induction false} MembersWithout(nodes: seq<Node>, k: nat)
    requires k < |nodes| && Distinct(nodes)
    ensures nodes[k] in Members(nodes) && Members(Without(nodes, k)) == Members(nodes) - {nodes[k]}
  {
    if k == 0 {
      MembersAre(nodes[1..], nodes[0]);
      assert Without(nodes, 0) == nodes[1..];
    } else {
      MembersWithout(nodes[1..], k - 1);
      assert Without(nodes, k)[1..] == Without(nodes[1..], k - 1);
    }
  }

  lemma WithoutAt<T>(s: seq<T>, k: nat, i: nat)
    requires k < |s| && i < |s| - 1
    ensures Without(s, k)[i] == s[if i < k then i else i + 1]
  {
  }

  lemma WithoutDistinct<T>(s: seq<T>, k: nat)
    requires k < |s| && Distinct(s)
    ensures Distinct(Without(s, k)) && s[k] !in Without(s, k)
  {
  }

  class Node {
    var next: Node?
    var handle: Handle

    constructor (handle: Handle, next: Node?)
      ensures this.handle == handle && this.next == next
    {
      this.handle := handle;
      this.next := next;
    }
  }

  /** Node i points to the one after it, the last node to null. */
  ghost predicate Linked(nodes: seq<Node>, i: nat)
    requires i < |nodes|
    reads nodes[i]
  {
    nodes[i].next == At(nodes, i + 1)
  }

  /** Away from the gap, a chain without node k is linked as it was. */
  lemma WithoutLinks(nodes: seq<Node>, k: nat)
    requires 1 <= k < |nodes|
    requires forall i :: 0 <= i < |nodes| ==> Linked(nodes, i)
    ensures forall i :: 0 <= i < |nodes| - 1 && i != k - 1 ==> Linked(Without(nodes, k), i)
    ensures nodes[k].next == At(Without(nodes, k), k)
  {
    assert Linked(nodes, k);
    forall i | 0 <= i < |nodes| - 1 && i != k - 1
      ensures Linked(Without(nodes, k), i)
    {
      assert Linked(nodes, if i < k then i else i + 1);
      WithoutAt(nodes, k, i);
      if i < |nodes| - 2 {
        WithoutAt(nodes, k, i + 1);
      }
    }
  }

  lemma {:induction false} WithoutHandles(nodes: seq<Node>, contents: seq<Handle>, k: nat)
    requires |nodes| == |contents| && k < |nodes|
    requires forall i :: 0 <= i < |nodes| ==> nodes[i].handle == contents[i]
    ensures forall i :: 0 <= i < |nodes| - 1 ==> Without(nodes, k)[i].handle == Without(contents, k)[i]
  {
    forall i | 0 <= i < |nodes| - 1
      ensures Without(nodes, k)[i].handle == Without(contents, k)[i]
    {
      WithoutAt(nodes, k, i);
      WithoutAt(contents, k, i);
    }
  }

  class List {
    var head: Node?
    var tail: Node?
    var numHandles: nat
    /** The nodes in order, and the handles they hold. */
    ghost var nodes: seq<Node>
    ghost var contents: seq<Handle>
    /** The nodes allocated so far: every node of the list is one of them. */
    ghost var repr: set<Node>
    /** Those that have not been freed: exactly the nodes of the list. */
    ghost var live: set<Node>

    /** The fields, the nodes and their links hold the sequence. */
    ghost predicate Chained()
      reads this, repr
    {
      && (forall i :: 0 <= i < |nodes| ==> nodes[i] in repr)
      && |nodes| == |contents| == numHandles
      && Distinct(nodes)
      && (forall i :: 0 <= i < |nodes| ==> nodes[i].handle == contents[i])
      && head == At(nodes, 0)
      && tail == (if nodes == [] then null else nodes[|nodes| - 1])
      && (forall i :: 0 <= i < |nodes| ==> Linked(nodes, i))
    }

    /** And no node is leaked, and none of them was freed. */
    ghost predicate Valid()
      reads this, repr
    {
      Chained() && live == Members(nodes)
    }

    constructor ()
      ensures Valid() && contents == [] && repr == {}
    {
      head, tail, numHandles := null, null, 0;
      nodes, contents, repr, live := [], [], {}, {};
    }

    /** A new handle goes to the front; hasRoom tells whether the pool had room for its node. */
    method Add(handle: Handle, hasRoom: bool) returns (ok: bool)
      requires Valid()
      modifies this
      ensures Valid() && ok == hasRoom
      ensures contents == if ok then [handle] + old(contents) else old(contents)
      ensures fresh(repr - old(repr))
    {
      if !hasRoom {
        return false;
      }
      var node := new Node(handle, null);
      live := {node} + live;
      LinkFirst(node);
      return true;
    }

    method LinkFirst(node: Node)
      requires Chained() && node !in repr && node.next == null
      modifies this, node
      ensures Chained() && repr == old(repr) + {node} && live == old(live)
      ensures nodes == [node] + old(nodes) && contents == [old(node.handle)] + old(contents)
    {
      if head == null {
        head, tail := node, node;
      } else {
        node.next := head;
        head := node;
      }
      numHandles := numHandles + 1;
      ghost var was := nodes;
      nodes, contents, repr := [node] + nodes, [node.handle] + contents, repr + {node};
      forall i | 0 <= i < |nodes|
        ensures Linked(nodes, i)
      {
        if i > 0 {
          assert Linked(was, i - 1);
        }
      }
    }

    /** ExFreePoolWithTag: only a node that is allocated can be freed. */
    method FreeNode(node: Node)
      requires node in live
      modifies this`live
      ensures live == old(live) - {node}
    {
      live := live - {node};
    }

    /** TRUE exactly when the handle was there; the node of its first occurrence is unlinked and freed. */
    method Remove(handle: Handle) returns (removed: bool)
      requires Valid()
      modifies this, repr
      ensures Valid() && repr == old(repr)
      ensures removed <==> handle in old(contents)
      ensures contents == RemoveFirst(old(contents), handle)
    {
      var toDelete;
      ghost var k;
      toDelete, k := UnlinkFirst(handle);
      if toDelete == null {
        return false;
      }
      MembersWithout(old(nodes), k);
      FreeNode(toDelete);
      return true;
    }

    /** The node that Remove frees, if there is one, taken out of the chain. */
    method UnlinkFirst(handle: Handle) returns (node: Node?, ghost k: nat)
      requires Chained()
      modifies this, repr
      ensures Chained() && repr == old(repr) && live == old(live)
      ensures node != null <==> handle in old(contents)
      ensures contents == RemoveFirst(old(contents), handle)
      ensures node == null ==> nodes == old(nodes)
      ensures node != null ==> k < |old(nodes)| && node == old(nodes)[k] && nodes == Without(old(nodes), k)
      ensures Distinct(old(nodes))
    {
      if head == null {
        return null, 0;
      }
      if head.handle == handle {
        RemoveFirstAt(contents, handle, 0);
        node := head;
        UnlinkHead();
        return node, 0;
      }
      var prev;
      prev, node, k := Search(handle);
      if node == null {
        RemoveFirstAbsent(contents, handle);
        return null, k;
      }
      RemoveFirstAt(contents, handle, k);
      Unlink(prev, node, k);
    }

    method UnlinkHead()
      requires Chained() && nodes != []
      modifies this
      ensures Chained() && repr == old(repr) && live == old(live)
      ensures nodes == Without(old(nodes), 0) && contents == old(contents)[1..]
    {
      assert Linked(nodes, 0);
      if head == tail {
        assert |nodes| == 1;
        head, tail := null, null;
      } else {
        head := head.next;
      }
      numHandles := numHandles - 1;
      ghost var was := nodes;
      nodes, contents := nodes[1..], contents[1..];
      forall i | 0 <= i < |nodes|
        ensures Linked(nodes, i)
      {
        assert Linked(was, i + 1);
      }
    }

    /** Walk the list behind its head up to the handle, one node behind with the other pointer. */
    method Search(handle: Handle) returns (prev: Node, cursor: Node?, ghost k: nat)
      requires Chained() && nodes != [] && nodes[0].handle != handle
      ensures 1 <= k <= |nodes| && prev == nodes[k - 1]
      ensures cursor == At(nodes, k)
      ensures handle !in contents[..k]
      ensures k < |nodes| ==> contents[k] == handle
    {
      assert Linked(nodes, 0);
      prev, cursor, k := head, head.next, 1;
      assert contents[..1] == [contents[0]];
      while cursor != null && cursor.handle != handle
        invariant 1 <= k <= |nodes|
        invariant prev == nodes[k - 1]
        invariant cursor == At(nodes, k)
        invariant handle !in contents[..k]
        decreases |nodes| - k
      {
        assert contents[..k + 1] == contents[..k] + [contents[k]];
        assert Linked(nodes, k);
        prev := cursor;
        cursor := cursor.next;
        k := k + 1;
      }
    }

    method Unlink(prev: Node, node: Node, ghost k: nat)
      requires Chained() && 1 <= k < |nodes| && prev == nodes[k - 1] && node == nodes[k]
      modifies this, prev
      ensures Chained() && repr == old(repr) && live == old(live)
      ensures nodes == Without(old(nodes), k) && contents == Without(old(contents), k)
    {
      ghost var rest := Without(nodes, k);
      WithoutDistinct(nodes, k);
      WithoutHandles(nodes, contents, k);
      WithoutLinks(nodes, k);
      if tail == node {
        tail := prev;
      }
      prev.next := node.next;
      numHandles := numHandles - 1;
      nodes, contents := rest, Without(contents, k);
      forall i | 0 <= i < |rest|
        ensures Linked(rest, i)
      {
        if i != k - 1 {
          assert rest[i] != rest[k - 1];
        }
      }
    }

    method GetFirst() returns (found: bool, handle: Handle)
      requires Valid()
      ensures found <==> contents != []
      ensures found ==> handle == contents[0]
    {
      if head == null {
        return false, NULL;
      } else {
        return true, head.handle;
      }
    }

    /**
     * The membership test of the source looks for the handle and then tests the head instead of the
     * cursor. It answers TRUE exactly for an empty list, so it is right exactly for a handle that is
     * missing from a list that is not empty.
     */
    method ValidateHandleIsInList(handle: Handle) returns (valid: bool)
      requires Valid()
      ensures valid <==> contents == []
      ensures valid == (handle in contents) <==> contents != [] && handle !in contents
    {
      var node := head;
      ghost var k := 0;
      while node != null && node.handle != handle
        invariant 0 <= k <= |nodes|
        invariant node == At(nodes, k)
        decreases |nodes| - k
      {
        assert Linked(nodes, k);
        node := node.next;
        k := k + 1;
      }
      if head != null {
        return false;
      } else {
        return true;
      }
    }
  }
}
