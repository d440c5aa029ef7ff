/** The cache as it is built: a circular doubly linked list of nodes in recency order with a
    sentinel, a hash table from keys to nodes, and a byte count. Every method is proved against the
    function of the same name in CacheSpec. */
module LruCache {
  import opened Wrappers
  import Spec = CacheSpec

  /** One element of the list: a key, its entry and the two links. */
  class Node {
    const key: Key
    var buffer: Bytes
    var completed: bool
    var inUse: int
    var prev: Node
    var next: Node

    constructor (key: Key)
      ensures this.key == key && Entry() == Spec.FRESH_ENTRY
    {
      this.key := key;
      buffer, completed, inUse := "", false, 1;
      prev, next := this, this;
    }

    ghost function Entry(): Spec.Entry
      reads this`buffer, this`completed, this`inUse
    {
      Spec.Entry(buffer, completed, inUse)
    }

    method Append(buf: Bytes)
      modifies this`buffer
      ensures Entry() == old(Entry()).(buffer := old(buffer) + buf)
    {
      buffer := buffer + buf;
    }

    method Complete()
      modifies this`completed
      ensures Entry() == old(Entry()).(completed := true)
    {
      completed := true;
    }

    method IncrementUse()
      modifies this`inUse
      ensures Entry() == old(Entry()).(inUse := old(inUse) + 1)
    {
      inUse := inUse + 1;
    }

    method DecrementUse()
      modifies this`inUse
      ensures Entry() == old(Entry()).(inUse := old(inUse) - 1)
    {
      inUse := inUse - 1;
    }
  }

  class Cache {
    const maxSize: nat
    const end: Node
    var hashTable: map<Key, Node>
    var currentSize: int
    ghost var nodes: seq<Node>
    ghost var items: seq<Spec.Item>
    ghost var Repr: set<object>

    /** The list runs end, nodes[0], nodes[1], ..., end in both directions. */
    ghost predicate Linked()
      reads this`nodes, end`prev, end`next, nodes`prev, nodes`next
    {
      && end !in nodes
      && (forall i, j :: 0 <= i < j < |nodes| ==> nodes[i] != nodes[j])
      && (forall i {:trigger nodes[i].next} ::
            0 <= i < |nodes| ==> nodes[i].next == if i + 1 < |nodes| then nodes[i + 1] else end)
      && (forall i {:trigger nodes[i].prev} ::
            0 <= i < |nodes| ==> nodes[i].prev == if i > 0 then nodes[i - 1] else end)
      && end.next == (if nodes == [] then end else nodes[0])
      && end.prev == (if nodes == [] then end else nodes[|nodes| - 1])
    }

    /** The hash table maps exactly the listed keys, each to its own node. */
    static ghost predicate Indexes(table: map<Key, Node>, ns: seq<Node>) {
      && (forall i :: 0 <= i < |ns| ==> ns[i].key in table && table[ns[i].key] == ns[i])
      && (forall k :: k in table ==> table[k] in ns && table[k].key == k)
    }

    /** The nodes hold the items. */
    ghost predicate Holds()
      reads this`nodes, this`items, nodes`buffer, nodes`completed, nodes`inUse
    {
      |items| == |nodes|
      && forall i :: 0 <= i < |nodes| ==> items[i] == Spec.Item(nodes[i].key, nodes[i].Entry())
    }

    ghost predicate IsLast(n: Node)
      reads this`nodes
    {
      nodes != [] && nodes[|nodes| - 1] == n
    }

    ghost predicate Valid()
      reads this, Repr
    {
      && this in Repr && end in Repr && (forall i :: 0 <= i < |nodes| ==> nodes[i] in Repr)
      && Linked() && Indexes(hashTable, nodes) && |items| == |nodes| && Holds()
    }

    ghost function View(): Spec.Store
      reads this
    {
      Spec.Store(items, currentSize, maxSize)
    }

    constructor (maxBytes: nat)
      ensures Valid() && fresh(Repr)
      ensures View() == Spec.Store([], 0, maxBytes)
    {
      maxSize, currentSize, hashTable := maxBytes, 0, map[];
      var sentinel := new Node("");
      end := sentinel;
      nodes, items, Repr := [], [], {this, sentinel};
      new;
      end.prev, end.next := end, end;
    }

    // ----- where a key is -----

    lemma Position(k: Key) returns (i: nat)
      requires Valid() && k in hashTable
      ensures i < |nodes| && nodes[i] == hashTable[k]
      ensures Spec.Find(items, k) == i
      ensures Spec.Lookup(View(), k) == Some(nodes[i].Entry())
    {
      i :| i < |nodes| && nodes[i] == hashTable[k];
      var f := Spec.Find(items, k);
      assert items[i].key == k;
      assert nodes[f].key == k;
    }

    lemma Absent(k: Key)
      requires Valid() && k !in hashTable
      ensures Spec.Lookup(View(), k) == None
    {
      assert forall j :: 0 <= j < |items| ==> items[j].key == nodes[j].key;
    }

    lemma BackIsLast()
      requires Linked() && nodes != []
      ensures IsLast(end.prev)
    {
    }

    lemma DistinctKeys()
      requires Valid()
      ensures Spec.Distinct(items)
    {
      assert forall j :: 0 <= j < |items| ==> items[j].key == nodes[j].key;
    }

    /** What `Touch` and `Drop` do at the position of a key. */
    static lemma AtPosition(s: Spec.Store, k: Key, i: nat)
      requires i < |s.items| && Spec.Find(s.items, k) == i
      ensures Spec.Touch(s, k) == s.(items := s.items[..i] + s.items[i + 1..] + [s.items[i]])
      ensures Spec.Drop(s, k) == s.(items := s.items[..i] + s.items[i + 1..],
                                    current := s.current - |s.items[i].entry.buffer|)
    {
    }

    static lemma MovedIndexes(table: map<Key, Node>, ns: seq<Node>, i: nat)
      requires Indexes(table, ns) && i < |ns|
      ensures Indexes(table, ns[..i] + ns[i + 1..] + [ns[i]])
    {
      var moved := ns[..i] + ns[i + 1..] + [ns[i]];
      assert ns == ns[..i] + [ns[i]] + ns[i + 1..];
      assert forall n :: n in ns <==> n in moved;
    }

    lemma DropAt(k: Key) returns (i: nat)
      requires Valid() && k in hashTable
      ensures i < |nodes| && nodes[i] == hashTable[k]
      ensures Spec.Drop(View(), k)
              == Spec.Store(items[..i] + items[i + 1..], currentSize - |hashTable[k].buffer|, maxSize)
    {
      i := Position(k);
      AtPosition(View(), k, i);
    }

    static lemma AppendedIndexes(table: map<Key, Node>, ns: seq<Node>, n: Node)
      requires Indexes(table, ns) && n.key !in table
      ensures Indexes(table[n.key := n], ns + [n])
    {
    }

    static lemma RemovedIndexes(table: map<Key, Node>, ns: seq<Node>, i: nat)
      requires Indexes(table, ns) && i < |ns|
      requires forall a, b :: 0 <= a < b < |ns| ==> ns[a] != ns[b]
      ensures Indexes(table - {ns[i].key}, ns[..i] + ns[i + 1..])
    {
      var kept := ns[..i] + ns[i + 1..];
      assert ns == ns[..i] + [ns[i]] + ns[i + 1..];
      assert forall n :: n in kept ==> n in ns;
    }

    lemma DistinctNodes()
      requires Linked()
      ensures forall a, b :: 0 <= a < b < |nodes| ==> nodes[a] != nodes[b]
    {
    }

    // ----- the operations of std::list that the cache uses -----

    method Unlink(n: Node, ghost i: nat)
      requires Linked() && i < |nodes| && nodes[i] == n
      modifies this`nodes, end`prev, end`next, nodes`prev, nodes`next
      ensures Linked()
      ensures nodes == old(nodes[..i] + nodes[i + 1..])
    {
      n.prev.next := n.next;
      n.next.prev := n.prev;
      nodes := nodes[..i] + nodes[i + 1..];
    }

    method Erase(n: Node, ghost i: nat)
      requires Linked() && Holds() && i < |nodes| && nodes[i] == n
      modifies this`nodes, this`items, end`prev, end`next, nodes`prev, nodes`next
      ensures Linked() && Holds()
      ensures nodes == old(nodes[..i] + nodes[i + 1..])
      ensures items == old(items[..i] + items[i + 1..])
      ensures |nodes| == |old(nodes)| - 1
      ensures forall x :: x in nodes ==> x in old(nodes)
    {
      Unlink(n, i);
      items := items[..i] + items[i + 1..];
    }

    method Link(n: Node)
      requires Linked() && n !in nodes && n != end
      modifies this`nodes, end`prev, end`next, nodes`prev, nodes`next, n`prev, n`next
      ensures Linked() && nodes == old(nodes) + [n]
    {
      n.prev, n.next := end.prev, end;
      end.prev.next := n;
      end.prev := n;
      nodes := nodes + [n];
    }

    method LinkLast(n: Node)
      requires Linked() && Holds() && n !in nodes && n != end
      modifies this`nodes, this`items, end`prev, end`next, nodes`prev, nodes`next, n`prev, n`next
      ensures Linked() && Holds()
      ensures nodes == old(nodes) + [n]
      ensures items == old(items) + [Spec.Item(n.key, n.Entry())]
    {
      Link(n);
      items := items + [Spec.Item(n.key, n.Entry())];
    }

    method Splice(n: Node, ghost i: nat)
      requires Linked() && Holds() && i < |nodes| && nodes[i] == n
      modifies this`nodes, this`items, end`prev, end`next, nodes`prev, nodes`next
      ensures Linked() && Holds()
      ensures nodes == old(nodes[..i] + nodes[i + 1..]) + [n]
      ensures items == old(items[..i] + items[i + 1..] + [items[i]])
      ensures forall x :: x in nodes <==> x in old(nodes)
    {
      assert nodes == nodes[..i] + [n] + nodes[i + 1..];
      Erase(n, i);
      LinkLast(n);
    }

    // ----- the cache's own operations -----

    /** Splices the node of `key` to the recent end. */
    method MakeMostRecentlyUsed(key: Key) returns (found: bool)
      requires Valid()
      modifies this`nodes, this`items, this`hashTable, end`prev, end`next, nodes`prev, nodes`next
      ensures Valid() && hashTable == old(hashTable)
      ensures found == (key in hashTable)
      ensures View() == Spec.Touch(old(View()), key)
      ensures found ==> IsLast(hashTable[key])
    {
      found := key in hashTable;
      if found {
        MoveToEnd(key);
      } else {
        Absent(key);
      }
    }

    method MoveToEnd(key: Key)
      requires Valid() && key in hashTable
      modifies this`nodes, this`items, this`hashTable, end`prev, end`next, nodes`prev, nodes`next
      ensures Valid() && hashTable == old(hashTable)
      ensures View() == Spec.Touch(old(View()), key)
      ensures IsLast(hashTable[key])
    {
      hide Linked, Holds, Indexes, Spec.Touch, Spec.Lookup;
      ghost var i := Position(key);
      AtPosition(View(), key, i);
      MovedIndexes(hashTable, nodes, i);
      Splice(hashTable[key], i);
      BackIsLast();
      hashTable := hashTable[key := end.prev];
      assert hashTable == old(hashTable);
    }

    method Contains(key: Key) returns (b: bool)
      requires Valid()
      ensures b == Spec.Contains(View(), key) == (key in hashTable)
    {
      b := key in hashTable;
      if b {
        var _ := Position(key);
      } else {
        Absent(key);
      }
    }

    /** None stands for the KeyNotFound exception; the entry returned is the one in the list. */
    method GetEntry(key: Key) returns (r: Option<Node>)
      requires Valid()
      modifies this`nodes, this`items, this`hashTable, end`prev, end`next, nodes`prev, nodes`next
      ensures Valid() && hashTable == old(hashTable)
      ensures View() == Spec.Touch(old(View()), key)
      ensures r == if key in hashTable then Some(hashTable[key]) else None
      ensures r.Some? ==> IsLast(r.value) && r.value.key == key && r.value in old(nodes)
      ensures r.Some? ==> Spec.Lookup(old(View()), key) == Some(r.value.Entry())
      ensures r.None? ==> Spec.Lookup(old(View()), key) == None
    {
      if key in hashTable {
        ghost var i := Position(key);
      } else {
        Absent(key);
      }
      var found := MakeMostRecentlyUsed(key);
      r := if found then Some(hashTable[key]) else None;
    }

    /** What a caller of getEntry sees; None stands for the KeyNotFound exception. */
    method ReadEntry(key: Key) returns (r: Option<Spec.Entry>)
      requires Valid()
      modifies Repr
      ensures Valid() && Repr == old(Repr)
      ensures View() == Spec.Touch(old(View()), key) && r == Spec.Lookup(old(View()), key)
    {
      hide Linked, Holds, Indexes, Spec.Touch, Spec.Lookup;
      var e := GetEntry(key);
      r := match e
           case None => None
           case Some(n) => Some(Spec.Entry(n.buffer, n.completed, n.inUse));
    }

    /** None stands for the KeyNotFound exception. */
    method Read(key: Key, offset: nat, len: nat) returns (r: Option<Bytes>)
      requires Valid()
      requires Spec.Contains(View(), key) ==> offset + len <= |Spec.Lookup(View(), key).value.buffer|
      modifies Repr
      ensures Valid() && Repr == old(Repr)
      ensures View() == Spec.Read(old(View()), key, offset, len).0
      ensures r == Spec.Read(old(View()), key, offset, len).1
    {
      var e := GetEntry(key);
      if e == None {
        return None;
      }
      r := Some(end.prev.buffer[offset..offset + len]);
    }

    method Drop(key: Key)
      requires Valid()
      modifies Repr
      ensures Valid() && Repr == old(Repr)
      ensures View() == Spec.Drop(old(View()), key)
    {
      if key in hashTable {
        DropPresent(key);
      } else {
        Absent(key);
      }
    }

    method DropPresent(key: Key)
      requires Valid() && key in hashTable
      modifies this`nodes, this`items, this`hashTable, this`currentSize, end`prev, end`next, nodes`prev, nodes`next
      ensures Valid() && Repr == old(Repr)
      ensures View() == Spec.Drop(old(View()), key)
      ensures |nodes| < |old(nodes)|
    {
      ghost var i := DropAt(key);
      currentSize := currentSize - |hashTable[key].buffer|;
      Forget(key, i);
    }

    /** Erases the node of `key` from the list, then `key` from the hash table. */
    method Forget(key: Key, ghost i: nat)
      requires Valid() && key in hashTable && i < |nodes| && nodes[i] == hashTable[key] && nodes[i].key == key
      modifies this`nodes, this`items, this`hashTable, end`prev, end`next, nodes`prev, nodes`next
      ensures Valid()
      ensures items == old(items[..i] + items[i + 1..]) && |nodes| == |old(nodes)| - 1
    {
      hide Linked, Holds, Indexes;
      DistinctNodes();
      RemovedIndexes(hashTable, nodes, i);
      Erase(hashTable[key], i);
      hashTable := hashTable - {key};
    }

    lemma IdleAt(i: nat)
      requires Holds() && i <= |nodes|
      requires forall j :: 0 <= j < i ==> nodes[j].inUse != 0
      requires i < |nodes| ==> nodes[i].inUse == 0
      ensures Spec.FirstIdle(items) == if i < |nodes| then i else -1
    {
      assert forall j :: 0 <= j < |nodes| ==> items[j].entry.inUse == nodes[j].inUse;
    }

    /** False stands for the AllInUse exception. */
    method RemoveLeastRecentlyUsed() returns (ok: bool)
      requires Valid()
      modifies Repr
      ensures Valid() && Repr == old(Repr)
      ensures ok == (Spec.FirstIdle(old(items)) >= 0)
      ensures ok ==> View() == Spec.Drop(old(View()), old(items)[Spec.FirstIdle(old(items))].key)
      ensures ok ==> |nodes| < |old(nodes)|
      ensures !ok ==> View() == old(View())
    {
      var it := end.next;
      ghost var i := 0;
      while it != end && it.inUse != 0
        invariant 0 <= i <= |nodes| && it == if i < |nodes| then nodes[i] else end
        invariant forall j :: 0 <= j < i ==> nodes[j].inUse != 0
        decreases |nodes| - i
      {
        it := it.next;
        i := i + 1;
      }
      IdleAt(i);
      ok := it != end;
      if ok {
        DropPresent(it.key);
      }
    }

    /** False stands for the AllInUse exception. */
    method FreeSpace(needed: nat) returns (ok: bool)
      requires Valid()
      modifies Repr
      ensures Valid() && Repr == old(Repr)
      ensures (View(), ok) == Spec.FreeSpace(old(View()), needed)
    {
      hide Linked, Holds, Indexes, Spec.Drop;
      while maxSize - currentSize < needed
        invariant Valid() && Repr == old(Repr)
        invariant Spec.FreeSpace(View(), needed) == Spec.FreeSpace(old(View()), needed)
        decreases |nodes|
      {
        var removed := RemoveLeastRecentlyUsed();
        if !removed {
          return false;
        }
      }
      ok := true;
    }

    static lemma NothingAt(s: Spec.Store, k: Key)
      requires Spec.Lookup(s, k) == None
      ensures Spec.Touch(s, k) == s && Spec.Complete(s, k) == s
      ensures forall buf :: Spec.AppendTo(s, k, buf) == s
    {
    }

    // ----- changing the entry of the most recently used node through a reference to it -----

    /** `items` agrees with the nodes again after the entry of the last node changed. */
    ghost method RecordLast(n: Node)
      requires IsLast(n) && |items| == |nodes|
      requires forall i :: 0 <= i < |nodes| - 1 ==> items[i] == Spec.Item(nodes[i].key, nodes[i].Entry())
      modifies this`items
      ensures Holds()
      ensures items == old(items)[|items| - 1 := Spec.Item(n.key, n.Entry())]
    {
      items := items[|items| - 1 := Spec.Item(n.key, n.Entry())];
    }

    method AppendTo(n: Node, buf: Bytes)
      requires Valid() && IsLast(n)
      modifies this`items, n`buffer
      ensures Valid()
      ensures n.Entry() == old(n.Entry()).(buffer := old(n.buffer) + buf)
      ensures View() == old(View()).(items := old(items)[|items| - 1 := Spec.Item(n.key, n.Entry())])
    {
      n.Append(buf);
      RecordLast(n);
    }

    method IncrementUse(n: Node)
      requires Valid() && IsLast(n)
      modifies this`items, n`inUse
      ensures Valid()
      ensures n.Entry() == old(n.Entry()).(inUse := old(n.inUse) + 1)
      ensures View() == old(View()).(items := old(items)[|items| - 1 := Spec.Item(n.key, n.Entry())])
    {
      n.IncrementUse();
      RecordLast(n);
    }

    method DecrementUse(n: Node)
      requires Valid() && IsLast(n)
      modifies this`items, n`inUse
      ensures Valid()
      ensures n.Entry() == old(n.Entry()).(inUse := old(n.inUse) - 1)
      ensures View() == old(View()).(items := old(items)[|items| - 1 := Spec.Item(n.key, n.Entry())])
    {
      n.DecrementUse();
      RecordLast(n);
    }

    method CompleteLast(n: Node)
      requires Valid() && IsLast(n)
      modifies this`items, n`completed
      ensures Valid()
      ensures n.Entry() == old(n.Entry()).(completed := true)
      ensures View() == old(View()).(items := old(items)[|items| - 1 := Spec.Item(n.key, n.Entry())])
    {
      n.Complete();
      RecordLast(n);
    }

    method Append(key: Key, buf: Bytes) returns (found: bool)
      requires Valid()
      modifies this`nodes, this`items, this`hashTable, end`prev, end`next, nodes
      ensures Valid()
      ensures found == Spec.Contains(old(View()), key)
      ensures View() == Spec.AppendTo(old(View()), key, buf)
    {
      hide Linked, Holds, Indexes, Spec.Touch, Spec.AppendTo;
      ghost var before := View();
      var e := GetEntry(key);
      found := e.Some?;
      if found {
        ghost var touched := View();
        BackIsLast();
        AppendTo(end.prev, buf);
        PutIsAppend(before, key, touched, buf, e.value.Entry(), View());
      } else {
        NothingAt(before, key);
      }
    }

    /** Frees space, counts the bytes, then appends them; a failure keeps what was done before it. */
    method Write(key: Key, buf: Bytes) returns (status: Spec.Status)
      requires Valid()
      modifies Repr
      ensures Valid() && Repr == old(Repr)
      ensures View() == Spec.Write(old(View()), key, buf).0
      ensures status == Spec.Write(old(View()), key, buf).1
    {
      hide Linked, Holds, Indexes, Spec.FreeSpace, Spec.AppendTo, Spec.Lookup;
      var ok := FreeSpace(|buf|);
      if !ok {
        return Spec.AllInUse;
      }
      currentSize := currentSize + |buf|;
      var found := Append(key, buf);
      status := if found then Spec.Ok else Spec.KeyNotFound;
    }

    // ----- use counts -----

    /** Touching `k` and then storing `e` in the last item is putting `e` at `k`. */
    static lemma TouchThenSet(s: Spec.Store, k: Key, u: Spec.Store, e: Spec.Entry, t: Spec.Store)
      requires Spec.Contains(s, k) && u == Spec.Touch(s, k) && u.items != []
      requires t == u.(items := u.items[|u.items| - 1 := Spec.Item(k, e)])
      ensures t == Spec.Put(s, k, e)
    {
    }

    static lemma PutIsAppend(s: Spec.Store, k: Key, u: Spec.Store, buf: Bytes, e: Spec.Entry, t: Spec.Store)
      requires Spec.Contains(s, k) && u == Spec.Touch(s, k) && u.items != []
      requires t == u.(items := u.items[|u.items| - 1 := Spec.Item(k, e)])
      requires var was := Spec.Lookup(s, k).value; e == was.(buffer := was.buffer + buf)
      ensures t == Spec.AppendTo(s, k, buf)
    {
    }

    static lemma PutIsUse(s: Spec.Store, k: Key, u: Spec.Store, e: Spec.Entry, t: Spec.Store)
      requires Spec.Contains(s, k) && u == Spec.Touch(s, k) && u.items != []
      requires t == u.(items := u.items[|u.items| - 1 := Spec.Item(k, e)])
      requires var was := Spec.Lookup(s, k).value; e == was.(inUse := was.inUse + 1)
      ensures t == Spec.UseEntry(s, k)
    {
    }

    static lemma PutIsComplete(s: Spec.Store, k: Key, u: Spec.Store, e: Spec.Entry, t: Spec.Store)
      requires Spec.Contains(s, k) && u == Spec.Touch(s, k) && u.items != []
      requires t == u.(items := u.items[|u.items| - 1 := Spec.Item(k, e)])
      requires e == Spec.Lookup(s, k).value.(completed := true)
      ensures t == Spec.Complete(s, k)
    {
    }

    static lemma PutIsDisuse(s: Spec.Store, k: Key, u: Spec.Store, e: Spec.Entry, t: Spec.Store)
      requires Spec.Contains(s, k) && u == Spec.Touch(s, k) && u.items != [] && Spec.Distinct(s.items)
      requires t == u.(items := u.items[|u.items| - 1 := Spec.Item(k, e)])
      requires var was := Spec.Lookup(s, k).value; e == was.(inUse := was.inUse - 1)
      ensures Spec.DisuseEntry(s, k) == if e.inUse == 0 && !e.completed then Spec.Drop(t, k) else t
    {
      TouchThenSet(s, k, u, e, t);
      DropAfterPut(s, k, e);
    }

    static lemma AddedFresh(s: Spec.Store, k: Key, t: Spec.Store)
      requires Spec.Lookup(s, k) == None && t == s.(items := s.items + [Spec.Item(k, Spec.FRESH_ENTRY)])
      ensures t == Spec.UseEntry(s, k)
    {
    }

    method UseEntry(key: Key)
      requires Valid()
      modifies Repr
      ensures Valid() && fresh(Repr - old(Repr))
      ensures View() == Spec.UseEntry(old(View()), key)
    {
      hide Linked, Holds, Indexes, Spec.Lookup, Spec.UseEntry;
      var present := Contains(key);
      if present {
        UsePresent(key);
      } else {
        UseAbsent(key);
      }
    }

    method UsePresent(key: Key)
      requires Valid() && key in hashTable
      modifies this`nodes, this`items, this`hashTable, end`prev, end`next, nodes
      ensures Valid() && Repr == old(Repr)
      ensures View() == Spec.UseEntry(old(View()), key)
    {
      hide Linked, Holds, Indexes, Spec.Touch, Spec.Lookup, Spec.UseEntry;
      ghost var before := View();
      var e := GetEntry(key);
      var n := e.value;
      ghost var touched := View();
      IncrementUse(n);
      PutIsUse(before, key, touched, n.Entry(), View());
    }

    method UseAbsent(key: Key)
      requires Valid() && key !in hashTable
      modifies this`nodes, this`items, this`hashTable, this`Repr, end`prev, end`next, nodes`prev, nodes`next
      ensures Valid() && fresh(Repr - old(Repr))
      ensures View() == Spec.UseEntry(old(View()), key)
    {
      hide Linked, Holds, Indexes, Spec.Lookup, Spec.UseEntry;
      ghost var before := View();
      Absent(key);
      AddFresh(key);
      AddedFresh(before, key, View());
    }

    method AddFresh(key: Key)
      requires Valid() && key !in hashTable
      modifies this`nodes, this`items, this`hashTable, this`Repr, end`prev, end`next, nodes`prev, nodes`next
      ensures Valid() && fresh(Repr - old(Repr))
      ensures items == old(items) + [Spec.Item(key, Spec.FRESH_ENTRY)]
    {
      var n := new Node(key);
      PushBack(n);
    }

    method PushBack(n: Node)
      requires Valid() && n.key !in hashTable && n !in Repr
      modifies this`nodes, this`items, this`hashTable, this`Repr
      modifies end`prev, end`next, nodes`prev, nodes`next, n`prev, n`next
      ensures Valid() && Repr == old(Repr) + {n}
      ensures items == old(items) + [Spec.Item(n.key, n.Entry())]
    {
      hide Linked, Holds, Indexes;
      AppendedIndexes(hashTable, nodes, n);
      LinkLast(n);
      hashTable := hashTable[n.key := end.prev];
      Repr := Repr + {n};
    }

    method DisuseEntry(key: Key)
      requires Valid()
      modifies Repr
      ensures Valid() && Repr == old(Repr)
      ensures View() == Spec.DisuseEntry(old(View()), key)
    {
      hide Linked, Holds, Indexes, Spec.Drop;
      var present := Contains(key);
      if present {
        var n := DecrementUseOf(key);
        if n.inUse == 0 && !n.completed {
          Drop(key);
        }
      }
    }

    method DecrementUseOf(key: Key) returns (n: Node)
      requires Valid() && key in hashTable
      modifies this`nodes, this`items, this`hashTable, end`prev, end`next, nodes
      ensures Valid()
      ensures Spec.DisuseEntry(old(View()), key)
              == if n.inUse == 0 && !n.completed then Spec.Drop(View(), key) else View()
    {
      hide Linked, Holds, Indexes, Spec.Touch, Spec.Lookup, Spec.DisuseEntry, Spec.Drop, Spec.Distinct;
      DistinctKeys();
      ghost var before := View();
      var e := GetEntry(key);
      n := e.value;
      ghost var touched := View();
      DecrementUse(n);
      PutIsDisuse(before, key, touched, n.Entry(), View());
    }

    /** getEntry(key).complete(); false stands for the KeyNotFound exception. */
    method CompleteEntry(key: Key) returns (found: bool)
      requires Valid()
      modifies Repr
      ensures Valid() && Repr == old(Repr)
      ensures found == Spec.Contains(old(View()), key)
      ensures View() == Spec.Complete(old(View()), key)
    {
      hide Linked, Holds, Indexes, Spec.Touch, Spec.Complete;
      ghost var before := View();
      var e := GetEntry(key);
      found := e.Some?;
      if found {
        ghost var touched := View();
        CompleteLast(e.value);
        PutIsComplete(before, key, touched, e.value.Entry(), View());
      } else {
        NothingAt(before, key);
      }
    }

    static lemma DropAfterPut(s: Spec.Store, k: Key, e: Spec.Entry)
      requires Spec.Distinct(s.items) && Spec.Contains(s, k)
      requires e.buffer == Spec.Lookup(s, k).value.buffer
      ensures Spec.Drop(Spec.Put(s, k, e), k) == Spec.Drop(s, k)
    {
      Spec.PutEffect(s, k, e);
      Spec.WithoutMembers(s.items, k);
      var rest := Spec.Without(s.items, k);
      var items := Spec.Put(s, k, e).items;
      assert Spec.Find(items, k) == |rest| by {
        assert forall i :: 0 <= i < |rest| ==> rest[i] in rest;
      }
      assert items[..|rest|] == rest;
    }
  }
}
