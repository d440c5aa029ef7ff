/** The response cache as a value: items in recency order (least recent first), a running byte
    count and a byte budget. These functions specify the methods of the class in LruCache.dfy. */
module CacheSpec {
  import opened Wrappers

  datatype Entry = Entry(buffer: Bytes, completed: bool, inUse: int)

  datatype Item = Item(key: Key, entry: Entry)

  datatype Store = Store(items: seq<Item>, current: int, max: nat)

  datatype Status = Ok | AllInUse | KeyNotFound

  const FRESH_ENTRY := Entry("", false, 1)

  // ----- looking up -----

  /** A position of `k`, or -1. */
  ghost function Find(items: seq<Item>, k: Key): (i: int)
    ensures -1 <= i < |items|
    ensures i >= 0 ==> items[i].key == k
    ensures i == -1 ==> forall j :: 0 <= j < |items| ==> items[j].key != k
  {
    if i :| 0 <= i < |items| && items[i].key == k then i else -1
  }

  ghost function Lookup(s: Store, k: Key): Option<Entry> {
    var i := Find(s.items, k);
    if i < 0 then None else Some(s.items[i].entry)
  }

  ghost predicate Contains(s: Store, k: Key) {
    Lookup(s, k).Some?
  }

  // ----- operations -----

  ghost function Without(items: seq<Item>, k: Key): seq<Item> {
    var i := Find(items, k);
    if i < 0 then items else items[..i] + items[i + 1..]
  }

  /** Makes `k` the most recently used item, holding `e`. */
  ghost function Put(s: Store, k: Key, e: Entry): Store {
    s.(items := Without(s.items, k) + [Item(k, e)])
  }

  ghost function Touch(s: Store, k: Key): Store {
    match Lookup(s, k)
    case None => s
    case Some(e) => Put(s, k, e)
  }

  ghost function Drop(s: Store, k: Key): Store {
    match Lookup(s, k)
    case None => s
    case Some(e) => s.(items := Without(s.items, k), current := s.current - |e.buffer|)
  }

  ghost function UseEntry(s: Store, k: Key): Store {
    match Lookup(s, k)
    case None => Put(s, k, FRESH_ENTRY)
    case Some(e) => Put(s, k, e.(inUse := e.inUse + 1))
  }

  ghost function DisuseEntry(s: Store, k: Key): Store {
    match Lookup(s, k)
    case None => s
    case Some(e) =>
      if e.inUse == 1 && !e.completed then Drop(s, k)
      else Put(s, k, e.(inUse := e.inUse - 1))
  }

  ghost function Complete(s: Store, k: Key): Store {
    match Lookup(s, k)
    case None => s
    case Some(e) => Put(s, k, e.(completed := true))
  }

  /** The position of the least recently used item that nobody uses, or -1. */
  ghost function FirstIdle(items: seq<Item>): (i: int)
    ensures -1 <= i < |items|
    ensures i >= 0 ==> items[i].entry.inUse == 0
    ensures forall j :: 0 <= j < (if i < 0 then |items| else i) ==> items[j].entry.inUse != 0
  {
    if items == [] then -1
    else if items[0].entry.inUse == 0 then 0
    else
      var r := FirstIdle(items[1..]);
      assert forall j :: 0 < j < |items| ==> items[j] == items[1..][j - 1];
      if r < 0 then -1 else r + 1
  }

  /** Evicts idle items, least recent first, until `needed` bytes are free; false stands for the
      AllInUse exception. */
  ghost function FreeSpace(s: Store, needed: nat): (Store, bool)
    decreases |s.items|
  {
    if s.max - s.current >= needed then (s, true)
    else
      var i := FirstIdle(s.items);
      if i < 0 then (s, false) else FreeSpace(Drop(s, s.items[i].key), needed)
  }

  /** Appends to `k` if it is present. */
  ghost function AppendTo(s: Store, k: Key, buf: Bytes): Store {
    match Lookup(s, k)
    case None => s
    case Some(e) => Put(s, k, e.(buffer := e.buffer + buf))
  }

  /** Frees space, counts the bytes and then appends them; a missing key is noticed last. */
  ghost function Write(s: Store, k: Key, buf: Bytes): (Store, Status) {
    var (freed, ok) := FreeSpace(s, |buf|);
    if !ok then (freed, AllInUse)
    else
      var counted := freed.(current := freed.current + |buf|);
      (AppendTo(counted, k, buf), if Contains(counted, k) then Ok else KeyNotFound)
  }

  /** Touches `k` and returns the slice; None stands for the KeyNotFound exception. */
  ghost function Read(s: Store, k: Key, offset: nat, len: nat): (Store, Option<Bytes>)
    requires Contains(s, k) ==> offset + len <= |Lookup(s, k).value.buffer|
  {
    match Lookup(s, k)
    case None => (s, None)
    case Some(e) => (Touch(s, k), Some(e.buffer[offset..offset + len]))
  }

  // ----- well-formedness -----

  ghost predicate Distinct(items: seq<Item>) {
    forall i, j :: 0 <= i < j < |items| ==> items[i].key != items[j].key
  }

  ghost function TotalSize(items: seq<Item>): (n: nat) {
    if items == [] then 0 else |items[0].entry.buffer| + TotalSize(items[1..])
  }

  /** Every sequence of calls keeps this: free space never underflows and no listed byte is uncounted. */
  ghost predicate Bounded(s: Store) {
    Distinct(s.items) && TotalSize(s.items) <= s.current <= s.max
  }

  /** The byte count is exact. */
  ghost predicate Sound(s: Store) {
    Bounded(s) && s.current == TotalSize(s.items)
  }

  // ----- what the basic operations do to lookups and sizes -----

  lemma LookupIff(s: Store, k: Key, e: Entry)
    requires Distinct(s.items)
    ensures Lookup(s, k) == Some(e) <==> Item(k, e) in s.items
  {
    if Item(k, e) in s.items {
      var j :| 0 <= j < |s.items| && s.items[j] == Item(k, e);
      var i := Find(s.items, k);
      assert i == j;
    }
  }

  lemma WithoutMembers(items: seq<Item>, k: Key)
    requires Distinct(items)
    ensures Distinct(Without(items, k))
    ensures forall x :: x in Without(items, k) <==> x in items && x.key != k
  {
    var i := Find(items, k);
    if i >= 0 {
      assert items == items[..i] + [items[i]] + items[i + 1..];
    }
  }

  lemma {:induction false} TotalSizeAppend(a: seq<Item>, b: seq<Item>)
    ensures TotalSize(a + b) == TotalSize(a) + TotalSize(b)
  {
    if a == [] {
      assert a + b == b;
    } else {
      assert (a + b)[1..] == a[1..] + b;
      TotalSizeAppend(a[1..], b);
    }
  }

  lemma WithoutSize(items: seq<Item>, k: Key)
    ensures Find(items, k) >= 0 ==>
              TotalSize(Without(items, k)) == TotalSize(items) - |items[Find(items, k)].entry.buffer|
  {
    var i := Find(items, k);
    if i >= 0 {
      assert items == items[..i] + ([items[i]] + items[i + 1..]);
      TotalSizeAppend(items[..i], [items[i]] + items[i + 1..]);
      TotalSizeAppend([items[i]], items[i + 1..]);
      TotalSizeAppend(items[..i], items[i + 1..]);
    }
  }

  /** `Put` changes the entry of `k` and of no other key. */
  lemma PutEffect(s: Store, k: Key, e: Entry)
    requires Distinct(s.items)
    ensures Distinct(Put(s, k, e).items)
    ensures Lookup(Put(s, k, e), k) == Some(e)
    ensures forall k' :: k' != k ==> Lookup(Put(s, k, e), k') == Lookup(s, k')
    ensures TotalSize(Put(s, k, e).items)
            == TotalSize(s.items) + |e.buffer| - (if Contains(s, k) then |Lookup(s, k).value.buffer| else 0)
  {
    WithoutMembers(s.items, k);
    var t := Put(s, k, e);
    LookupIff(t, k, e);
    forall k' | k' != k
      ensures Lookup(t, k') == Lookup(s, k')
    {
      SameMembersSameLookup(s, t, k');
    }
    WithoutSize(s.items, k);
    TotalSizeAppend(Without(s.items, k), [Item(k, e)]);
  }

  lemma SameMembersSameLookup(s: Store, t: Store, k: Key)
    requires Distinct(s.items) && Distinct(t.items)
    requires forall e :: Item(k, e) in s.items <==> Item(k, e) in t.items
    ensures Lookup(s, k) == Lookup(t, k)
  {
    if Lookup(s, k).Some? {
      LookupIff(s, k, Lookup(s, k).value);
      LookupIff(t, k, Lookup(s, k).value);
    } else if Lookup(t, k).Some? {
      LookupIff(t, k, Lookup(t, k).value);
      LookupIff(s, k, Lookup(t, k).value);
    }
  }

  /** `Drop` removes `k` and no other key. */
  lemma DropEffect(s: Store, k: Key)
    requires Distinct(s.items)
    ensures Distinct(Drop(s, k).items)
    ensures Lookup(Drop(s, k), k) == None
    ensures forall k' :: k' != k ==> Lookup(Drop(s, k), k') == Lookup(s, k')
    ensures s.current - TotalSize(s.items) == Drop(s, k).current - TotalSize(Drop(s, k).items)
  {
    WithoutMembers(s.items, k);
    WithoutSize(s.items, k);
    var t := Drop(s, k);
    if Lookup(t, k).Some? {
      LookupIff(t, k, Lookup(t, k).value);
    }
    forall k' | k' != k
      ensures Lookup(t, k') == Lookup(s, k')
    {
      SameMembersSameLookup(s, t, k');
    }
  }
}
