/** What the cache promises: exact eviction, exact byte accounting, recency order, and that an entry
    is the concatenation of the writes made to it. */
module CacheProperties {
  import opened Wrappers
  import opened CacheSpec

  // ----- eviction -----

  ghost function IdleCount(items: seq<Item>): nat {
    if items == [] then 0
    else (if items[0].entry.inUse == 0 then 1 else 0) + IdleCount(items[1..])
  }

  /** `items` without its first `m` idle items. */
  ghost function DropIdle(items: seq<Item>, m: nat): seq<Item> {
    if items == [] then []
    else if items[0].entry.inUse == 0 && m > 0 then DropIdle(items[1..], m - 1)
    else [items[0]] + DropIdle(items[1..], m)
  }

  /** The bytes of the first `m` idle items. */
  ghost function IdleBytes(items: seq<Item>, m: nat): nat {
    if items == [] then 0
    else if items[0].entry.inUse != 0 then IdleBytes(items[1..], m)
    else if m == 0 then 0
    else |items[0].entry.buffer| + IdleBytes(items[1..], m - 1)
  }

  ghost function InUseBytes(items: seq<Item>): nat {
    if items == [] then 0
    else (if items[0].entry.inUse != 0 then |items[0].entry.buffer| else 0) + InUseBytes(items[1..])
  }

  /** Evicting the first `m` idle items frees `needed` bytes. */
  ghost predicate Enough(s: Store, needed: nat, m: nat) {
    s.max - (s.current - IdleBytes(s.items, m)) >= needed
  }

  ghost predicate EvictsExactly(s: Store, needed: nat, m: nat) {
    && FreeSpace(s, needed).0
       == s.(items := DropIdle(s.items, m), current := s.current - IdleBytes(s.items, m))
    && m <= IdleCount(s.items)
    && (forall j: nat :: j < m ==> !Enough(s, needed, j))
    && (if FreeSpace(s, needed).1 then Enough(s, needed, m)
        else m == IdleCount(s.items) && !Enough(s, needed, m))
  }

  ghost predicate FirstIdleAt(items: seq<Item>, i: nat) {
    && i < |items| && items[i].entry.inUse == 0
    && forall j :: 0 <= j < i ==> items[j].entry.inUse != 0
  }

  /** Dropping `m + 1` idle items is dropping the first and then `m` more. */
  lemma {:induction false} DropIdleStep(items: seq<Item>, i: nat, m: nat)
    requires FirstIdleAt(items, i)
    ensures var rest := items[..i] + items[i + 1..];
            && DropIdle(items, m + 1) == DropIdle(rest, m)
            && IdleBytes(items, m + 1) == |items[i].entry.buffer| + IdleBytes(rest, m)
            && IdleCount(items) == 1 + IdleCount(rest)
  {
    var rest := items[..i] + items[i + 1..];
    if i == 0 {
      assert rest == items[1..];
    } else {
      DropIdleStep(items[1..], i - 1, m);
      assert rest[1..] == items[1..][..i - 1] + items[1..][i..];
    }
  }

  lemma {:induction false} NoIdle(items: seq<Item>)
    requires FirstIdle(items) == -1
    ensures IdleCount(items) == 0
  {
    if items != [] {
      NoIdle(items[1..]);
    }
  }

  lemma {:induction false} DropNone(items: seq<Item>)
    ensures DropIdle(items, 0) == items && IdleBytes(items, 0) == 0
  {
    if items != [] {
      DropNone(items[1..]);
    }
  }

  /** `FreeSpace` removes exactly the shortest run of idle items, least recent first, that makes room;
      it fails only after removing all of them. */
  lemma {:induction false} ExactEviction(s: Store, needed: nat)
    requires Distinct(s.items)
    ensures exists m: nat :: EvictsExactly(s, needed, m)
    decreases |s.items|
  {
    DropNone(s.items);
    var i := FirstIdle(s.items);
    if s.max - s.current >= needed {
      assert EvictsExactly(s, needed, 0);
    } else if i < 0 {
      NoIdle(s.items);
      assert EvictsExactly(s, needed, 0);
    } else {
      var t := FirstDropped(s, i);
      EvictOne(s, needed, i);
      DropEffect(s, s.items[i].key);
      hide FirstIdle, EvictsExactly, Find, Drop;
      ExactEviction(t, needed);
      var m: nat :| EvictsExactly(t, needed, m);
      EvictMore(s, needed, i, m);
    }
  }

  /** The store without its item at `i`. */
  ghost function FirstDropped(s: Store, i: nat): Store
    requires i < |s.items|
  {
    s.(items := s.items[..i] + s.items[i + 1..], current := s.current - |s.items[i].entry.buffer|)
  }

  lemma EvictOne(s: Store, needed: nat, i: nat)
    requires Distinct(s.items) && i == FirstIdle(s.items) && s.max - s.current < needed
    ensures FirstIdleAt(s.items, i) && FreeSpace(s, needed) == FreeSpace(FirstDropped(s, i), needed)
    ensures Drop(s, s.items[i].key) == FirstDropped(s, i)
  {
    assert Find(s.items, s.items[i].key) == i;
  }

  lemma EvictMore(s: Store, needed: nat, i: nat, m: nat)
    requires FirstIdleAt(s.items, i) && s.max - s.current < needed
    requires FreeSpace(s, needed) == FreeSpace(FirstDropped(s, i), needed)
             && EvictsExactly(FirstDropped(s, i), needed, m)
    ensures EvictsExactly(s, needed, m + 1)
  {
    hide FreeSpace, DropIdle, IdleCount;
    DropNone(s.items);
    DropIdleStep(s.items, i, m);
    forall j: nat | j < m + 1
      ensures !Enough(s, needed, j)
    {
      if j > 0 {
        DropIdleStep(s.items, i, j - 1);
        assert !Enough(FirstDropped(s, i), needed, j - 1);
      }
    }
  }

  lemma {:induction false} SplitBytes(items: seq<Item>)
    ensures IdleBytes(items, IdleCount(items)) + InUseBytes(items) == TotalSize(items)
  {
    if items != [] {
      SplitBytes(items[1..]);
    }
  }

  lemma {:induction false} AllIdleDropped(items: seq<Item>)
    ensures forall x :: x in DropIdle(items, IdleCount(items)) <==> x in items && x.entry.inUse != 0
  {
    if items != [] {
      AllIdleDropped(items[1..]);
      assert items == [items[0]] + items[1..];
    }
  }

  lemma {:induction false} IdleBytesGrow(items: seq<Item>, m: nat, n: nat)
    requires m <= n
    ensures IdleBytes(items, m) <= IdleBytes(items, n)
  {
    if items != [] {
      if items[0].entry.inUse != 0 {
        IdleBytesGrow(items[1..], m, n);
      } else if m > 0 {
        IdleBytesGrow(items[1..], m - 1, n - 1);
      }
    }
  }

  /** The bytes that are counted and that no entry holds. */
  ghost function Stray(s: Store): int {
    s.current - TotalSize(s.items)
  }

  /** AllInUse is thrown exactly when the bytes in use, the stray ones and the new ones exceed the budget; by
      then every idle item is gone and every used one is still there. */
  lemma AllInUseIff(s: Store, needed: nat)
    requires Bounded(s)
    ensures !FreeSpace(s, needed).1 <==> InUseBytes(s.items) + Stray(s) + needed > s.max
    ensures !FreeSpace(s, needed).1 ==>
              forall x :: x in FreeSpace(s, needed).0.items <==> x in s.items && x.entry.inUse != 0
  {
    ExactEviction(s, needed);
    var m: nat :| EvictsExactly(s, needed, m);
    SplitBytes(s.items);
    AllIdleDropped(s.items);
    IdleBytesGrow(s.items, m, IdleCount(s.items));
  }

  // ----- the bytes in use -----

  ghost function UsedBytes(x: Item): nat {
    if x.entry.inUse != 0 then |x.entry.buffer| else 0
  }

  lemma {:induction false} InUseConcat(a: seq<Item>, b: seq<Item>)
    ensures InUseBytes(a + b) == InUseBytes(a) + InUseBytes(b)
  {
    if a == [] {
      assert a + b == b;
    } else {
      InUseConcat(a[1..], b);
      assert (a + b)[1..] == a[1..] + b;
    }
  }

  lemma InUseWithout(items: seq<Item>, k: Key)
    ensures InUseBytes(Without(items, k))
            == InUseBytes(items) - if Find(items, k) < 0 then 0 else UsedBytes(items[Find(items, k)])
  {
    var i := Find(items, k);
    if i >= 0 {
      var head, tail := items[..i], items[i + 1..];
      assert items == head + ([items[i]] + tail);
      InUseConcat(head, [items[i]] + tail);
      InUseConcat([items[i]], tail);
      InUseConcat(head, tail);
      assert InUseBytes([items[i]]) == UsedBytes(items[i]) + InUseBytes([]);
    }
  }

  /** Freeing space frees no byte that is in use. */
  lemma {:induction false} FreeSpaceInUse(s: Store, needed: nat)
    requires Distinct(s.items)
    ensures InUseBytes(FreeSpace(s, needed).0.items) == InUseBytes(s.items)
    decreases |s.items|
  {
    var i := FirstIdle(s.items);
    if s.max - s.current < needed && i >= 0 {
      assert Find(s.items, s.items[i].key) == i;
      InUseWithout(s.items, s.items[i].key);
      DropEffect(s, s.items[i].key);
      FreeSpaceInUse(Drop(s, s.items[i].key), needed);
    }
  }

  // ----- what freeing space does to one key -----

  /** Freeing space leaves every used entry alone, and may only remove an idle one. */
  lemma {:induction false} FreeSpaceEffect(s: Store, needed: nat)
    requires Distinct(s.items)
    ensures var (t, ok) := FreeSpace(s, needed);
            && Distinct(t.items) && t.max == s.max && t.current <= s.current
            && s.current - TotalSize(s.items) == t.current - TotalSize(t.items)
            && (ok ==> t.max - t.current >= needed)
            && forall k :: Lookup(t, k) == Lookup(s, k)
                           || (Lookup(t, k) == None && Lookup(s, k).value.inUse == 0)
    decreases |s.items|
  {
    var i := FirstIdle(s.items);
    if s.max - s.current < needed && i >= 0 {
      assert Find(s.items, s.items[i].key) == i;
      DropEffect(s, s.items[i].key);
      FreeSpaceEffect(Drop(s, s.items[i].key), needed);
    }
  }

  /** `k` is present and either used or preceded by enough idle bytes. */
  ghost predicate Survives(s: Store, k: Key, needed: nat) {
    Contains(s, k) && (Lookup(s, k).value.inUse != 0
                       || Enough(s, needed, IdleCount(s.items[..Find(s.items, k)])))
  }

  lemma {:induction false} DropIdleKeeps(items: seq<Item>, m: nat, j: nat)
    requires j < |items| && Distinct(items)
    ensures (exists e :: Item(items[j].key, e) in DropIdle(items, m))
            <==> items[j].entry.inUse != 0 || m <= IdleCount(items[..j])
  {
    DropIdleSubset(items, m);
    if j == 0 {
      if items[0].entry.inUse == 0 && m > 0 {
        DropIdleSubset(items[1..], m - 1);
      } else {
        assert items[0] == Item(items[0].key, items[0].entry);
        assert DropIdle(items, m)[0] == items[0];
      }
    } else {
      assert items[..j][1..] == items[1..][..j - 1];
      assert Distinct(items[1..]);
      var dropped := items[0].entry.inUse == 0 && m > 0;
      DropIdleKeeps(items[1..], if dropped then m - 1 else m, j - 1);
      assert items[j] == items[1..][j - 1];
      if !dropped {
        var tail := DropIdle(items[1..], m);
        forall e
          ensures Item(items[j].key, e) in DropIdle(items, m) <==> Item(items[j].key, e) in tail
        {
          assert DropIdle(items, m) == [items[0]] + tail;
        }
      }
    }
  }

  lemma {:induction false} DropIdleSubset(items: seq<Item>, m: nat)
    ensures forall x :: x in DropIdle(items, m) ==> x in items
  {
    if items != [] {
      DropIdleSubset(items[1..], m);
      if m > 0 { DropIdleSubset(items[1..], m - 1); }
    }
  }

  /** Which outcome `Write` has, decided before the call. */
  lemma WriteOutcome(s: Store, k: Key, buf: Bytes)
    requires Bounded(s)
    ensures Write(s, k, buf).1 == AllInUse <==> InUseBytes(s.items) + Stray(s) + |buf| > s.max
    ensures Write(s, k, buf).1 == Ok
            <==> InUseBytes(s.items) + Stray(s) + |buf| <= s.max && Survives(s, k, |buf|)
  {
    AllInUseIff(s, |buf|);
    FreeSpaceEffect(s, |buf|);
    var (t, ok) := FreeSpace(s, |buf|);
    if ok && Contains(s, k) {
      ExactEviction(s, |buf|);
      var m: nat :| EvictsExactly(s, |buf|, m);
      var j := Find(s.items, k);
      DropIdleKeeps(s.items, m, j);
      if Contains(t, k) {
        LookupIff(t, k, Lookup(t, k).value);
      } else if exists e :: Item(k, e) in t.items {
        var e :| Item(k, e) in t.items;
        LookupIff(t, k, e);
      }
      IdleBytesGrow(s.items, if m <= IdleCount(s.items[..j]) then m else IdleCount(s.items[..j]),
                    IdleCount(s.items[..j]));
      assert Enough(s, |buf|, IdleCount(s.items[..j])) <==> m <= IdleCount(s.items[..j]);
    }
  }

  /** A write keeps the byte count exact unless it frees enough space by evicting its own key, or the
      key was never there: then the bytes are counted and stored nowhere. */
  lemma WriteSoundIff(s: Store, k: Key, buf: Bytes)
    requires Sound(s)
    ensures Sound(Write(s, k, buf).0)
            <==> InUseBytes(s.items) + |buf| > s.max || buf == "" || Survives(s, k, |buf|)
  {
    WriteOutcome(s, k, buf);
    WriteEffect(s, k, buf);
  }

  /** What a write does to every key, in each of its outcomes. */
  lemma WriteEffect(s: Store, k: Key, buf: Bytes)
    requires Bounded(s)
    ensures var (t, status) := Write(s, k, buf);
            && Bounded(t) && t.max == s.max
            && (forall k' :: k' != k ==>
                               Lookup(t, k') == Lookup(s, k')
                               || (Lookup(t, k') == None && Lookup(s, k').value.inUse == 0))
            && (status == Ok ==> Contains(s, k)
                                 && var e := Lookup(s, k).value;
                                    Lookup(t, k) == Some(e.(buffer := e.buffer + buf)))
            && (status != Ok ==> Lookup(t, k) == Lookup(s, k)
                                 || (Lookup(t, k) == None && Lookup(s, k).value.inUse == 0))
            && (status == KeyNotFound ==> Lookup(t, k) == None)
            && t.current - TotalSize(t.items)
               == s.current - TotalSize(s.items) + (if status == KeyNotFound then |buf| else 0)
  {
    hide Write, FreeSpace, Lookup, Put, TotalSize, Distinct;
    FreeSpaceEffect(s, |buf|);
    WriteShape(s, k, buf);
    var (freed, ok) := FreeSpace(s, |buf|);
    var counted := freed.(current := freed.current + |buf|);
    SameLookups(freed, counted);
    if ok && Contains(counted, k) {
      var e := Lookup(counted, k).value;
      var e' := e.(buffer := e.buffer + buf);
      PutEffect(counted, k, e');
      PutKeepsCount(counted, k, e');
    }
  }

  lemma WriteShape(s: Store, k: Key, buf: Bytes)
    ensures var (freed, ok) := FreeSpace(s, |buf|);
            var counted := freed.(current := freed.current + |buf|);
            Write(s, k, buf)
            == if !ok then (freed, AllInUse)
               else if !Contains(counted, k) then (counted, KeyNotFound)
               else (Put(counted, k, Lookup(counted, k).value.(buffer := Lookup(counted, k).value.buffer + buf)), Ok)
  {
    hide FreeSpace, Lookup, Put;
  }

  lemma SameLookups(s: Store, t: Store)
    requires s.items == t.items
    ensures forall k :: Lookup(s, k) == Lookup(t, k)
  {
  }

  lemma PutKeepsCount(s: Store, k: Key, e: Entry)
    ensures Put(s, k, e).current == s.current && Put(s, k, e).max == s.max
  {
  }

  /** A write on a used entry never misses it: it appends, or raises AllInUse and leaves the entry as it was. */
  lemma WriteInUse(s: Store, k: Key, buf: Bytes)
    requires Bounded(s) && Contains(s, k) && Lookup(s, k).value.inUse != 0
    ensures var (t, status) := Write(s, k, buf);
            var e := Lookup(s, k).value;
            && status != KeyNotFound
            && Lookup(t, k) == Some(if status == Ok then e.(buffer := e.buffer + buf) else e)
  {
    FreeSpaceEffect(s, |buf|);
    WriteEffect(s, k, buf);
  }

  // ----- sequences of calls -----

  datatype Op =
    | Use(key: Key)
    | Disuse(key: Key)
    | Get(key: Key)
    | Finish(key: Key)
    | Slice(key: Key)
    | Append(key: Key, buf: Bytes)

  ghost function Apply(s: Store, op: Op): Store {
    match op
    case Use(k) => UseEntry(s, k)
    case Disuse(k) => DisuseEntry(s, k)
    case Get(k) => Touch(s, k)
    case Finish(k) => Complete(s, k)
    case Slice(k) => Touch(s, k)
    case Append(k, buf) => Write(s, k, buf).0
  }

  /** The cache after the calls `ops`, starting empty. */
  ghost function Run(max: nat, ops: seq<Op>): Store {
    if ops == [] then Store([], 0, max)
    else Apply(Run(max, ops[..|ops| - 1]), ops[|ops| - 1])
  }

  /** The entry a call other than a write leaves under its key; None if it leaves the key absent. */
  ghost function Updated(s: Store, op: Op): (r: Option<Entry>)
    requires !op.Append?
  {
    match Lookup(s, op.key)
    case None => if op.Use? then Some(FRESH_ENTRY) else None
    case Some(e) =>
      match op
      case Use(_) => Some(e.(inUse := e.inUse + 1))
      case Disuse(_) => if e.inUse == 1 && !e.completed then None else Some(e.(inUse := e.inUse - 1))
      case Finish(_) => Some(e.(completed := true))
      case _ => Some(e)
  }

  lemma ApplyShape(s: Store, op: Op)
    requires !op.Append?
    ensures Apply(s, op) == (match Updated(s, op)
                             case None => Drop(s, op.key)
                             case Some(e) => Put(s, op.key, e))
  {
  }

  lemma UpdatedBuffer(s: Store, op: Op)
    requires !op.Append?
    ensures Updated(s, op).Some? ==>
              Updated(s, op).value.buffer == if Contains(s, op.key) then Lookup(s, op.key).value.buffer else ""
  {
  }

  /** A call other than a write changes its own key only, never a buffer, and keeps the bytes counted. */
  lemma ApplyEffect(s: Store, op: Op)
    requires Bounded(s) && !op.Append?
    ensures var t := Apply(s, op);
            && Bounded(t) && t.max == s.max
            && t.current - TotalSize(t.items) == s.current - TotalSize(s.items)
            && Lookup(t, op.key) == Updated(s, op)
            && forall k :: k != op.key ==> Lookup(t, k) == Lookup(s, k)
  {
    ApplyShape(s, op);
    UpdatedBuffer(s, op);
    match Updated(s, op)
    case None => DropEffect(s, op.key);
    case Some(e) => PutEffect(s, op.key, e);
  }

  /** Whatever is called, including calls that throw, the byte count stays within the budget and keys
      stay distinct, so free space never underflows. */
  lemma {:induction false} AlwaysBounded(max: nat, ops: seq<Op>)
    ensures Bounded(Run(max, ops)) && Run(max, ops).max == max
  {
    if ops != [] {
      AlwaysBounded(max, ops[..|ops| - 1]);
      var s, last := Run(max, ops[..|ops| - 1]), ops[|ops| - 1];
      if last.Append? {
        WriteEffect(s, last.key, last.buf);
      } else {
        ApplyEffect(s, last);
      }
    }
  }

  /** The call is no write that would lose count of its bytes. */
  ghost predicate Harmless(s: Store, op: Op) {
    op.Append? && op.buf != "" ==>
      InUseBytes(s.items) + |op.buf| > s.max || Survives(s, op.key, |op.buf|)
  }

  lemma ApplySoundIff(s: Store, op: Op)
    requires Sound(s)
    ensures Sound(Apply(s, op)) <==> Harmless(s, op)
  {
    if op.Append? {
      WriteSoundIff(s, op.key, op.buf);
    } else {
      ApplyEffect(s, op);
    }
  }

  /** Every write in `ops` is made on an entry that outlives the eviction the write causes. */
  ghost predicate Careful(max: nat, ops: seq<Op>) {
    ops == []
    || (var init, last := ops[..|ops| - 1], ops[|ops| - 1];
        && Careful(max, init)
        && Harmless(Run(max, init), last))
  }

  /** Stray bytes never go away. */
  lemma StrayStays(s: Store, op: Op)
    requires Bounded(s)
    ensures Stray(Apply(s, op)) >= Stray(s)
  {
    if op.Append? {
      WriteEffect(s, op.key, op.buf);
    } else {
      ApplyEffect(s, op);
    }
  }

  /** After `ops` the byte count is the sum of the entry sizes if and only if every write in it is made on an entry
      that survives. */
  lemma {:induction false} AlwaysSoundIff(max: nat, ops: seq<Op>)
    ensures Sound(Run(max, ops)) <==> Careful(max, ops)
  {
    if ops != [] {
      var init, last := ops[..|ops| - 1], ops[|ops| - 1];
      AlwaysSoundIff(max, init);
      AlwaysBounded(max, init);
      StrayStays(Run(max, init), last);
      if Sound(Run(max, init)) {
        ApplySoundIff(Run(max, init), last);
      }
    }
  }

  // ----- recency -----

  /** The key a call moves to the recent end of the list. */
  ghost function Touched(s: Store, op: Op): Option<Key> {
    match op
    case Use(k) => Some(k)
    case Append(k, buf) =>
      var (freed, ok) := FreeSpace(s, |buf|);
      if ok && Contains(freed, k) then Some(k) else None
    case _ => if Contains(s, op.key) then Some(op.key) else None
  }

  /** When each key was last touched, counting calls. */
  ghost function LastTouch(max: nat, ops: seq<Op>): map<Key, nat> {
    if ops == [] then map[]
    else
      var init, last := ops[..|ops| - 1], ops[|ops| - 1];
      Stamped(LastTouch(max, init), Touched(Run(max, init), last), |ops|)
  }

  ghost predicate InOrder(items: seq<Item>, stamp: map<Key, nat>) {
    && (forall i :: 0 <= i < |items| ==> items[i].key in stamp)
    && (forall i, j :: 0 <= i < j < |items| ==> stamp[items[i].key] < stamp[items[j].key])
  }

  lemma WithoutInOrder(items: seq<Item>, stamp: map<Key, nat>, k: Key)
    requires InOrder(items, stamp)
    ensures InOrder(Without(items, k), stamp)
  {
  }

  lemma {:induction false} FreeSpaceInOrder(s: Store, needed: nat, stamp: map<Key, nat>)
    requires InOrder(s.items, stamp)
    ensures InOrder(FreeSpace(s, needed).0.items, stamp)
    decreases |s.items|
  {
    var i := FirstIdle(s.items);
    if s.max - s.current < needed && i >= 0 {
      WithoutInOrder(s.items, stamp, s.items[i].key);
      FreeSpaceInOrder(Drop(s, s.items[i].key), needed, stamp);
    }
  }

  lemma PutInOrder(s: Store, k: Key, e: Entry, stamp: map<Key, nat>, now: nat)
    requires Distinct(s.items) && InOrder(s.items, stamp)
    requires forall x :: x in stamp ==> stamp[x] < now
    ensures InOrder(Put(s, k, e).items, stamp[k := now])
  {
    WithoutInOrder(s.items, stamp, k);
    WithoutMembers(s.items, k);
    var rest := Without(s.items, k);
    assert forall i :: 0 <= i < |rest| ==> rest[i] in rest;
  }

  lemma DropInOrder(s: Store, k: Key, stamp: map<Key, nat>, now: nat)
    requires Distinct(s.items) && InOrder(s.items, stamp) && Contains(s, k)
    ensures InOrder(Drop(s, k).items, stamp[k := now])
  {
    WithoutInOrder(s.items, stamp, k);
    WithoutMembers(s.items, k);
    var rest := Without(s.items, k);
    assert forall i :: 0 <= i < |rest| ==> rest[i] in rest;
  }

  ghost function Stamped(stamp: map<Key, nat>, touched: Option<Key>, now: nat): map<Key, nat> {
    match touched
    case None => stamp
    case Some(k) => stamp[k := now]
  }

  lemma WriteInOrder(s: Store, k: Key, buf: Bytes, stamp: map<Key, nat>, now: nat)
    requires Distinct(s.items) && InOrder(s.items, stamp)
    requires forall x :: x in stamp ==> stamp[x] < now
    ensures InOrder(Write(s, k, buf).0.items, Stamped(stamp, Touched(s, Append(k, buf)), now))
  {
    FreeSpaceInOrder(s, |buf|, stamp);
    FreeSpaceEffect(s, |buf|);
    var (freed, ok) := FreeSpace(s, |buf|);
    if ok && Contains(freed, k) {
      var e := Lookup(freed, k).value;
      PutInOrder(freed.(current := freed.current + |buf|), k, e.(buffer := e.buffer + buf), stamp, now);
    }
  }

  lemma ApplyInOrder(s: Store, op: Op, stamp: map<Key, nat>, now: nat)
    requires Distinct(s.items) && InOrder(s.items, stamp)
    requires forall x :: x in stamp ==> stamp[x] < now
    ensures InOrder(Apply(s, op).items, Stamped(stamp, Touched(s, op), now))
  {
    if op.Append? {
      WriteInOrder(s, op.key, op.buf, stamp, now);
    } else {
      ApplyShape(s, op);
      match Updated(s, op)
      case Some(e) => PutInOrder(s, op.key, e, stamp, now);
      case None => if Contains(s, op.key) { DropInOrder(s, op.key, stamp, now); }
    }
  }

  /** The list is always in the order in which its keys were last touched. */
  lemma {:induction false} RecencyOrder(max: nat, ops: seq<Op>)
    ensures InOrder(Run(max, ops).items, LastTouch(max, ops))
    ensures forall k :: k in LastTouch(max, ops) ==> LastTouch(max, ops)[k] <= |ops|
  {
    if ops != [] {
      var init := ops[..|ops| - 1];
      RecencyOrder(max, init);
      AlwaysBounded(max, init);
      ApplyInOrder(Run(max, init), ops[|ops| - 1], LastTouch(max, init), |ops|);
    }
  }

  // ----- contents -----

  /** The concatenation of the successful writes to `k` since it last became present. */
  ghost function Written(max: nat, ops: seq<Op>, k: Key): Bytes {
    if ops == [] then ""
    else
      var init, last := ops[..|ops| - 1], ops[|ops| - 1];
      var s := Run(max, init);
      if !Contains(s, k) then ""
      else Written(max, init, k) + Appended(s, last, k)
  }

  /** The bytes a call appends to the entry of `k`. */
  ghost function Appended(s: Store, op: Op, k: Key): Bytes {
    if op.Append? && op.key == k && Write(s, k, op.buf).1 == Ok then op.buf else ""
  }

  lemma ApplyBuffer(s: Store, op: Op, k: Key)
    requires Bounded(s) && Contains(Apply(s, op), k)
    ensures Lookup(Apply(s, op), k).value.buffer
            == (if Contains(s, k) then Lookup(s, k).value.buffer else "") + Appended(s, op, k)
  {
    if op.Append? {
      WriteEffect(s, op.key, op.buf);
    } else {
      ApplyEffect(s, op);
      UpdatedBuffer(s, op);
    }
  }

  lemma AppendedPresent(s: Store, op: Op, k: Key)
    requires Bounded(s)
    ensures Appended(s, op, k) != "" ==> Contains(s, k)
  {
    if op.Append? {
      WriteEffect(s, op.key, op.buf);
    }
  }

  /** An entry holds exactly what was written to it since it was created, whatever happened to other
      keys in between. */
  lemma {:induction false} EntryIsItsWrites(max: nat, ops: seq<Op>, k: Key)
    requires Contains(Run(max, ops), k)
    ensures Lookup(Run(max, ops), k).value.buffer == Written(max, ops, k)
  {
    if ops != [] {
      var init, last := ops[..|ops| - 1], ops[|ops| - 1];
      var s := Run(max, init);
      AlwaysBounded(max, init);
      var before := if Contains(s, k) then Lookup(s, k).value.buffer else "";
      if Contains(s, k) {
        EntryIsItsWrites(max, init, k);
      } else {
        assert Appended(s, last, k) == "" by { AppendedPresent(s, last, k); }
      }
      assert Written(max, ops, k) == before + Appended(s, last, k);
      ApplyBuffer(s, last, k);
    }
  }

  /** Reading returns that slice of everything written, and misses exactly when the key is absent. */
  lemma ReadIsWritten(max: nat, ops: seq<Op>, k: Key, offset: nat, len: nat)
    requires Contains(Run(max, ops), k) ==> offset + len <= |Written(max, ops, k)|
    ensures Contains(Run(max, ops), k) ==> offset + len <= |Lookup(Run(max, ops), k).value.buffer|
    ensures Read(Run(max, ops), k, offset, len).1
            == if Contains(Run(max, ops), k) then Some(Written(max, ops, k)[offset..offset + len]) else None
  {
    if Contains(Run(max, ops), k) {
      EntryIsItsWrites(max, ops, k);
    }
  }
}
