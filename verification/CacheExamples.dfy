/** Sequences of calls that spoil the byte count of the cache. */
module CacheExamples {
  import opened Wrappers
  import opened CacheSpec
  import opened CacheProperties

  lemma RunMore(max: nat, ops: seq<Op>, op: Op)
    ensures Run(max, ops + [op]) == Apply(Run(max, ops), op)
  {
    assert (ops + [op])[..|ops|] == ops;
  }

  /** A write to a key that was never used counts bytes that no entry holds. */
  lemma MissingKeySpoilsCount()
    ensures Run(10, [Append("k", "ab")]) == Store([], 2, 10) && !Sound(Run(10, [Append("k", "ab")]))
  {
    assert [] + [Append("k", "ab")] == [Append("k", "ab")];
    RunMore(10, [], Append("k", "ab"));
  }

  const FIRST: Bytes := "123456"
  const SECOND: Bytes := "1234567"

  ghost function SelfEviction(): seq<Op> {
    [Use("k"), Append("k", FIRST), Finish("k"), Disuse("k"), Append("k", SECOND)]
  }

  lemma FirstEntry()
    ensures Run(10, [Use("k"), Append("k", FIRST)]) == Store([Item("k", Entry(FIRST, false, 1))], 6, 10)
  {
    assert [] + [Use("k")] == [Use("k")];
    RunMore(10, [], Use("k"));
    var used := Store([Item("k", FRESH_ENTRY)], 0, 10);
    assert Run(10, [Use("k")]) == used;
    assert [Use("k")] + [Append("k", FIRST)] == [Use("k"), Append("k", FIRST)];
    RunMore(10, [Use("k")], Append("k", FIRST));
    assert FreeSpace(used, 6) == (used, true);
    assert "" + FIRST == FIRST;
    assert Write(used, "k", FIRST).0 == Store([Item("k", Entry(FIRST, false, 1))], 6, 10);
  }

  lemma Idled()
    ensures var s := Store([Item("k", Entry(FIRST, false, 1))], 6, 10);
            DisuseEntry(Complete(s, "k"), "k") == Store([Item("k", Entry(FIRST, true, 0))], 6, 10)
  {
    var s := Store([Item("k", Entry(FIRST, false, 1))], 6, 10);
    assert Complete(s, "k") == Store([Item("k", Entry(FIRST, true, 1))], 6, 10);
  }

  lemma IdleEntry()
    ensures Run(10, SelfEviction()[..4]) == Store([Item("k", Entry(FIRST, true, 0))], 6, 10)
  {
    hide Run, Complete, DisuseEntry;
    FirstEntry();
    Idled();
    var ops := [Use("k"), Append("k", FIRST)];
    RunMore(10, ops, Finish("k"));
    RunMore(10, ops + [Finish("k")], Disuse("k"));
    assert ops + [Finish("k")] + [Disuse("k")] == SelfEviction()[..4];
  }

  /** A write to a complete entry that nobody uses evicts that very entry to make room. */
  lemma SelfEvictionSpoilsCount()
    ensures Run(10, SelfEviction()) == Store([], 7, 10) && !Sound(Run(10, SelfEviction()))
  {
    IdleEntry();
    RunMore(10, SelfEviction()[..4], Append("k", SECOND));
    assert SelfEviction()[..4] + [Append("k", SECOND)] == SelfEviction();
    var idle := Store([Item("k", Entry(FIRST, true, 0))], 6, 10);
    assert FirstIdle(idle.items) == 0;
    assert Drop(idle, "k") == Store([], 0, 10);
    assert FreeSpace(Store([], 0, 10), 7) == (Store([], 0, 10), true);
    assert FreeSpace(idle, 7) == (Store([], 0, 10), true);
  }
}
