/** The ordered map of headers that a request keeps, as the sequence its iteration gives, and the
    normalisation of the headers of a received request. */
module HeaderMap {
  import opened Wrappers
  import opened Ascii
  import opened RequestMachine

  predicate Sorted(hs: seq<Header>) {
    forall i, j :: 0 <= i < j < |hs| ==> Less(hs[i].name, hs[j].name)
  }

  function Find(hs: seq<Header>, name: string): Option<string> {
    if hs == [] then None else if hs[0].name == name then Some(hs[0].value) else Find(hs[1..], name)
  }

  /** insert_or_assign. */
  function Insert(hs: seq<Header>, name: string, value: string): seq<Header> {
    if hs == [] || Less(name, hs[0].name) then [Header(name, value)] + hs
    else if hs[0].name == name then [Header(name, value)] + hs[1..]
    else [hs[0]] + Insert(hs[1..], name, value)
  }

  lemma {:induction false} InsertNames(hs: seq<Header>, name: string, value: string)
    ensures forall h :: h in Insert(hs, name, value) ==> h == Header(name, value) || h in hs
    decreases |hs|
  {
    if hs != [] && !Less(name, hs[0].name) && hs[0].name != name {
      InsertNames(hs[1..], name, value);
    }
  }

  lemma {:induction false} InsertSorted(hs: seq<Header>, name: string, value: string)
    requires Sorted(hs)
    ensures Sorted(Insert(hs, name, value))
    decreases |hs|
  {
    if hs == [] {
    } else if Less(name, hs[0].name) {
      forall j | 0 < j < |hs| ensures Less(name, hs[j].name) {
        LessTransitive(name, hs[0].name, hs[j].name);
      }
    } else if hs[0].name != name {
      LessTotal(name, hs[0].name);
      InsertSorted(hs[1..], name, value);
      InsertNames(hs[1..], name, value);
      var rest := Insert(hs[1..], name, value);
      assert forall j :: 0 <= j < |rest| ==> rest[j] in rest;
    }
  }

  /** The new pair is found, and every other pair as before. */
  lemma {:induction false} InsertFind(hs: seq<Header>, name: string, value: string, other: string)
    ensures Find(Insert(hs, name, value), other) == if other == name then Some(value) else Find(hs, other)
    decreases |hs|
  {
    if hs != [] && !Less(name, hs[0].name) && hs[0].name != name {
      InsertFind(hs[1..], name, value, other);
    }
  }

  lemma {:induction false} FindNone(hs: seq<Header>, name: string)
    requires forall i :: 0 <= i < |hs| ==> hs[i].name != name
    ensures Find(hs, name) == None
    decreases |hs|
  {
    if hs != [] {
      FindNone(hs[1..], name);
    }
  }

  lemma NotBefore(hs: seq<Header>, name: string)
    requires Sorted(hs) && hs != [] && Less(name, hs[0].name)
    ensures Find(hs, name) == None
  {
    forall i | 0 <= i < |hs| ensures hs[i].name != name {
      if i > 0 {
        LessTransitive(name, hs[0].name, hs[i].name);
      }
      LessIsStrict(name, hs[i].name);
    }
    FindNone(hs, name);
  }

  /** Two maps with the same pairs are the same sequence. */
  lemma {:induction false} SameMap(a: seq<Header>, b: seq<Header>)
    requires Sorted(a) && Sorted(b) && forall name :: Find(a, name) == Find(b, name)
    ensures a == b
    decreases |a|
  {
    if a == [] {
      assert b != [] ==> Find(b, b[0].name).Some?;
    } else {
      assert Find(a, a[0].name).Some?;
      var x, y := a[0].name, b[0].name;
      LessTotal(x, y);
      assert Find(b, y).Some?;
      assert !Less(x, y) by {
        if Less(x, y) {
          NotBefore(b, x);
        }
      }
      assert !Less(y, x) by {
        if Less(y, x) {
          NotBefore(a, y);
        }
      }
      TailFind(a);
      TailFind(b);
      forall name ensures Find(a[1..], name) == Find(b[1..], name) {
        assert Find(a, name) == Find(b, name);
      }
      SameMap(a[1..], b[1..]);
      assert a[0] == b[0] by {
        assert Find(a, x) == Find(b, x);
      }
    }
  }

  lemma TailFind(hs: seq<Header>)
    requires Sorted(hs) && hs != []
    ensures Find(hs[1..], hs[0].name) == None
  {
    forall i | 0 <= i < |hs| - 1 ensures hs[1..][i].name != hs[0].name {
      LessIsStrict(hs[0].name, hs[i + 1].name);
    }
    FindNone(hs[1..], hs[0].name);
  }

  // ----- normalisation -----

  const HEADERS_TO_REMOVE := ["Proxy-Connection", "Upgrade-Insecure-Requests", "Range"]

  function NormalValue(h: Header): string {
    if h.name == "Connection" then "close" else h.value
  }

  function Added(hs: seq<Header>, h: Header): seq<Header> {
    if h.name in HEADERS_TO_REMOVE then hs else Insert(hs, h.name, NormalValue(h))
  }

  /** Adds the headers in the order they came in. */
  function AddAll(hs: seq<Header>, headers: seq<Header>): seq<Header> {
    if headers == [] then hs else Added(AddAll(hs, headers[..|headers| - 1]), headers[|headers| - 1])
  }

  function Normalized(headers: seq<Header>): seq<Header> {
    AddAll([], headers)
  }

  /** The value of the last header with this name. */
  function LastValue(headers: seq<Header>, name: string): Option<string> {
    if headers == [] then None
    else if headers[|headers| - 1].name == name then Some(headers[|headers| - 1].value)
    else LastValue(headers[..|headers| - 1], name)
  }

  /** What the headers mean: without the hop-by-hop ones, the last value of each name, and "close" for
      Connection. */
  function Meaning(headers: seq<Header>, name: string): Option<string> {
    if name in HEADERS_TO_REMOVE then None
    else if name == "Connection" && LastValue(headers, name).Some? then Some("close")
    else LastValue(headers, name)
  }

  /** The normalised headers are sorted, without duplicates, and keep the meaning. */
  lemma {:induction false} NormalizedMeaning(headers: seq<Header>, name: string)
    ensures Sorted(Normalized(headers)) && Find(Normalized(headers), name) == Meaning(headers, name)
    decreases |headers|
  {
    if headers != [] {
      var front, h := headers[..|headers| - 1], headers[|headers| - 1];
      NormalizedMeaning(front, name);
      if h.name !in HEADERS_TO_REMOVE {
        InsertSorted(Normalized(front), h.name, NormalValue(h));
        InsertFind(Normalized(front), h.name, NormalValue(h), name);
      }
    }
  }

  lemma {:induction false} LastOfSorted(hs: seq<Header>, name: string)
    requires Sorted(hs)
    ensures LastValue(hs, name) == Find(hs, name)
    decreases |hs|
  {
    if hs != [] {
      var front, h := hs[..|hs| - 1], hs[|hs| - 1];
      LastOfSorted(front, name);
      assert hs == front + [h];
      FindInFront(front, h, name);
    }
  }

  lemma {:induction false} FindInFront(front: seq<Header>, h: Header, name: string)
    requires Sorted(front + [h])
    ensures Find(front + [h], name) == if h.name == name then Some(h.value) else Find(front, name)
    decreases |front|
  {
    var all := front + [h];
    if front == [] {
      assert all[1..] == [];
    } else {
      assert all[1..] == front[1..] + [h];
      LessIsStrict(all[0].name, all[|front|].name);
      FindInFront(front[1..], h, name);
    }
  }

  /** Normalising twice is normalising once. */
  lemma NormalizedTwice(headers: seq<Header>)
    ensures Normalized(Normalized(headers)) == Normalized(headers)
  {
    var hs := Normalized(headers);
    forall name ensures Find(Normalized(hs), name) == Find(hs, name) && Sorted(hs) && Sorted(Normalized(hs)) {
      NormalizedMeaning(headers, name);
      NormalizedMeaning(hs, name);
      LastOfSorted(hs, name);
    }
    assert Find(Normalized(hs), "") == Find(hs, "");
    SameMap(Normalized(hs), hs);
  }

  /** Two lists of headers are normalised alike exactly when they mean the same. */
  lemma NormalizedAlike(a: seq<Header>, b: seq<Header>)
    ensures Normalized(a) == Normalized(b) <==> forall name :: Meaning(a, name) == Meaning(b, name)
  {
    NormalizedMeaning(a, "");
    NormalizedMeaning(b, "");
    forall name
      ensures Find(Normalized(a), name) == Meaning(a, name) && Find(Normalized(b), name) == Meaning(b, name)
    {
      NormalizedMeaning(a, name);
      NormalizedMeaning(b, name);
    }
    hide Normalized, Meaning;
    if forall name :: Meaning(a, name) == Meaning(b, name) {
      forall name ensures Find(Normalized(a), name) == Find(Normalized(b), name) {
        assert Meaning(a, name) == Meaning(b, name);
      }
      SameMap(Normalized(a), Normalized(b));
    } else {
      var name :| Meaning(a, name) != Meaning(b, name);
      assert Find(Normalized(a), name) != Find(Normalized(b), name);
    }
  }

  // ----- the headers that are removed, by name -----

  lemma RemovedNames(name: string)
    ensures name in HEADERS_TO_REMOVE
            <==> name == "Range" || name == "Proxy-Connection" || name == "Upgrade-Insecure-Requests"
  {
  }

  /** A header with one of these names makes no difference, wherever it stands. */
  lemma {:induction false} RemovedAnywhere(a: seq<Header>, h: Header, b: seq<Header>)
    requires h.name == "Range" || h.name == "Proxy-Connection" || h.name == "Upgrade-Insecure-Requests"
    ensures Normalized(a + [h] + b) == Normalized(a + b)
    decreases |b|
  {
    RemovedNames(h.name);
    if b == [] {
      assert a + [h] + b == a + [h] && a + b == a && (a + [h])[..|a|] == a;
    } else {
      hide Added;
      var front, last := b[..|b| - 1], b[|b| - 1];
      RemovedAnywhere(a, h, front);
      assert (a + [h] + b)[..|a + [h] + b| - 1] == a + [h] + front;
      assert (a + b)[..|a + b| - 1] == a + front;
    }
  }

  /** Of any other name the last value is kept, but for Connection, whose value is always close; nothing else is. */
  lemma {:induction false} KeptByName(headers: seq<Header>, name: string, i: int)
    requires -1 <= i < |headers| && (i >= 0 ==> headers[i].name == name)
    requires forall j :: i < j < |headers| ==> headers[j].name != name
    ensures Find(Normalized(headers), name)
            == if i < 0 then None
               else if name == "Range" || name == "Proxy-Connection" || name == "Upgrade-Insecure-Requests" then None
               else Some(if name == "Connection" then "close" else headers[i].value)
  {
    RemovedNames(name);
    NormalizedMeaning(headers, name);
    LastAt(headers, name, i);
  }

  lemma {:induction false} LastAt(headers: seq<Header>, name: string, i: int)
    requires -1 <= i < |headers| && (i >= 0 ==> headers[i].name == name)
    requires forall j :: i < j < |headers| ==> headers[j].name != name
    ensures LastValue(headers, name) == if i < 0 then None else Some(headers[i].value)
    decreases |headers|
  {
    if headers != [] && i < |headers| - 1 {
      LastAt(headers[..|headers| - 1], name, i);
    }
  }
}
