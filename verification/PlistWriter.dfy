/**
  The hash table of airplay/libplist/src/hashtable.c and the recursive visit that fills it
  (airplay/libplist/src/bplist.c, lines 815-845).
*/
module PlistWriter {
  import opened Options
  import opened PlistObjects

  datatype Entry = Entry(key: Ref, value: nat)

  const CHAINS := 256

  /** Where the walk along a chain stops: at the first equal key, or behind the end. */
  function FirstEqual(entries: seq<Entry>, key: Ref): (i: nat)
    ensures i <= |entries|
    ensures i < |entries| ==> Compare(entries[i].key, key)
    ensures forall j :: 0 <= j < i ==> !Compare(entries[j].key, key)
  {
    if entries == [] || Compare(entries[0].key, key) then 0 else 1 + FirstEqual(entries[1..], key)
  }

  function Looked(entries: seq<Entry>, key: Ref): Option<nat> {
    var i := FirstEqual(entries, key);
    if i < |entries| then Some(entries[i].value) else None
  }

  function Inserted(entries: seq<Entry>, key: Ref, value: nat): seq<Entry> {
    var i := FirstEqual(entries, key);
    if i < |entries| then entries[i := entries[i].(value := value)] else [Entry(key, value)] + entries
  }

  lemma FirstEqualIs(entries: seq<Entry>, key: Ref, i: nat)
    requires i <= |entries| && (forall j :: 0 <= j < i ==> !Compare(entries[j].key, key))
    requires i < |entries| ==> Compare(entries[i].key, key)
    ensures FirstEqual(entries, key) == i
  {
  }

  /** A table with 256 chains; `chain` is the hash function's low byte. */
  class HashTable {
    const chain: Chains
    const entries: array<seq<Entry>>
    var count: nat

    ghost predicate Valid() {
      entries.Length == CHAINS && forall p :: chain(p) < CHAINS
    }

    constructor (chain: Chains)
      requires forall p :: chain(p) < CHAINS
      ensures Valid() && this.chain == chain && fresh(entries) && count == 0
      ensures forall b :: 0 <= b < CHAINS ==> entries[b] == []
    {
      this.chain := chain;
      entries := new seq<Entry>[CHAINS](_ => []);
      count := 0;
    }

    method Insert(key: Ref, value: nat)
      requires Valid()
      modifies this, entries
      ensures Valid()
      ensures entries[..] == old(entries[..])[chain(key) := Inserted(old(entries[chain(key)]), key, value)]
      ensures count == old(count) + (if Looked(old(entries[chain(key)]), key).Some? then 0 else 1)
    {
      var b := chain(key);
      var list := entries[b];
      var i := 0;
      while i < |list|
        invariant 0 <= i <= |list|
        invariant forall j :: 0 <= j < i ==> !Compare(list[j].key, key)
        invariant entries[..] == old(entries[..]) && count == old(count)
      {
        if Compare(list[i].key, key) {
          FirstEqualIs(list, key, i);
          entries[b] := list[i := list[i].(value := value)];
          return;
        }
        i := i + 1;
      }
      FirstEqualIs(list, key, i);
      entries[b] := [Entry(key, value)] + list;
      count := count + 1;
    }

    method Lookup(key: Ref) returns (value: Option<nat>)
      requires Valid()
      ensures value == Looked(entries[chain(key)], key)
    {
      var list := entries[chain(key)];
      var i := 0;
      while i < |list|
        invariant 0 <= i <= |list|
        invariant forall j :: 0 <= j < i ==> !Compare(list[j].key, key)
      {
        if Compare(list[i].key, key) {
          FirstEqualIs(list, key, i);
          return Some(list[i].value);
        }
        i := i + 1;
      }
      FirstEqualIs(list, key, i);
      return None;
    }
  }

  // ---------------------------------------------------------------- the table answers with object numbers

  /** The chain of the table after these objects were inserted under their numbers: newest first. */
  function ChainFor(objects: seq<Ref>, b: nat, chain: Chains): seq<Entry> {
    if objects == [] then []
    else
      var last := |objects| - 1;
      var older := ChainFor(objects[..last], b, chain);
      if chain(objects[last]) == b then [Entry(objects[last], last)] + older else older
  }

  /** Equality of nodes is one: what equals the same node is equal. */
  lemma CompareIsEquivalence(a: Ref, b: Ref, p: Ref, chain: Chains)
    requires Same(a, p, chain) && Same(b, p, chain)
    ensures Same(a, b, chain)
  {
  }

  /** Newest-first or oldest-first, there is only one object the table can answer with. */
  lemma {:induction false} LookupIsIndexOf(objects: seq<Ref>, p: Ref, chain: Chains)
    requires NoRepeats(objects, chain)
    ensures Looked(ChainFor(objects, chain(p), chain), p) == IndexOf(objects, p, chain)
  {
    if objects != [] {
      var last := |objects| - 1;
      var earlier := objects[..last];
      assert NoRepeats(earlier, chain) by {
        forall i, j | 0 <= i < j < |earlier| ensures !Same(earlier[i], earlier[j], chain) {
          assert !Same(objects[i], objects[j], chain);
        }
      }
      LookupIsIndexOf(earlier, p, chain);
      if Same(objects[last], p, chain) && IndexOf(earlier, p, chain).Some? {
        CompareIsEquivalence(earlier[IndexOf(earlier, p, chain).value], objects[last], p, chain);
        assert false;
      }
      LookedInLonger(objects, p, chain);
    }
  }

  lemma LookedInLonger(objects: seq<Ref>, p: Ref, chain: Chains)
    requires objects != []
    ensures var last := |objects| - 1;
      Looked(ChainFor(objects, chain(p), chain), p) ==
        if Same(objects[last], p, chain) then Some(last) else Looked(ChainFor(objects[..last], chain(p), chain), p)
  {
    var last := |objects| - 1;
    var older := ChainFor(objects[..last], chain(p), chain);
    if chain(objects[last]) == chain(p) {
      var entries := [Entry(objects[last], last)] + older;
      assert entries[1..] == older;
    }
  }

  /** The table holds exactly these objects. */
  ghost predicate Stores(entries: seq<seq<Entry>>, objects: seq<Ref>, chain: Chains) {
    && |entries| == CHAINS && NoRepeats(objects, chain)
    && forall b {:trigger entries[b]} :: 0 <= b < CHAINS ==> entries[b] == ChainFor(objects, b, chain)
  }

  lemma ChainGrows(objects: seq<Ref>, p: Ref, b: nat, chain: Chains)
    ensures ChainFor(objects + [p], b, chain)
         == if chain(p) == b then [Entry(p, |objects|)] + ChainFor(objects, b, chain) else ChainFor(objects, b, chain)
  {
    assert (objects + [p])[..|objects|] == objects;
  }

  lemma NoRepeatsGrows(objects: seq<Ref>, p: Ref, chain: Chains)
    requires NoRepeats(objects, chain) && IndexOf(objects, p, chain).None?
    ensures NoRepeats(objects + [p], chain)
  {
    IndexOfNone(objects, p, chain);
  }

  lemma InsertKeepsStored(entries: seq<seq<Entry>>, objects: seq<Ref>, p: Ref, chain: Chains)
    requires Stores(entries, objects, chain) && chain(p) < CHAINS && IndexOf(objects, p, chain).None?
    ensures Stores(entries[chain(p) := Inserted(entries[chain(p)], p, |objects|)], objects + [p], chain)
  {
    LookupIsIndexOf(objects, p, chain);
    NoRepeatsGrows(objects, p, chain);
    var after := entries[chain(p) := Inserted(entries[chain(p)], p, |objects|)];
    forall b {:trigger after[b]} | 0 <= b < CHAINS ensures after[b] == ChainFor(objects + [p], b, chain) {
      ChainGrows(objects, p, b, chain);
    }
  }

  // ---------------------------------------------------------------- serialize_plist

  class Serializer {
    var objects: seq<Ref>
    const table: HashTable

    ghost predicate Valid()
      reads this, table, table.entries
    {
      table.Valid() && Stores(table.entries[..], objects, table.chain)
    }

    constructor (chain: Chains)
      requires forall p :: chain(p) < CHAINS
      ensures Valid() && objects == [] && table.chain == chain && fresh(table) && fresh(table.entries)
    {
      objects := [];
      table := new HashTable(chain);
    }

    method Serialize(p: Ref)
      requires Valid()
      modifies this, table, table.entries
      ensures Valid() && objects == PlistObjects.Serialize(p, old(objects), table.chain)
      decreases p.node, |p.node.kids| + 1
    {
      var found := table.Lookup(p);
      LookupIsIndexOf(objects, p, table.chain);
      if found.Some? {
        return;
      }
      InsertKeepsStored(table.entries[..], objects, p, table.chain);
      table.Insert(p, |objects|);
      objects := objects + [p];
      ghost var start := objects;
      var j := 0;
      while j < |p.node.kids|
        invariant 0 <= j <= |p.node.kids| && Valid()
        invariant SerializeKids(p, j, objects, table.chain) == SerializeKids(p, 0, start, table.chain)
      {
        Serialize(Kid(p, j));
        j := j + 1;
      }
    }
  }
}
