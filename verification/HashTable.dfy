/** The chained hash table of mysock_hash.h and the map it stands for. */
module HashTable {
  import opened Options

  datatype Entry<D> = Entry(key: nat, data: D)

  type Chain<D> = seq<Entry<D>>

  /** Where a key is in its chain: the first entry that has it. */
  function Find<D>(chain: Chain<D>, key: nat): (k: nat)
    ensures k <= |chain| && (forall j | 0 <= j < k :: chain[j].key != key) && (k < |chain| ==> chain[k].key == key)
  {
    if chain == [] || chain[0].key == key then 0 else 1 + Find(chain[1..], key)
  }

  function Lookup<D>(chains: seq<Chain<D>>, key: nat): Option<D>
    requires |chains| > 0
  {
    var chain := chains[key % |chains|];
    var k := Find(chain, key);
    if k < |chain| then Some(chain[k].data) else None
  }

  function Insert<D>(chains: seq<Chain<D>>, key: nat, data: D): seq<Chain<D>>
    requires |chains| > 0
  {
    var b := key % |chains|;
    chains[b := [Entry(key, data)] + chains[b]]
  }

  function SetEntry<D>(chains: seq<Chain<D>>, key: nat, data: D): seq<Chain<D>>
    requires |chains| > 0
  {
    var b := key % |chains|;
    var k := Find(chains[b], key);
    if k < |chains[b]| then chains[b := chains[b][k := Entry(key, data)]] else Insert(chains, key, data)
  }

  /** The chain without the first entry for `key`. */
  function Cut<D>(chain: Chain<D>, key: nat): Chain<D> {
    if chain == [] then []
    else if chain[0].key == key then chain[1..]
    else [chain[0]] + Cut(chain[1..], key)
  }

  lemma {:induction false} CutAt<D>(chain: Chain<D>, key: nat)
    ensures var k := Find(chain, key); Cut(chain, key) == if k < |chain| then chain[..k] + chain[k + 1..] else chain
  {
    if chain != [] && chain[0].key != key {
      CutAt(chain[1..], key);
      var k := Find(chain[1..], key);
      assert Find(chain, key) == k + 1;
      if k < |chain[1..]| {
        assert chain[..k + 1] == [chain[0]] + chain[1..][..k] && chain[k + 2..] == chain[1..][k + 1..];
      }
    }
  }

  function Delete<D>(chains: seq<Chain<D>>, key: nat): seq<Chain<D>>
    requires |chains| > 0
  {
    var b := key % |chains|;
    chains[b := Cut(chains[b], key)]
  }

  // ----- the map -------------------------------------------------------------------------------

  ghost predicate Distinct<D>(chain: Chain<D>) {
    forall i, j | 0 <= i < j < |chain| :: chain[i].key != chain[j].key
  }

  /** Every entry is in the bucket of its key, and no key is there twice. */
  ghost predicate Valid<D>(chains: seq<Chain<D>>) {
    && |chains| > 0
    && (forall b, e | 0 <= b < |chains| && e in chains[b] :: e.key % |chains| == b)
    && (forall b | 0 <= b < |chains| :: Distinct(chains[b]))
  }

  ghost predicate Agrees<D>(chains: seq<Chain<D>>, m: map<nat, D>, key: nat)
    requires |chains| > 0
  {
    Lookup(chains, key) == if key in m then Some(m[key]) else None
  }

  /** The chains stand for the map `m`: lookups agree with it on every key. */
  ghost predicate Represents<D>(chains: seq<Chain<D>>, m: map<nat, D>) {
    |chains| > 0 && forall key: nat :: Agrees(chains, m, key)
  }

  /** A lookup succeeds exactly on the keys of some entry, wherever it is. */
  lemma LookupFindsAll<D>(chains: seq<Chain<D>>, b: nat, e: Entry<D>)
    requires Valid(chains) && b < |chains| && e in chains[b]
    ensures Lookup(chains, e.key) == Some(e.data)
  {
    var chain := chains[b];
    var i :| 0 <= i < |chain| && chain[i] == e;
    var k := Find(chain, e.key);
    assert k == i;
  }

  /** Only one bucket changes, and only one key in it. */
  lemma OtherKeys<D>(chains: seq<Chain<D>>, b: nat, chain: Chain<D>, key: nat, other: nat)
    requires |chains| > 0 && b == key % |chains| && other != key
    requires Find(chain, other) < |chain| <==> Find(chains[b], other) < |chains[b]|
    requires Find(chain, other) < |chain| ==> chain[Find(chain, other)] == chains[b][Find(chains[b], other)]
    ensures Lookup(chains[b := chain], other) == Lookup(chains, other)
  {
  }

  lemma ChangedBucket<D>(chains: seq<Chain<D>>, b: nat, chain: Chain<D>)
    requires Valid(chains) && b < |chains| && Distinct(chain)
    requires forall e <- chain :: e.key % |chains| == b
    ensures Valid(chains[b := chain])
  {
  }

  /** Inserting a key that is absent adds it to the map, and the new entry is the one found. */
  lemma InsertRefines<D>(chains: seq<Chain<D>>, m: map<nat, D>, key: nat, data: D)
    requires Valid(chains) && Represents(chains, m) && key !in m
    ensures Valid(Insert(chains, key, data)) && Represents(Insert(chains, key, data), m[key := data])
  {
    var b := key % |chains|;
    var chain := [Entry(key, data)] + chains[b];
    assert chain[1..] == chains[b];
    assert Agrees(chains, m, key);
    ChangedBucket(chains, b, chain);
    var after, m' := chains[b := chain], m[key := data];
    forall other: nat
      ensures Agrees(after, m', other)
    {
      assert Agrees(chains, m, other);
      if other != key {
        OtherKeys(chains, b, chain, key, other);
      }
    }
  }

  lemma UpdatedFind<D>(chain: Chain<D>, k: nat, e: Entry<D>, other: nat)
    requires k < |chain| && e.key == chain[k].key
    ensures Find(chain[k := e], other) == Find(chain, other)
  {
    var f, g := Find(chain[k := e], other), Find(chain, other);
    assert forall j | 0 <= j < |chain| :: chain[k := e][j].key == chain[j].key;
  }

  /** Setting adds the key or overwrites its value. */
  lemma SetRefines<D>(chains: seq<Chain<D>>, m: map<nat, D>, key: nat, data: D)
    requires Valid(chains) && Represents(chains, m)
    ensures Valid(SetEntry(chains, key, data)) && Represents(SetEntry(chains, key, data), m[key := data])
  {
    var b := key % |chains|;
    var k := Find(chains[b], key);
    assert Agrees(chains, m, key);
    if k < |chains[b]| {
      var e := Entry(key, data);
      var chain := chains[b][k := e];
      ChangedBucket(chains, b, chain);
      UpdatedFind(chains[b], k, e, key);
      var after, m' := chains[b := chain], m[key := data];
      forall other: nat
        ensures Agrees(after, m', other)
      {
        assert Agrees(chains, m, other);
        UpdatedFind(chains[b], k, e, other);
        if other != key {
          OtherKeys(chains, b, chain, key, other);
        }
      }
    } else {
      InsertRefines(chains, m, key, data);
    }
  }

  /** Cutting one entry shortens the chain and shows in no search for another key. */
  lemma {:induction false} CutFind<D>(chain: Chain<D>, key: nat, other: nat)
    requires other != key
    ensures var cut, f, g := Cut(chain, key), Find(Cut(chain, key), other), Find(chain, other);
            && (f < |cut| <==> g < |chain|)
            && (g < |chain| ==> cut[f] == chain[g])
  {
    if chain != [] {
      var rest := chain[1..];
      if chain[0].key == key {
        assert Cut(chain, key) == rest;
      } else {
        CutFind(rest, key, other);
        var x, c := chain[0], Cut(rest, key);
        var cut := [x] + c;
        assert cut[1..] == c;
        assert Find(cut, other) == if x.key == other then 0 else 1 + Find(c, other);
        assert Find(chain, other) == if x.key == other then 0 else 1 + Find(rest, other);
        assert Cut(chain, key) == cut;
        hide Cut, Find;
      }
    }
  }

  lemma {:induction false} CutKeeps<D>(chain: Chain<D>, key: nat)
    requires Distinct(chain)
    ensures Distinct(Cut(chain, key)) && (forall e <- Cut(chain, key) :: e in chain && e.key != key)
  {
    if chain != [] {
      var x, rest := chain[0], chain[1..];
      assert forall i | 0 <= i < |rest| :: rest[i] == chain[i + 1];
      if x.key != key {
        CutKeeps(rest, key);
        var c := Cut(rest, key);
        assert forall i | 0 <= i < |c| :: c[i] in rest;
        assert Cut(chain, key) == [x] + c;
        hide Cut;
      }
    }
  }

  /** Deleting takes the key, and nothing else, out of the map. */
  lemma DeleteRefines<D>(chains: seq<Chain<D>>, m: map<nat, D>, key: nat)
    requires Valid(chains) && Represents(chains, m)
    ensures Valid(Delete(chains, key)) && Represents(Delete(chains, key), m - {key})
  {
    var b := key % |chains|;
    var chain := Cut(chains[b], key);
    CutKeeps(chains[b], key);
    ChangedBucket(chains, b, chain);
    var after, m' := Delete(chains, key), m - {key};
    hide Cut;
    forall other: nat
      ensures Agrees(after, m', other)
    {
      assert Agrees(chains, m, other);
      if other != key {
        CutFind(chains[b], key, other);
        OtherKeys(chains, b, chain, key, other);
      } else {
        assert Find(chain, key) == |chain|;
      }
    }
  }

  function Count<D>(chain: Chain<D>, key: nat): nat {
    if chain == [] then 0 else (if chain[0].key == key then 1 else 0) + Count(chain[1..], key)
  }

  /** The assertion at the end of a deletion holds exactly when the key was in its chain at most once. */
  lemma {:induction false} DeleteAssertion<D>(chain: Chain<D>, key: nat)
    ensures Find(Cut(chain, key), key) == |Cut(chain, key)| <==> Count(chain, key) <= 1
  {
    if chain != [] {
      var rest := chain[1..];
      if chain[0].key == key {
        assert Cut(chain, key) == rest;
        CountZero(rest, key);
      } else {
        DeleteAssertion(rest, key);
        assert ([chain[0]] + Cut(rest, key))[1..] == Cut(rest, key);
      }
    }
  }

  lemma {:induction false} CountZero<D>(chain: Chain<D>, key: nat)
    ensures Find(chain, key) == |chain| <==> Count(chain, key) == 0
  {
    if chain != [] {
      CountZero(chain[1..], key);
    }
  }

  /** Inserting a key that is present hides the old entry, and a later deletion trips its assertion. */
  lemma InsertPresentBreaksDelete<D>(chains: seq<Chain<D>>, key: nat, data: D)
    requires |chains| > 0 && Lookup(chains, key).Some?
    ensures Lookup(Insert(chains, key, data), key) == Some(data)
    ensures Lookup(Delete(Insert(chains, key, data), key), key) == Lookup(chains, key)
  {
    var b := key % |chains|;
    var chain := [Entry(key, data)] + chains[b];
    assert Find(chain, key) == 0 && Cut(chain, key) == chains[b];
  }

  // ----- the table -----------------------------------------------------------------------------

  class Table<D> {
    const buckets: array<Chain<D>>

    ghost function Chains(): seq<Chain<D>>
      reads buckets
    {
      buckets[..]
    }

    constructor (size: nat)
      requires size > 0
      ensures fresh(buckets) && buckets.Length == size
      ensures Valid(Chains()) && Represents(Chains(), map[])
    {
      buckets := new Chain<D>[size](_ => []);
    }

    /** _hash_get_entry: the place of the key in its chain, or the end of the chain. */
    method GetEntry(key: nat) returns (k: nat)
      requires buckets.Length > 0
      ensures k == Find(buckets[key % buckets.Length], key)
    {
      var chain := buckets[key % buckets.Length];
      k := 0;
      while k < |chain| && chain[k].key != key
        invariant k <= |chain|
        invariant forall j | 0 <= j < k :: chain[j].key != key
      {
        k := k + 1;
      }
    }

    /** _hash_lookup_ptr. */
    method Get(key: nat) returns (data: Option<D>)
      requires buckets.Length > 0
      ensures data == Lookup(Chains(), key)
    {
      var k := GetEntry(key);
      var chain := buckets[key % buckets.Length];
      data := if k < |chain| then Some(chain[k].data) else None;
    }

    /** _hash_insert. */
    method Put(key: nat, data: D)
      requires buckets.Length > 0
      modifies buckets
      ensures Chains() == Insert(old(Chains()), key, data)
    {
      var b := key % buckets.Length;
      buckets[b] := [Entry(key, data)] + buckets[b];
      var k := GetEntry(key);
      assert k == 0;
    }

    /** _hash_set_entry. */
    method Set(key: nat, data: D)
      requires buckets.Length > 0
      modifies buckets
      ensures Chains() == SetEntry(old(Chains()), key, data)
    {
      var b := key % buckets.Length;
      var k := GetEntry(key);
      if k < |buckets[b]| {
        buckets[b] := buckets[b][k := Entry(key, data)];
      } else {
        Put(key, data);
      }
    }

    /** _hash_delete; `ok` is its final assertion. */
    method Remove(key: nat) returns (ok: bool)
      requires buckets.Length > 0
      modifies buckets
      ensures Chains() == Delete(old(Chains()), key)
      ensures ok <==> Count(old(Chains())[key % buckets.Length], key) <= 1
    {
      var b := key % buckets.Length;
      var k := GetEntry(key);
      DeleteAssertion(buckets[b], key);
      CutAt(buckets[b], key);
      if k < |buckets[b]| {
        buckets[b] := buckets[b][..k] + buckets[b][k + 1..];
      }
      var left := GetEntry(key);
      ok := left == |buckets[b]|;
    }
  }
}
