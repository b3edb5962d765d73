// The chained hash table that holds both the command table and the symbol
// table (tableTools.c): TABLE_SIZE buckets, each a chain of key/value cells.

module Tables {
  import opened Numbering

  const TABLE_SIZE := 50
  const RAND_HASH_NUM := 31

  datatype Option<T> = None | Some(value: T)

  /** One cell of a chain: its key and the value stored for it. */
  datatype Cell<V> = Cell(key: string, value: V)

  /**
   * The unsigned hash accumulated over s: each character is added to 31 times
   * the value so far, with `unsigned int` wrap-around.
   */
  function HashValue(s: string): nat
  {
    if s == [] then 0
    else ((s[|s| - 1] as int) + RAND_HASH_NUM * HashValue(s[..|s| - 1])) % UINT_RANGE
  }

  /** The bucket of key s. */
  function Bucket(s: string): nat
  {
    HashValue(s) % TABLE_SIZE
  }

  /** What a walk along a chain finds for k: the value of the first cell whose key is k. */
  function Find<V>(chain: seq<Cell<V>>, k: string): Option<V>
  {
    if chain == [] then None
    else if chain[0].key == k then Some(chain[0].value)
    else Find(chain[1..], k)
  }

  /** hash: the bucket index of s, always below TABLE_SIZE. */
  method Hash(s: string) returns (h: nat)
    ensures h == Bucket(s) && h < TABLE_SIZE
  {
    var hashval := 0;
    var i := 0;
    while i < |s|
      invariant 0 <= i <= |s|
      invariant hashval == HashValue(s[..i])
    {
      assert s[..i + 1][..i] == s[..i];
      hashval := ((s[i] as int) + RAND_HASH_NUM * hashval) % UINT_RANGE;
      i := i + 1;
    }
    assert s[..|s|] == s;
    h := hashval % TABLE_SIZE;
  }

  /** The walk of lookup along one chain: the position of the first cell with key k, or |chain|. */
  method Position<V>(chain: seq<Cell<V>>, k: string) returns (i: nat)
    ensures i <= |chain|
    ensures forall j :: 0 <= j < i ==> chain[j].key != k
    ensures i < |chain| ==> chain[i].key == k
    ensures Find(chain, k) == if i < |chain| then Some(chain[i].value) else None
  {
    i := 0;
    while i < |chain| && chain[i].key != k
      invariant 0 <= i <= |chain|
      invariant forall j :: 0 <= j < i ==> chain[j].key != k
      invariant Find(chain, k) == Find(chain[i..], k)
    {
      assert chain[i..][1..] == chain[i + 1..];
      i := i + 1;
    }
  }

  lemma FindCons<V>(c: Cell<V>, chain: seq<Cell<V>>, k: string)
    ensures Find([c] + chain, k) == if c.key == k then Some(c.value) else Find(chain, k)
  {
    assert ([c] + chain)[1..] == chain;
  }

  /** Overwriting the value of the first cell with key `key` changes what is found for that key only. */
  lemma {:induction false} FindReplace<V>(chain: seq<Cell<V>>, i: nat, key: string, v: V, k: string)
    requires i < |chain| && chain[i].key == key
    requires forall j :: 0 <= j < i ==> chain[j].key != key
    ensures Find(chain[i := Cell(key, v)], k) == if k == key then Some(v) else Find(chain, k)
  {
    var chain' := chain[i := Cell(key, v)];
    if i > 0 {
      assert chain'[1..] == chain[1..][i - 1 := Cell(key, v)];
      FindReplace(chain[1..], i - 1, key, v, k);
    }
  }

  /**
   * A table: TABLE_SIZE chains. `Contents` is the map the table stands for;
   * `Valid` says every cell sits in the bucket of its key and that walking the
   * bucket of any key finds exactly what `Contents` holds for it.
   */
  class Table<V> {
    const storage: array<seq<Cell<V>>>
    ghost var Contents: map<string, V>

    ghost predicate Valid()
      reads this, storage
    {
      storage.Length == TABLE_SIZE
      && (forall h, j :: 0 <= h < TABLE_SIZE && 0 <= j < |storage[h]| ==> Bucket(storage[h][j].key) == h)
      && (forall k {:trigger Find(storage[Bucket(k)], k)} ::
            Find(storage[Bucket(k)], k) == if k in Contents then Some(Contents[k]) else None)
    }

    /** An empty table, as calloc gives it: every bucket is an empty chain. */
    constructor ()
      ensures Valid() && Contents == map[] && fresh(storage)
    {
      storage := new seq<Cell<V>>[TABLE_SIZE](_ => []);
      Contents := map[];
    }

    /** The value stored for k, read without side effects (the pure face of lookup). */
    function Get(k: string): (r: Option<V>)
      reads this, storage
      requires Valid()
      ensures r.Some? <==> k in Contents
      ensures r.Some? ==> r.value == Contents[k]
    {
      Find(storage[Bucket(k)], k)
    }

    /** lookup: walks bucket hash(s) and returns the value of the cell whose key is s, if any. */
    method Lookup(s: string) returns (r: Option<V>)
      requires Valid()
      ensures r.Some? <==> s in Contents
      ensures r.Some? ==> r.value == Contents[s]
    {
      var h := Hash(s);
      var i := Position(storage[h], s);
      r := if i < |storage[h]| then Some(storage[h][i].value) else None;
    }

    /**
     * install: a key not yet present gets a new cell at the head of its bucket;
     * a present key keeps its cell, whose value is replaced.
     */
    method Install(key: string, value: V)
      requires Valid()
      modifies this, storage
      ensures Valid()
      ensures Contents == old(Contents)[key := value]
      ensures key !in old(Contents) ==> storage[Bucket(key)] == [Cell(key, value)] + old(storage[Bucket(key)])
      ensures key in old(Contents) ==> |storage[Bucket(key)]| == |old(storage[Bucket(key)])|
      ensures forall h :: 0 <= h < TABLE_SIZE && h != Bucket(key) ==> storage[h] == old(storage[h])
    {
      var h := Hash(key);
      var chain := storage[h];
      var i := Position(chain, key);
      if i == |chain| {
        storage[h] := [Cell(key, value)] + chain;
        forall k | Bucket(k) == h
          ensures Find(storage[h], k) == if k == key then Some(value) else Find(chain, k)
        {
          FindCons(Cell(key, value), chain, k);
        }
      } else {
        storage[h] := chain[i := Cell(key, value)];
        forall k | Bucket(k) == h
          ensures Find(storage[h], k) == if k == key then Some(value) else Find(chain, k)
        {
          FindReplace(chain, i, key, value, k);
        }
      }
      Contents := Contents[key := value];
    }
  }
}
