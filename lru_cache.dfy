/**
 * The bounded least-recently-used translation cache (`TranslationCache`, an
 * `OrderedDict` whose order runs from least to most recently used).
 * The dictionary is a sequence of entries in that order, with distinct keys.
 */
module LruCache {
  import opened Wrappers

  datatype Entry = Entry(key: string, value: string)

  predicate DistinctKeys(es: seq<Entry>) {
    forall i, j :: 0 <= i < j < |es| ==> es[i].key != es[j].key
  }

  /** Two runs of distinct keys that share no key join into one. */
  lemma DistinctConcat(a: seq<Entry>, b: seq<Entry>)
    requires DistinctKeys(a) && DistinctKeys(b)
    requires forall x, y :: 0 <= x < |a| && 0 <= y < |b| ==> a[x].key != b[y].key
    ensures DistinctKeys(a + b)
  {
    var es := a + b;
    forall i, j | 0 <= i < j < |es| ensures es[i].key != es[j].key {
      if j < |a| {
        assert es[i] == a[i] && es[j] == a[j];
      } else if i >= |a| {
        assert es[i] == b[i - |a|] && es[j] == b[j - |a|];
      } else {
        assert es[i] == a[i] && es[j] == b[j - |a|];
      }
    }
  }

  predicate HasKey(es: seq<Entry>, k: string) {
    exists i :: 0 <= i < |es| && es[i].key == k
  }

  /** Position of key `k`, or -1 when the dictionary does not hold it. */
  function IndexOf(es: seq<Entry>, k: string): (r: int)
    ensures -1 <= r < |es|
    ensures r >= 0 ==> es[r].key == k
    ensures r < 0 <==> !HasKey(es, k)
  {
    if es == [] then -1
    else if es[0].key == k then 0
    else
      var r := IndexOf(es[1..], k);
      assert forall i :: 1 <= i < |es| ==> es[i] == es[1..][i - 1];
      if r < 0 then -1 else r + 1
  }

  /** `cache[k]` if present, else None; reads only, no reordering. */
  function Lookup(es: seq<Entry>, k: string): Option<string> {
    var i := IndexOf(es, k);
    if i < 0 then None else Some(es[i].value)
  }

  /** The dictionary after `move_to_end(k)` (unchanged when `k` is absent). */
  function Touched(es: seq<Entry>, k: string): seq<Entry> {
    var i := IndexOf(es, k);
    if i < 0 then es else es[..i] + es[i + 1..] + [es[i]]
  }

  /** Whether `put(k, _)` must first evict the least recently used entry. */
  predicate Evicts(es: seq<Entry>, k: string, cap: nat) {
    !HasKey(es, k) && |es| >= cap
  }

  /** The dictionary after `put(k, v)` with capacity `cap`. */
  function Stored(es: seq<Entry>, k: string, v: string, cap: nat): seq<Entry>
    requires cap > 0
  {
    var i := IndexOf(es, k);
    if i >= 0 then es[..i] + es[i + 1..] + [Entry(k, v)]
    else if |es| >= cap then es[1..] + [Entry(k, v)]
    else es + [Entry(k, v)]
  }

  lemma LookupAt(es: seq<Entry>, i: nat)
    requires DistinctKeys(es) && i < |es|
    ensures Lookup(es, es[i].key) == Some(es[i].value)
  {
  }

  lemma LookupMissing(es: seq<Entry>, k: string)
    requires forall i :: 0 <= i < |es| ==> es[i].key != k
    ensures Lookup(es, k) == None
  {
  }

  /** `get` reordering: nothing is added or lost, and a present key becomes
      the most recently used. */
  lemma TouchedKeepsContents(es: seq<Entry>, k: string, k': string)
    requires DistinctKeys(es)
    ensures DistinctKeys(Touched(es, k)) && |Touched(es, k)| == |es|
    ensures Lookup(Touched(es, k), k') == Lookup(es, k')
    ensures HasKey(es, k) ==> Touched(es, k)[|es| - 1].key == k
    ensures !HasKey(es, k) ==> Touched(es, k) == es
  {
    var i := IndexOf(es, k);
    if i >= 0 {
      var t := Touched(es, k);
      TouchedAt(es, k);
      if HasKey(es, k') {
        var j := IndexOf(es, k');
        var j' := if j < i then j else if j == i then |es| - 1 else j - 1;
        assert t[j'] == es[j];
        LookupAt(t, j');
        LookupAt(es, j);
      } else {
        LookupMissing(t, k');
      }
    }
  }

  /** Where each entry goes when the entry of a present key `k` moves to
      the end. */
  lemma TouchedAt(es: seq<Entry>, k: string)
    requires IndexOf(es, k) >= 0
    ensures var i, t := IndexOf(es, k), Touched(es, k);
      && |t| == |es| && t[|es| - 1] == es[i]
      && (forall j :: 0 <= j < i ==> t[j] == es[j])
      && (forall j :: i <= j < |es| - 1 ==> t[j] == es[j + 1])
  {
    var i := IndexOf(es, k);
    var a, b := es[..i], es[i + 1..];
    var t := a + b + [es[i]];
    assert Touched(es, k) == t;
    assert |t| == |es|;
    forall j | 0 <= j < i ensures t[j] == es[j] {
      assert t[j] == a[j];
    }
    forall j | i <= j < |es| - 1 ensures t[j] == es[j + 1] {
      assert t[j] == (a + b)[j] == b[j - i];
    }
  }

  /** The three shapes of `put`, each with the new position of every
      surviving old entry. */
  lemma StoredShape(es: seq<Entry>, k: string, v: string, cap: nat)
    requires cap > 0 && |es| <= cap && DistinctKeys(es)
    ensures |Stored(es, k, v, cap)| > 0
    ensures Stored(es, k, v, cap)[|Stored(es, k, v, cap)| - 1] == Entry(k, v)
    ensures |Stored(es, k, v, cap)| == if HasKey(es, k) || |es| >= cap then |es| else |es| + 1
    ensures forall j :: 0 <= j < |Stored(es, k, v, cap)| - 1 ==>
              Stored(es, k, v, cap)[j] == Survivor(es, k, cap, j)
  {
    var i := IndexOf(es, k);
    var s := Stored(es, k, v, cap);
    if i >= 0 {
      assert s == es[..i] + es[i + 1..] + [Entry(k, v)];
      forall j | 0 <= j < |s| - 1 ensures s[j] == Survivor(es, k, cap, j) {
        if j < i { assert s[j] == es[..i][j]; } else { assert s[j] == es[i + 1..][j - i]; }
      }
    } else if |es| >= cap {
      assert s == es[1..] + [Entry(k, v)];
      forall j | 0 <= j < |s| - 1 ensures s[j] == Survivor(es, k, cap, j) {
        assert s[j] == es[1..][j];
      }
    }
  }

  /** The old entry that `put(k, _)` moves to position `j` (below the new
      most recently used slot). */
  function Survivor(es: seq<Entry>, k: string, cap: nat, j: nat): Entry
    requires j + 1 < |es| || (j < |es| && !HasKey(es, k) && |es| < cap)
  {
    var i := IndexOf(es, k);
    if i >= 0 then (if j < i then es[j] else es[j + 1])
    else if |es| >= cap then es[j + 1]
    else es[j]
  }

  lemma StoredDistinct(es: seq<Entry>, k: string, v: string, cap: nat)
    requires cap > 0 && |es| <= cap && DistinctKeys(es)
    ensures DistinctKeys(Stored(es, k, v, cap)) && |Stored(es, k, v, cap)| <= cap
  {
    StoredShape(es, k, v, cap);
    var s := Stored(es, k, v, cap);
    forall a, b | 0 <= a < b < |s| ensures s[a].key != s[b].key {
      assert s[a] == Survivor(es, k, cap, a);
      if b < |s| - 1 {
        assert s[b] == Survivor(es, k, cap, b);
      }
    }
  }

  /** `put`: the key holds the new value and is most recently used; the
      size never passes the capacity; the only entry that can disappear is
      the least recently used one, and only when the key is new and the
      dictionary is full. */
  lemma StoredSpec(es: seq<Entry>, k: string, v: string, cap: nat, k': string)
    requires cap > 0 && |es| <= cap && DistinctKeys(es)
    ensures DistinctKeys(Stored(es, k, v, cap)) && |Stored(es, k, v, cap)| <= cap
    ensures |Stored(es, k, v, cap)| == if HasKey(es, k) || Evicts(es, k, cap) then |es| else |es| + 1
    ensures Stored(es, k, v, cap)[|Stored(es, k, v, cap)| - 1] == Entry(k, v)
    ensures Lookup(Stored(es, k, v, cap), k) == Some(v)
    ensures k' != k ==>
              Lookup(Stored(es, k, v, cap), k') ==
              if Evicts(es, k, cap) && es[0].key == k' then None else Lookup(es, k')
  {
    StoredShape(es, k, v, cap);
    StoredDistinct(es, k, v, cap);
    var s := Stored(es, k, v, cap);
    var i := IndexOf(es, k);
    LookupAt(s, |s| - 1);
    if k' != k {
      if HasKey(es, k') && !(Evicts(es, k, cap) && es[0].key == k') {
        var j := IndexOf(es, k');
        var j' := if i >= 0 then (if j < i then j else j - 1)
                  else if |es| >= cap then j - 1 else j;
        assert s[j'] == Survivor(es, k, cap, j');
        LookupAt(s, j');
      } else {
        forall j | 0 <= j < |s| ensures s[j].key != k' {
          if j < |s| - 1 {
            assert s[j] == Survivor(es, k, cap, j);
          }
        }
        LookupMissing(s, k');
      }
    }
  }

  /** The dictionary after a run of `put`s, oldest first. */
  function PutAll(es: seq<Entry>, kvs: seq<Entry>, cap: nat): seq<Entry>
    requires cap > 0
    decreases |kvs|
  {
    if kvs == [] then es
    else PutAll(Stored(es, kvs[0].key, kvs[0].value, cap), kvs[1..], cap)
  }

  lemma {:induction false} PutAllAppend(es: seq<Entry>, a: seq<Entry>, b: seq<Entry>, cap: nat)
    requires cap > 0
    ensures PutAll(es, a + b, cap) == PutAll(PutAll(es, a, cap), b, cap)
    decreases |a|
  {
    if a == [] {
      assert a + b == b;
    } else {
      assert (a + b)[0] == a[0];
      assert (a + b)[1..] == a[1..] + b;
      PutAllAppend(Stored(es, a[0].key, a[0].value, cap), a[1..], b, cap);
    }
  }

  /** Below capacity, `put`s of distinct new keys just append them. */
  lemma {:induction false} PutAllFresh(es: seq<Entry>, kvs: seq<Entry>, cap: nat)
    requires cap > 0 && |es| + |kvs| <= cap && DistinctKeys(es + kvs)
    ensures PutAll(es, kvs, cap) == es + kvs
    decreases |kvs|
  {
    if kvs != [] {
      var e := kvs[0];
      assert !HasKey(es, e.key) by {
        forall j | 0 <= j < |es| ensures es[j].key != e.key {
          assert (es + kvs)[j] == es[j] && (es + kvs)[|es|] == e;
        }
      }
      assert Stored(es, e.key, e.value, cap) == es + [e];
      assert es + [e] + kvs[1..] == es + kvs;
      PutAllFresh(es + [e], kvs[1..], cap);
    }
  }

  /** A single `put` as a run of one. */
  lemma PutAllOne(es: seq<Entry>, e: Entry, cap: nat)
    requires cap > 0
    ensures PutAll(es, [e], cap) == Stored(es, e.key, e.value, cap)
  {
    assert [e][1..] == [];
  }

  /** `cap + 1` puts of distinct keys into an empty cache leave the last
      `cap` of them, in order. */
  lemma OverfullRun(kvs: seq<Entry>, cap: nat)
    requires cap > 0 && |kvs| == cap + 1 && DistinctKeys(kvs)
    ensures PutAll([], kvs, cap) == kvs[1..]
  {
    var front, last := kvs[..cap], kvs[cap];
    assert kvs == front + [last];
    assert [] + front == front;
    PutAllAppend([], front, [last], cap);
    PutAllFresh([], front, cap);
    PutAllOne(front, last, cap);
    assert !HasKey(front, last.key) by {
      forall j | 0 <= j < |front| ensures front[j].key != last.key {
        assert front[j] == kvs[j];
      }
    }
    assert Stored(front, last.key, last.value, cap) == kvs[1..];
  }

  /** After `cap + 1` puts of distinct keys into an empty cache, the first
      key is gone and every other key is still there with its value. */
  lemma EvictsOldestFirst(kvs: seq<Entry>, cap: nat)
    requires cap > 0 && |kvs| == cap + 1 && DistinctKeys(kvs)
    ensures Lookup(PutAll([], kvs, cap), kvs[0].key) == None
    ensures forall i :: 1 <= i < |kvs| ==> Lookup(PutAll([], kvs, cap), kvs[i].key) == Some(kvs[i].value)
  {
    OverfullRun(kvs, cap);
    var r := kvs[1..];
    assert DistinctKeys(r) by {
      forall a, b | 0 <= a < b < |r| ensures r[a].key != r[b].key {
        assert r[a] == kvs[a + 1] && r[b] == kvs[b + 1];
      }
    }
    LookupMissing(r, kvs[0].key);
    forall i | 1 <= i < |kvs| ensures Lookup(r, kvs[i].key) == Some(kvs[i].value) {
      assert r[i - 1] == kvs[i];
      LookupAt(r, i - 1);
    }
  }

  /** `TranslationCache`: an LRU dictionary bounded by `maxSize`. */
  class TranslationCache {
    var entries: seq<Entry>
    const maxSize: nat

    ghost predicate Valid()
      reads this
    {
      0 < maxSize && |entries| <= maxSize && DistinctKeys(entries)
    }

    constructor (maxSize: nat)
      requires maxSize > 0
      ensures Valid() && entries == [] && this.maxSize == maxSize
    {
      this.maxSize := maxSize;
      entries := [];
    }

    /** `get`: the stored value (None if absent); a hit becomes the most
        recently used entry. */
    method Get(key: string) returns (r: Option<string>)
      requires Valid()
      modifies this
      ensures Valid()
      ensures r == Lookup(old(entries), key)
      ensures entries == Touched(old(entries), key)
    {
      var i := IndexOf(entries, key);
      if i >= 0 {
        r := Some(entries[i].value);
        TouchedKeepsContents(entries, key, key);
        entries := entries[..i] + entries[i + 1..] + [entries[i]];
      } else {
        r := None;
      }
    }

    /** `put`: overwrite or insert, evicting the least recently used entry
        when a new key arrives at a full cache. */
    method Put(key: string, value: string)
      requires Valid()
      modifies this
      ensures Valid()
      ensures entries == Stored(old(entries), key, value, maxSize)
    {
      StoredSpec(entries, key, value, maxSize, key);
      var i := IndexOf(entries, key);
      if i >= 0 {
        entries := entries[..i] + entries[i + 1..] + [Entry(key, value)];
      } else {
        if |entries| >= maxSize {
          entries := entries[1..];
        }
        entries := entries + [Entry(key, value)];
      }
    }

    method Clear()
      requires Valid()
      modifies this
      ensures Valid() && entries == []
    {
      entries := [];
    }

    /** `size`: never more than the capacity. */
    function Size(): (r: nat)
      reads this
      ensures Valid() ==> r <= maxSize
    {
      |entries|
    }
  }
}
