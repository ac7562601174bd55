/** The chained hash table of src/icl_hash.c, on heap chains, refining a finite map. */
module HashTable {
  import opened Bytes
  import opened Sequences

  // ----- hash_pjw on 32-bit words -----

  const HIGH_BITS: bv32 := 0xF000_0000

  /** A byte added to the hash is a signed char, so bytes from 128 up are sign-extended. */
  function SignExtend(c: bv8): bv32 {
    if c < 0x80 then c as bv32 else (c as bv32) | 0xFFFF_FF00
  }

  /** What is pushed into the top four bits comes back in below, and the top four bits are cleared. */
  function Fold(x: bv32): (r: bv32)
    ensures r & HIGH_BITS == 0
  {
    var i := x & HIGH_BITS;
    if i != 0 then (x ^ (i >> 24)) & !HIGH_BITS else x
  }

  function PjwStep(h: bv32, c: bv8): (r: bv32)
    ensures r & HIGH_BITS == 0
  {
    Fold((h << 4) + SignExtend(c))
  }

  /** The hash of a C string: bytes from the first zero on do not count. */
  function Pjw(key: seq<bv8>, h: bv32): bv32 {
    if key == [] || key[0] == 0 then h else Pjw(key[1..], PjwStep(h, key[0]))
  }

  /** Bytes from 128 up count as negative numbers. */
  lemma SignExtendIs(c: bv8)
    ensures SignExtend(c) == if c < 128 then c as bv32 else 0xFFFF_FF00 + (c as bv32)
  {
  }

  lemma HighFolded(x: bv32)
    ensures (x ^ ((x & HIGH_BITS) >> 24)) & !HIGH_BITS == (x & 0x0FFF_FFFF) ^ ((x >> 28) << 4)
  {
  }

  lemma NoneFolded(x: bv32)
    requires x & HIGH_BITS == 0
    ensures (x & 0x0FFF_FFFF) ^ ((x >> 28) << 4) == x
  {
  }

  /** The four bits pushed out at the top of the hash are mixed in at bits 4 to 7. */
  lemma FoldIs(x: bv32)
    ensures Fold(x) == (x & 0x0FFF_FFFF) ^ ((x >> 28) << 4)
  {
    if x & HIGH_BITS != 0 {
      HighFolded(x);
    } else {
      NoneFolded(x);
    }
  }

  /** One round: the hash times sixteen, and the character, folded. */
  lemma PjwStepIs(h: bv32, c: bv8, x: bv32)
    requires x == (h << 4) + SignExtend(c)
    ensures PjwStep(h, c) == (x & 0x0FFF_FFFF) ^ ((x >> 28) << 4)
  {
    hide Fold, SignExtend;
    FoldIs(x);
  }

  /** The hash takes one character after the other. */
  lemma {:induction false} PjwNext(key: seq<bv8>, c: bv8, h: bv32)
    requires c != 0 && forall i :: 0 <= i < |key| ==> key[i] != 0
    ensures Pjw([], h) == h && Pjw(key + [c], h) == PjwStep(Pjw(key, h), c)
  {
    if key == [] {
      assert key + [c] == [c] && [c][1..] == [];
    } else {
      assert (key + [c])[1..] == key[1..] + [c];
      PjwNext(key[1..], c, PjwStep(h, key[0]));
    }
  }

  /** And ends before the first zero. */
  lemma {:induction false} PjwEnds(key: seq<bv8>, rest: seq<bv8>, h: bv32)
    requires forall i :: 0 <= i < |key| ==> key[i] != 0
    ensures Pjw(key + [0] + rest, h) == Pjw(key, h)
  {
    var all := key + [0] + rest;
    if key == [] {
      assert all[0] == 0;
    } else {
      assert all[0] == key[0] && all[1..] == key[1..] + [0] + rest;
      PjwEnds(key[1..], rest, PjwStep(h, key[0]));
    }
  }

  lemma ClearedHighBits(h: bv32)
    requires h & HIGH_BITS == 0
    ensures h < 0x1000_0000
  {
  }

  method HashPjw(key: seq<bv8>) returns (hash_value: bv32)
    ensures hash_value == Pjw(key, 0)
    ensures hash_value < 0x1000_0000
  {
    hash_value := 0;
    var n := 0;
    while n < |key| && key[n] != 0
      invariant 0 <= n <= |key|
      invariant Pjw(key[n..], hash_value) == Pjw(key, 0)
      invariant hash_value & HIGH_BITS == 0
    {
      assert key[n..][1..] == key[n + 1..];
      hash_value := PjwStep(hash_value, key[n]);
      n := n + 1;
    }
    ClearedHighBits(hash_value);
  }

  // ----- the table -----

  class Entry<V> {
    const key: string
    const data: V
    var next: Entry?<V>

    constructor (key: string, data: V, next: Entry?<V>)
      ensures this.key == key && this.data == data && this.next == next
    {
      this.key, this.data, this.next := key, data, next;
    }
  }

  class Table<V> {
    const nbuckets: int
    const hash: string -> nat
    const buckets: array<Entry?<V>>
    var nentries: int
    ghost var chains: seq<seq<Entry<V>>>
    ghost var entries: set<Entry<V>>
    ghost var contents: map<string, V>

    /** The pointers of one bucket: a null-terminated chain of known entries. */
    ghost predicate Linked(b: int)
      requires 0 <= b < nbuckets == buckets.Length == |chains|
      reads `chains, `entries, buckets, entries
    {
      var c := chains[b];
      && (forall i :: 0 <= i < |c| ==> c[i] in entries)
      && buckets[b] == (if c == [] then null else c[0])
      && (forall i {:trigger c[i].next} :: 0 <= i < |c| ==> c[i].next == if i + 1 < |c| then c[i + 1] else null)
    }

    ghost predicate AllLinked()
      reads `chains, `entries, buckets, entries
    {
      0 < nbuckets == buckets.Length == |chains| && forall b :: 0 <= b < nbuckets ==> Linked(b)
    }

    /** Every key is in the bucket it hashes to, and no bucket holds a key twice. */
    ghost predicate AllKeyed()
      reads `chains
    {
      0 < nbuckets == |chains| && forall b :: 0 <= b < nbuckets ==> Keyed(chains[b], b)
    }

    /** m lists exactly the entries of the chains. */
    ghost predicate Represents(ch: seq<seq<Entry<V>>>, m: map<string, V>)
      requires 0 < nbuckets == |ch|
    {
      && (forall b, i :: 0 <= b < nbuckets && 0 <= i < |ch[b]| ==> Holds(m, ch[b][i]))
      && (forall k :: k in m ==> Stored(ch[Bucket(k)], k))
    }

    ghost predicate Holds(m: map<string, V>, e: Entry<V>) {
      e.key in m && m[e.key] == e.data
    }

    ghost predicate Stored(c: seq<Entry<V>>, k: string) {
      exists i :: 0 <= i < |c| && c[i].key == k
    }

    /** A chain whose keys are distinct and belong to bucket b. */
    ghost predicate Keyed(c: seq<Entry<V>>, b: int)
      requires 0 < nbuckets
    {
      && (forall i :: 0 <= i < |c| ==> Bucket(c[i].key) == b)
      && (forall i, j :: 0 <= i < j < |c| ==> c[i].key != c[j].key)
    }

    lemma InsertRepresents(ch: seq<seq<Entry<V>>>, m: map<string, V>, e: Entry<V>)
      requires 0 < nbuckets == |ch| && Represents(ch, m) && e.key !in m
      ensures Represents(ch[Bucket(e.key) := [e] + ch[Bucket(e.key)]], m[e.key := e.data])
    {
      var h := Bucket(e.key);
      var ch', m' := ch[h := [e] + ch[h]], m[e.key := e.data];
      forall b, i | 0 <= b < nbuckets && 0 <= i < |ch'[b]| ensures Holds(m', ch'[b][i]) {
        if b != h { assert Holds(m, ch[b][i]); }
        else if i > 0 { assert Holds(m, ch[b][i - 1]); }
      }
      forall k | k in m' ensures Stored(ch'[Bucket(k)], k) {
        if k == e.key {
          assert ch'[h][0].key == k;
        } else {
          var c := ch[Bucket(k)];
          assert Stored(c, k);
          var i :| 0 <= i < |c| && c[i].key == k;
          assert ch'[Bucket(k)][if Bucket(k) == h then i + 1 else i].key == k;
        }
      }
    }

    lemma DeleteRepresents(ch: seq<seq<Entry<V>>>, m: map<string, V>, h: int, n: nat)
      requires 0 < nbuckets == |ch| && Represents(ch, m)
      requires 0 <= h < nbuckets && n < |ch[h]|
      requires forall b :: 0 <= b < nbuckets ==> Keyed(ch[b], b)
      ensures Represents(ch[h := RemoveAt(ch[h], n)], m - {ch[h][n].key})
    {
      var key := ch[h][n].key;
      var ch', m' := ch[h := RemoveAt(ch[h], n)], m - {key};
      assert Keyed(ch[h], h);
      forall b, i | 0 <= b < nbuckets && 0 <= i < |ch'[b]| ensures Holds(m', ch'[b][i]) {
        assert Keyed(ch[b], b);
        if b != h { assert Holds(m, ch[b][i]); }
        else if i < n { assert Holds(m, ch[b][i]); }
        else { assert Holds(m, ch[b][i + 1]); }
      }
      forall k | k in m' ensures Stored(ch'[Bucket(k)], k) {
        var c := ch[Bucket(k)];
        assert Stored(c, k);
        var i :| 0 <= i < |c| && c[i].key == k;
        assert ch'[Bucket(k)][if Bucket(k) != h || i < n then i else i - 1].key == k;
      }
    }

    ghost predicate Valid()
      reads this, buckets, entries
    {
      && AllLinked()
      && AllKeyed()
      && Represents(chains, contents)
    }

    function Bucket(key: string): (b: int)
      requires 0 < nbuckets
      ensures 0 <= b < nbuckets
    {
      hash(key) % nbuckets
    }

    constructor (nbuckets: int, hash: string -> nat)
      requires nbuckets > 0
      ensures Valid() && contents == map[] && fresh(buckets) && entries == {}
      ensures this.nbuckets == nbuckets && this.hash == hash
    {
      this.nbuckets := nbuckets;
      this.hash := hash;
      this.buckets := new Entry?<V>[nbuckets];
      nentries := 0;
      chains := seq(nbuckets, _ => []);
      entries, contents := {}, map[];
      new;
      var i := 0;
      while i < nbuckets
        invariant 0 <= i <= nbuckets
        invariant forall b :: 0 <= b < i ==> buckets[b] == null
        invariant chains == seq(nbuckets, _ => []) && contents == map[] && nentries == 0 && entries == {}
      {
        buckets[i] := null;
        i := i + 1;
      }
    }

    /** The walk down a chain that find, insert and delete share, with the node before the match. */
    method Walk(key: string) returns (prev: Entry?<V>, curr: Entry?<V>, ghost i: nat)
      requires Valid()
      ensures i <= |chains[Bucket(key)]|
      ensures curr == if i < |chains[Bucket(key)]| then chains[Bucket(key)][i] else null
      ensures prev == if i > 0 then chains[Bucket(key)][i - 1] else null
      ensures curr != null ==> curr.key == key
      ensures curr != null <==> key in contents
      ensures curr == null ==> !Stored(chains[Bucket(key)], key)
    {
      var h := Bucket(key);
      ghost var c := chains[h];
      assert Linked(h) && Keyed(c, h);
      prev := null;
      curr := buckets[h];
      i := 0;
      while curr != null && curr.key != key
        invariant 0 <= i <= |c|
        invariant curr == if i < |c| then c[i] else null
        invariant prev == if i > 0 then c[i - 1] else null
        invariant forall j :: 0 <= j < i ==> c[j].key != key
        decreases |c| - i
      {
        prev := curr;
        curr := curr.next;
        i := i + 1;
      }
    }

    method Find(key: string) returns (r: Option<V>)
      requires Valid()
      ensures r == if key in contents then Some(contents[key]) else None
    {
      var prev, curr, i := Walk(key);
      if curr == null { return None; }
      assert Holds(contents, chains[Bucket(key)][i]);
      return Some(curr.data);
    }

    method PushFront(h: int, e: Entry<V>)
      requires AllLinked() && 0 <= h < nbuckets && e !in entries && e.next == buckets[h]
      modifies this`chains, this`entries, buckets
      ensures AllLinked() && entries == old(entries) + {e}
      ensures chains == old(chains)[h := [e] + old(chains)[h]]
    {
      buckets[h] := e;
      entries := entries + {e};
      chains := chains[h := [e] + chains[h]];
      forall b | 0 <= b < nbuckets ensures Linked(b) {
        assert old(Linked(b));
      }
    }

    method Unlink(h: int, prev: Entry?<V>, curr: Entry<V>, ghost i: nat)
      requires AllLinked() && AllKeyed() && 0 <= h < nbuckets && i < |chains[h]|
      requires curr == chains[h][i] && prev == if i > 0 then chains[h][i - 1] else null
      modifies this`chains, buckets, entries
      ensures AllLinked() && chains == old(chains)[h := RemoveAt(old(chains)[h], i)]
      ensures entries == old(entries) && contents == old(contents)
      ensures nentries == old(nentries)
    {
      assert Linked(h) && Keyed(chains[h], h);
      if prev == null {
        buckets[h] := curr.next;
      } else {
        prev.next := curr.next;
      }
      chains := chains[h := RemoveAt(chains[h], i)];
      forall b | 0 <= b < nbuckets ensures Linked(b) {
        assert old(Linked(b)) && Keyed(old(chains[b]), b);
      }
    }

    method AddAtFront(key: string, data: V)
      requires Valid() && key !in contents
      modifies this, buckets
      ensures Valid() && nentries == old(nentries) + 1
      ensures contents == old(contents)[key := data]
      ensures fresh(entries - old(entries)) && old(entries) <= entries
    {
      var h := Bucket(key);
      var curr := new Entry(key, data, buckets[h]);
      InsertRepresents(chains, contents, curr);
      assert Keyed(chains[h], h);
      KeyedCons(chains[h], curr, h);
      PushFront(h, curr);
      nentries := nentries + 1;
      contents := contents[key := data];
    }

    method Insert(key: string, data: V) returns (inserted: bool)
      requires Valid()
      modifies this, buckets
      ensures Valid() && nentries == old(nentries) + if inserted then 1 else 0
      ensures inserted <==> key !in old(contents)
      ensures contents == if inserted then old(contents)[key := data] else old(contents)
      ensures fresh(entries - old(entries)) && old(entries) <= entries
    {
      var prev, curr, i := Walk(key);
      if curr != null { return false; }
      AddAtFront(key, data);
      return true;
    }

    lemma KeyedCons(c: seq<Entry<V>>, e: Entry<V>, b: int)
      requires 0 < nbuckets && Keyed(c, b) && Bucket(e.key) == b && !Stored(c, e.key)
      ensures Keyed([e] + c, b)
    {
    }

    method Drop(prev: Entry?<V>, curr: Entry<V>, ghost i: nat)
      requires Valid() && i < |chains[Bucket(curr.key)]| && curr == chains[Bucket(curr.key)][i]
      requires prev == if i > 0 then chains[Bucket(curr.key)][i - 1] else null
      modifies this, buckets, entries
      ensures Valid() && entries == old(entries)
      ensures contents == old(contents) - {curr.key} && curr.key in old(contents)
      ensures nentries == old(nentries) + 1
    {
      var h := Bucket(curr.key);
      assert Holds(contents, curr);
      DeleteRepresents(chains, contents, h, i);
      KeyedRemove(chains[h], i, h);
      Unlink(h, prev, curr, i);
      nentries := nentries + 1;
      contents := contents - {curr.key};
    }

    /** nentries goes up here too, as in the source, where nothing reads it. */
    method Delete(key: string) returns (deleted: bool)
      requires Valid()
      modifies this, buckets, entries
      ensures Valid() && entries == old(entries)
      ensures deleted <==> key in old(contents)
      ensures contents == old(contents) - {key}
      ensures nentries == old(nentries) + if deleted then 1 else 0
    {
      var prev, curr, i := Walk(key);
      if curr == null {
        assert contents == contents - {key};
        return false;
      }
      Drop(prev, curr, i);
      return true;
    }

    lemma KeyedRemove(c: seq<Entry<V>>, i: nat, b: int)
      requires 0 < nbuckets && Keyed(c, b) && i < |c|
      ensures Keyed(RemoveAt(c, i), b)
    {
    }

    /** No node is on two chains, nor twice on one: the chains are acyclic and disjoint. */
    lemma ChainsDisjoint(b: int, i: int, b': int, i': int)
      requires Valid()
      requires 0 <= b < nbuckets && 0 <= i < |chains[b]|
      requires 0 <= b' < nbuckets && 0 <= i' < |chains[b']|
      ensures chains[b][i] == chains[b'][i'] ==> b == b' && i == i'
    {
      assert Keyed(chains[b], b) && Keyed(chains[b'], b');
    }
  }
}
