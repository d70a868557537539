/** memchk.c: the first-fit allocator that checks what it is given back.

    Addresses are natural numbers and 0 is the null pointer.  Descriptors live in a growing
    pool, as they do behind dalloc's avail pointer; a pointer to one is its index in the pool,
    the sentinel freelist is descriptor 0 and NULL is -1.  The ghost fields name what the
    pointers spell out: `ring` is the circular free list from its sentinel on, `chains` the
    hash chains, `chunks` what malloc has handed out, `returned` every address Mem_alloc has
    ever returned, in order, and `live` the allocated blocks.

    The C code misspells htab and ptr in three places (lines 88, 89 and 136). */
module CheckingAllocator {
  import opened Machine

  const NULL: int := -1

  const NALLOC: nat := 4096
  const NBUCKETS: nat := 2048

  datatype Descriptor = Descriptor(free: int, link: int, ptr: nat, size: nat)

  type Pool = seq<Descriptor>

  function Hash(p: nat): nat { (p / 8) % NBUCKETS }

  predicate Apart(p: nat, m: nat, q: nat, n: nat) { p + m <= q || q + n <= p }

  predicate AreApart(d: Descriptor, e: Descriptor) { Apart(d.ptr, d.size, e.ptr, e.size) }

  // ---------------------------------------------------------------- invariants

  function After(ring: seq<nat>, i: nat): nat { if i + 1 < |ring| then ring[i + 1] else 0 }

  /** The free fields run through the sentinel and the free blocks, each once, and back. */
  ghost predicate RingOk(pool: Pool, ring: seq<nat>)
  {
    && |ring| > 0 && ring[0] == 0 && |pool| > 0 && pool[0].size == 0
    && (forall i, j :: 0 <= i < j < |ring| ==> ring[i] != ring[j])
    && (forall i :: 0 <= i < |ring| ==> ring[i] < |pool|)
    && (forall i :: 0 <= i < |ring| ==> pool[ring[i]].free == After(ring, i))
  }

  ghost predicate ChainsOk(pool: Pool, htab: seq<int>, chains: seq<seq<nat>>)
  {
    && |htab| == |chains| == NBUCKETS
    && (forall h :: 0 <= h < |chains| ==> htab[h] == if chains[h] == [] then NULL else chains[h][0])
    && (forall h, i :: 0 <= h < |chains| && 0 <= i < |chains[h]| ==>
          && 0 < chains[h][i] < |pool| && Hash(pool[chains[h][i]].ptr) == h
          && pool[chains[h][i]].link == if i + 1 < |chains[h]| then chains[h][i + 1] else NULL)
  }

  /** Descriptor d is on its hash chain: its address has been returned. */
  ghost predicate Hashed(pool: Pool, chains: seq<seq<nat>>, d: nat)
  {
    d < |pool| && Hash(pool[d].ptr) < |chains| && d in chains[Hash(pool[d].ptr)]
  }

  /** Exactly the blocks on the free list have a free field; all others have been returned. */
  ghost predicate Members(pool: Pool, ring: seq<nat>, chains: seq<seq<nat>>)
  {
    forall d :: 0 < d < |pool| ==> (pool[d].free == NULL <==> d !in ring) && (d !in ring ==> Hashed(pool, chains, d))
  }

  ghost predicate Blocks(pool: Pool)
  {
    && (forall d ::
         0 < d < |pool| ==> pool[d].size > 0 && pool[d].ptr > 0 && pool[d].size % UNIT == 0 && pool[d].ptr % UNIT == 0)
    && (forall d, e :: 0 < d < |pool| && 0 < e < |pool| && d != e ==> AreApart(pool[d], pool[e]))
  }

  ghost predicate InChunk(chunks: seq<(nat, nat)>, x: nat)
  {
    exists i :: 0 <= i < |chunks| && chunks[i].0 <= x < chunks[i].0 + chunks[i].1
  }

  ghost predicate InBlock(pool: Pool, x: nat)
  {
    exists d :: 0 < d < |pool| && pool[d].ptr <= x < pool[d].ptr + pool[d].size
  }

  /** The blocks make up all the memory that came from malloc, and nothing else. */
  ghost predicate Partition(pool: Pool, chunks: seq<(nat, nat)>)
  {
    forall x: nat :: InChunk(chunks, x) <==> InBlock(pool, x)
  }

  /** The addresses ever returned are those of the hashed descriptors, and none occurs twice. */
  ghost predicate History(pool: Pool, chains: seq<seq<nat>>, returned: seq<nat>)
  {
    && (forall i, j :: 0 <= i < j < |returned| ==> returned[i] != returned[j])
    && (forall d :: 0 < d < |pool| && Hashed(pool, chains, d) ==> pool[d].ptr in returned)
    && (forall a :: a in returned ==> exists d :: 0 < d < |pool| && Hashed(pool, chains, d) && pool[d].ptr == a)
  }

  /** `live` maps the address of every allocated block to its size. */
  ghost predicate Alive(pool: Pool, live: map<nat, nat>)
  {
    && (forall d :: 0 < d < |pool| && pool[d].free == NULL ==> pool[d].ptr in live && live[pool[d].ptr] == pool[d].size)
    && (forall a :: a in live ==> exists d :: 0 < d < |pool| && pool[d].free == NULL && pool[d].ptr == a)
  }

  // ---------------------------------------------------------------- cutting a block in two

  /** The pool after bp has lost its last n bytes to a new descriptor with the given link. */
  function Carved(pool: Pool, bp: nat, n: nat, link: int): Pool
    requires bp < |pool| && n <= pool[bp].size
  {
    pool[bp := pool[bp].(size := pool[bp].size - n)] + [Descriptor(NULL, link, pool[bp].ptr + pool[bp].size - n, n)]
  }

  lemma CarveRing(pool: Pool, ring: seq<nat>, bp: nat, n: nat, link: int)
    requires RingOk(pool, ring) && 0 < bp < |pool| && n <= pool[bp].size
    ensures RingOk(Carved(pool, bp, n, link), ring)
  {
  }

  lemma CarveChains(pool: Pool, htab: seq<int>, chains: seq<seq<nat>>, bp: nat, n: nat)
    requires ChainsOk(pool, htab, chains) && 0 < bp < |pool| && n <= pool[bp].size
    ensures var h := Hash(pool[bp].ptr + pool[bp].size - n);
            ChainsOk(Carved(pool, bp, n, htab[h]), htab[h := |pool|], chains[h := [|pool|] + chains[h]])
  {
    var h := Hash(pool[bp].ptr + pool[bp].size - n);
    var pool', chains' := Carved(pool, bp, n, htab[h]), chains[h := [|pool|] + chains[h]];
    var htab' := htab[h := |pool|];
    assert h < NBUCKETS == |chains'| == |htab'|;
    assert forall i :: 0 < i < |chains'[h]| ==> chains'[h][i] == chains[h][i - 1];
    forall g | 0 <= g < |chains'| ensures htab'[g] == if chains'[g] == [] then NULL else chains'[g][0] {
      assert g != h ==> chains'[g] == chains[g] && htab'[g] == htab[g];
    }
    forall g, i | 0 <= g < |chains'| && 0 <= i < |chains'[g]|
      ensures 0 < chains'[g][i] < |pool'| && Hash(pool'[chains'[g][i]].ptr) == g
              && pool'[chains'[g][i]].link == if i + 1 < |chains'[g]| then chains'[g][i + 1] else NULL
    {
      if g == h && i == 0 {
        assert chains'[g][0] == |pool|;
      } else {
        var d := chains[g][if g == h then i - 1 else i];
        assert chains'[g][i] == d && 0 < d < |pool| && Hash(pool[d].ptr) == g;
      }
    }
    assert ChainsOk(pool', htab', chains');
  }

  /** A new descriptor at the head of its chain hides nobody. */
  lemma HashedMore(pool: Pool, pool': Pool, chains: seq<seq<nat>>, h: nat)
    requires |pool'| == |pool| + 1 && h == Hash(pool'[|pool|].ptr) && |chains| == NBUCKETS
    requires forall d :: 0 <= d < |pool| ==> pool'[d].ptr == pool[d].ptr
    ensures var chains' := chains[h := [|pool|] + chains[h]];
            Hashed(pool', chains', |pool|)
            && forall d :: 0 < d < |pool| ==> (Hashed(pool', chains', d) <==> Hashed(pool, chains, d))
  {
    var chains' := chains[h := [|pool|] + chains[h]];
    assert chains'[h][0] == |pool|;
  }

  lemma MembersMore(pool: Pool, pool': Pool, ring: seq<nat>, chains: seq<seq<nat>>, chains': seq<seq<nat>>)
    requires Members(pool, ring, chains) && |pool'| == |pool| + 1 && pool'[|pool|].free == NULL
    requires forall i :: 0 <= i < |ring| ==> ring[i] < |pool|
    requires forall d :: 0 <= d < |pool| ==> pool'[d].free == pool[d].free
    requires Hashed(pool', chains', |pool|)
        && forall d :: 0 < d < |pool| ==> (Hashed(pool', chains', d) <==> Hashed(pool, chains, d))
    ensures Members(pool', ring, chains')
  {
  }

  lemma CarveMembers(pool: Pool, ring: seq<nat>, chains: seq<seq<nat>>, bp: nat, n: nat, link: int)
    requires Members(pool, ring, chains) && RingOk(pool, ring) && |chains| == NBUCKETS && 0 < bp < |pool|
        && n <= pool[bp].size
    ensures var h := Hash(pool[bp].ptr + pool[bp].size - n);
            Members(Carved(pool, bp, n, link), ring, chains[h := [|pool|] + chains[h]])
  {
    var pool', h := Carved(pool, bp, n, link), Hash(pool[bp].ptr + pool[bp].size - n);
    var chains' := chains[h := [|pool|] + chains[h]];
    HashedMore(pool, pool', chains, h);
    forall d | 0 <= d < |pool| ensures pool'[d].free == pool[d].free {}
    MembersMore(pool, pool', ring, chains, chains');
  }

  lemma AlignedParts(a: nat, b: nat)
    requires a % UNIT == 0 && b % UNIT == 0
    ensures (a + b) % UNIT == 0 && (a >= b ==> (a - b) % UNIT == 0)
  {
  }

  lemma CarveBlocks(pool: Pool, bp: nat, n: nat, link: int)
    requires Blocks(pool) && 0 < bp < |pool| && 0 < n < pool[bp].size && n % UNIT == 0
    ensures Blocks(Carved(pool, bp, n, link))
  {
    var pool', d0 := Carved(pool, bp, n, link), pool[bp];
    AlignedParts(d0.size, n);
    AlignedParts(d0.ptr, d0.size - n);
    forall d, e | 0 < d < |pool'| && 0 < e < |pool'| && d != e ensures AreApart(pool'[d], pool'[e]) {
      var d0, e0 := if d == |pool| then bp else d, if e == |pool| then bp else e;
      if d0 != e0 { assert AreApart(pool[d0], pool[e0]); }
    }
  }

  lemma CarvePartition(pool: Pool, chunks: seq<(nat, nat)>, bp: nat, n: nat, link: int)
    requires Partition(pool, chunks) && 0 < bp < |pool| && n <= pool[bp].size
    ensures Partition(Carved(pool, bp, n, link), chunks)
  {
    var pool' := Carved(pool, bp, n, link);
    forall x: nat ensures InBlock(pool, x) <==> InBlock(pool', x) {
      if InBlock(pool, x) {
        var d :| 0 < d < |pool| && pool[d].ptr <= x < pool[d].ptr + pool[d].size;
        var e := if d == bp && x >= pool'[|pool|].ptr then |pool| else d;
        assert pool'[e].ptr <= x < pool'[e].ptr + pool'[e].size;
      }
      if InBlock(pool', x) {
        var e :| 0 < e < |pool'| && pool'[e].ptr <= x < pool'[e].ptr + pool'[e].size;
        var d := if e == |pool| then bp else e;
        assert pool[d].ptr <= x < pool[d].ptr + pool[d].size;
      }
    }
  }

  /** The new address lies strictly inside a block, so it is no block's own: it is new. */
  lemma CarveHistory(pool: Pool, chains: seq<seq<nat>>, returned: seq<nat>, bp: nat, n: nat, link: int)
    requires History(pool, chains, returned) && Blocks(pool) && |chains| == NBUCKETS
    requires 0 < bp < |pool| && 0 < n < pool[bp].size
    ensures var p := pool[bp].ptr + pool[bp].size - n;
            && p !in returned
            && History(Carved(pool, bp, n, link), chains[Hash(p) := [|pool|] + chains[Hash(p)]], returned + [p])
  {
    var p := pool[bp].ptr + pool[bp].size - n;
    var pool', chains' := Carved(pool, bp, n, link), chains[Hash(p) := [|pool|] + chains[Hash(p)]];
    forall d | 0 < d < |pool| ensures pool[d].ptr != p {
      if d != bp { assert AreApart(pool[d], pool[bp]); }
    }
    HashedMore(pool, pool', chains, Hash(p));
    forall a | a in returned + [p]
        ensures exists d :: 0 < d < |pool'| && Hashed(pool', chains', d) && pool'[d].ptr == a {
      if a in returned {
        var d :| 0 < d < |pool| && Hashed(pool, chains, d) && pool[d].ptr == a;
        assert Hashed(pool', chains', d) && pool'[d].ptr == a;
      } else {
        assert pool'[|pool|].ptr == a;
      }
    }
  }

  lemma CarveAlive(pool: Pool, live: map<nat, nat>, bp: nat, n: nat, link: int)
    requires Alive(pool, live) && Blocks(pool) && 0 < bp < |pool| && 0 < n < pool[bp].size && pool[bp].free != NULL
    ensures Alive(Carved(pool, bp, n, link), live[pool[bp].ptr + pool[bp].size - n := n])
  {
    var p := pool[bp].ptr + pool[bp].size - n;
    var pool', live' := Carved(pool, bp, n, link), live[p := n];
    forall d | 0 < d < |pool| ensures pool[d].ptr != p {
      if d != bp { assert AreApart(pool[d], pool[bp]); }
    }
    forall a | a in live' ensures exists d :: 0 < d < |pool'| && pool'[d].free == NULL && pool'[d].ptr == a {
      if a == p {
        assert pool'[|pool|].ptr == a;
      } else {
        var d :| 0 < d < |pool| && pool[d].free == NULL && pool[d].ptr == a;
        assert pool'[d].ptr == a && pool'[d].free == NULL;
      }
    }
  }

  // ---------------------------------------------------------------- a new block for the free list

  /** The pool after a block from malloc became the first of the free list. */
  function Refilled(pool: Pool, p: nat, m: nat): Pool
    requires |pool| > 0
  {
    pool[0 := pool[0].(free := |pool|)] + [Descriptor(pool[0].free, NULL, p, m)]
  }

  ghost predicate MallocGives(chunks: seq<(nat, nat)>, p: nat, m: nat)
  {
    p > 0 && p % UNIT == 0 && m > 0 && m % UNIT == 0
    && forall i :: 0 <= i < |chunks| ==> Apart(p, m, chunks[i].0, chunks[i].1)
  }

  /** Linking in d behind the sentinel. */
  lemma PutFirst(pool: Pool, pool': Pool, ring: seq<nat>, d: nat)
    requires RingOk(pool, ring) && d !in ring && |pool| <= |pool'| && d < |pool'|
    requires pool'[0] == pool[0].(free := d) && pool'[d].free == pool[0].free
    requires forall e :: 0 < e < |pool| && e != d ==> pool'[e] == pool[e]
    ensures RingOk(pool', [0, d] + ring[1..])
  {
    var ring' := [0, d] + ring[1..];
    forall i | 2 <= i < |ring'|
        ensures ring'[i] == ring[i - 1] && After(ring', i) == After(ring, i - 1) && ring'[i] != 0 && ring'[i] != d {
      assert ring[i - 1] != ring[0];
    }
    assert After(ring', 0) == d && After(ring', 1) == After(ring, 0);
    forall i | 0 <= i < |ring'| ensures pool'[ring'[i]].free == After(ring', i) {
      if i >= 2 { assert pool[ring[i - 1]].free == After(ring, i - 1); }
    }
  }

  /** Hash chains only look at addresses and links. */
  lemma ChainsKeep(pool: Pool, pool': Pool, htab: seq<int>, chains: seq<seq<nat>>)
    requires ChainsOk(pool, htab, chains) && |pool| <= |pool'|
    requires forall d :: 0 < d < |pool| ==> pool'[d].ptr == pool[d].ptr && pool'[d].link == pool[d].link
    ensures ChainsOk(pool', htab, chains)
    ensures forall d :: 0 < d < |pool| ==> Hashed(pool', chains, d) == Hashed(pool, chains, d)
  {
  }

  lemma MembersPut(pool: Pool, pool': Pool, ring: seq<nat>, chains: seq<seq<nat>>, d: nat)
    requires Members(pool, ring, chains) && RingOk(pool, ring) && 0 < d
    requires |pool'| == (if d == |pool| then |pool| + 1 else |pool|) && d <= |pool|
    requires pool'[d].free == pool[0].free && forall e :: 0 < e < |pool| && e != d ==> pool'[e] == pool[e]
    requires forall e :: 0 < e < |pool| ==> Hashed(pool', chains, e) == Hashed(pool, chains, e)
    ensures Members(pool', [0, d] + ring[1..], chains)
  {
    var ring' := [0, d] + ring[1..];
    assert ring'[1] == d;
    forall e | 0 < e < |pool| ensures e in ring' <==> e in ring || e == d {
      if e in ring { assert e in ring[1..]; }
    }
    assert pool[ring[0]].free == After(ring, 0);
  }

  lemma RefillLists(pool: Pool, htab: seq<int>, ring: seq<nat>, chains: seq<seq<nat>>, p: nat, m: nat)
    requires RingOk(pool, ring) && ChainsOk(pool, htab, chains) && Members(pool, ring, chains)
    ensures var pool', ring' := Refilled(pool, p, m), [0, |pool|] + ring[1..];
            RingOk(pool', ring') && ChainsOk(pool', htab, chains) && Members(pool', ring', chains)
  {
    var pool', ring' := Refilled(pool, p, m), [0, |pool|] + ring[1..];
    RefillRing(pool, ring, p, m);
    ChainsKeep(pool, pool', htab, chains);
    MembersPut(pool, pool', ring, chains, |pool|);
  }

  lemma RefillRing(pool: Pool, ring: seq<nat>, p: nat, m: nat)
    requires RingOk(pool, ring)
    ensures RingOk(Refilled(pool, p, m), [0, |pool|] + ring[1..])
  {
    PutFirst(pool, Refilled(pool, p, m), ring, |pool|);
  }

  lemma RefillBlocks(pool: Pool, chunks: seq<(nat, nat)>, p: nat, m: nat)
    requires Blocks(pool) && Partition(pool, chunks) && MallocGives(chunks, p, m) && |pool| > 0
    ensures Blocks(Refilled(pool, p, m)) && Partition(Refilled(pool, p, m), chunks + [(p, m)])
  {
    var pool', chunks' := Refilled(pool, p, m), chunks + [(p, m)];
    forall d | 0 < d < |pool| ensures Apart(pool[d].ptr, pool[d].size, p, m) {
      var x := if pool[d].ptr <= p then p else pool[d].ptr;
      assert InBlock(pool, x) ==> InChunk(chunks, x);
      assert pool[d].ptr <= x < pool[d].ptr + pool[d].size ==> InBlock(pool, x);
    }
    forall d, e | 0 < d < |pool'| && 0 < e < |pool'| && d != e ensures AreApart(pool'[d], pool'[e]) {
      if d < |pool| && e < |pool| { assert AreApart(pool[d], pool[e]); }
    }
    forall x: nat ensures InChunk(chunks', x) <==> InBlock(pool', x) {
      assert InChunk(chunks', x) <==> InChunk(chunks, x) || p <= x < p + m by {
        if p <= x < p + m { assert chunks'[|chunks|] == (p, m); }
        if InChunk(chunks, x) {
          var i :| 0 <= i < |chunks| && chunks[i].0 <= x < chunks[i].0 + chunks[i].1;
          assert chunks'[i] == chunks[i];
        }
      }
      assert InBlock(pool', x) <==> InBlock(pool, x) || p <= x < p + m by {
        if p <= x < p + m { assert pool'[|pool|].ptr == p; }
        if InBlock(pool, x) {
          var d :| 0 < d < |pool| && pool[d].ptr <= x < pool[d].ptr + pool[d].size;
          assert pool'[d] == pool[d];
        }
      }
    }
  }

  lemma RefillRest(pool: Pool, chains: seq<seq<nat>>, returned: seq<nat>, live: map<nat, nat>, p: nat, m: nat)
    requires History(pool, chains, returned) && Alive(pool, live) && |pool| > 0 && pool[0].free != NULL
    requires forall h, i :: 0 <= h < |chains| && 0 <= i < |chains[h]| ==> chains[h][i] < |pool|
    ensures History(Refilled(pool, p, m), chains, returned) && Alive(Refilled(pool, p, m), live)
  {
    var pool' := Refilled(pool, p, m);
    forall d | 0 < d < |pool| ensures pool'[d] == pool[d] && (Hashed(pool', chains, d) <==> Hashed(pool, chains, d)) {}
    forall a | a in returned ensures exists d :: 0 < d < |pool'| && Hashed(pool', chains, d) && pool'[d].ptr == a {
      var d :| 0 < d < |pool| && Hashed(pool, chains, d) && pool[d].ptr == a;
      assert pool'[d] == pool[d] && Hashed(pool', chains, d);
    }
    forall a | a in live ensures exists d :: 0 < d < |pool'| && pool'[d].free == NULL && pool'[d].ptr == a {
      var d :| 0 < d < |pool| && pool[d].free == NULL && pool[d].ptr == a;
      assert pool'[d] == pool[d];
    }
  }

  // ---------------------------------------------------------------- giving a block back

  /** The pool after the allocated block bp became the first of the free list. */
  function Freed(pool: Pool, bp: nat): Pool
    requires 0 < bp < |pool|
  {
    pool[bp := pool[bp].(free := pool[0].free)][0 := pool[0].(free := bp)]
  }

  lemma FreeLists(pool: Pool, htab: seq<int>, ring: seq<nat>, chains: seq<seq<nat>>, bp: nat)
    requires RingOk(pool, ring) && ChainsOk(pool, htab, chains) && Members(pool, ring, chains)
    requires 0 < bp < |pool| && pool[bp].free == NULL
    ensures var pool', ring' := Freed(pool, bp), [0, bp] + ring[1..];
            RingOk(pool', ring') && ChainsOk(pool', htab, chains) && Members(pool', ring', chains)
  {
    var pool', ring' := Freed(pool, bp), [0, bp] + ring[1..];
    FreeRing(pool, ring, bp);
    ChainsKeep(pool, pool', htab, chains);
    MembersPut(pool, pool', ring, chains, bp);
  }

  lemma FreeRing(pool: Pool, ring: seq<nat>, bp: nat)
    requires RingOk(pool, ring) && 0 < bp < |pool| && bp !in ring
    ensures RingOk(Freed(pool, bp), [0, bp] + ring[1..])
  {
    PutFirst(pool, Freed(pool, bp), ring, bp);
  }

  lemma FreeRest(pool: Pool, chunks: seq<(nat, nat)>, chains: seq<seq<nat>>, returned: seq<nat>, live: map<nat, nat>,
      bp: nat)
    requires Blocks(pool) && Partition(pool, chunks) && History(pool, chains, returned) && Alive(pool, live)
    requires 0 < bp < |pool| && pool[bp].free == NULL && pool[0].free != NULL
    ensures Blocks(Freed(pool, bp)) && Partition(Freed(pool, bp), chunks) && History(Freed(pool, bp), chains, returned)
    ensures Alive(Freed(pool, bp), live - {pool[bp].ptr})
  {
    var pool' := Freed(pool, bp);
    FreePartition(pool, chunks, bp);
    FreeHistory(pool, chains, returned, bp);
    FreeAlive(pool, live, bp);
    forall d, e | 0 < d < |pool| && 0 < e < |pool| && d != e ensures AreApart(pool'[d], pool'[e]) {
      assert AreApart(pool[d], pool[e]);
    }
  }

  lemma FreeAlive(pool: Pool, live: map<nat, nat>, bp: nat)
    requires Blocks(pool) && Alive(pool, live) && 0 < bp < |pool| && pool[bp].free == NULL && pool[0].free != NULL
    ensures Alive(Freed(pool, bp), live - {pool[bp].ptr})
  {
    var pool' := Freed(pool, bp);
    forall d | 0 < d < |pool| && d != bp ensures pool[d].ptr != pool[bp].ptr {
      assert AreApart(pool[d], pool[bp]);
    }
    forall a | a in live - {pool[bp].ptr}
        ensures exists d :: 0 < d < |pool'| && pool'[d].free == NULL && pool'[d].ptr == a {
      var d :| 0 < d < |pool| && pool[d].free == NULL && pool[d].ptr == a;
      assert pool'[d] == pool[d];
    }
  }

  lemma FreeHistory(pool: Pool, chains: seq<seq<nat>>, returned: seq<nat>, bp: nat)
    requires History(pool, chains, returned) && 0 < bp < |pool|
    ensures History(Freed(pool, bp), chains, returned)
  {
    var pool' := Freed(pool, bp);
    forall d | 0 < d < |pool|
        ensures pool'[d].ptr == pool[d].ptr && (Hashed(pool', chains, d) <==> Hashed(pool, chains, d)) {}
    forall a | a in returned ensures exists d :: 0 < d < |pool'| && Hashed(pool', chains, d) && pool'[d].ptr == a {
      var d :| 0 < d < |pool| && Hashed(pool, chains, d) && pool[d].ptr == a;
      assert Hashed(pool', chains, d) && pool'[d].ptr == a;
    }
  }

  lemma FreePartition(pool: Pool, chunks: seq<(nat, nat)>, bp: nat)
    requires Partition(pool, chunks) && 0 < bp < |pool|
    ensures Partition(Freed(pool, bp), chunks)
  {
    var pool' := Freed(pool, bp);
    forall x: nat ensures InBlock(pool, x) <==> InBlock(pool', x) {
      if InBlock(pool, x) {
        var d :| 0 < d < |pool| && pool[d].ptr <= x < pool[d].ptr + pool[d].size;
        assert pool'[d].ptr <= x < pool'[d].ptr + pool'[d].size;
      }
      if InBlock(pool', x) {
        var d :| 0 < d < |pool'| && pool'[d].ptr <= x < pool'[d].ptr + pool'[d].size;
        assert pool[d].ptr <= x < pool[d].ptr + pool[d].size;
      }
    }
  }

  // ---------------------------------------------------------------- looking addresses up

  lemma ChainAt(pool: Pool, htab: seq<int>, chains: seq<seq<nat>>, h: nat, i: nat)
    requires ChainsOk(pool, htab, chains) && h < NBUCKETS
    ensures |htab| == |chains| == NBUCKETS && htab[h] == if chains[h] == [] then NULL else chains[h][0]
    ensures i < |chains[h]| ==>
        0 < chains[h][i] < |pool| && pool[chains[h][i]].link == if i + 1 < |chains[h]| then chains[h][i + 1] else NULL
    ensures forall k :: 0 <= k < |chains[h]| ==> chains[h][k] < |pool|
  {
  }

  /** A chain search ends at the descriptor of ptr exactly when ptr has been returned. */
  lemma FoundIsReturned(pool: Pool, htab: seq<int>, chains: seq<seq<nat>>, returned: seq<nat>, ptr: nat, bp: int,
      i: nat)
    requires ChainsOk(pool, htab, chains) && History(pool, chains, returned)
    requires var c := chains[Hash(ptr)];
            i <= |c| && bp == (if i < |c| then c[i] else NULL) && (forall k :: 0 <= k < i ==> pool[c[k]].ptr != ptr)
    requires bp == NULL || pool[bp].ptr == ptr
    ensures bp == NULL <==> ptr !in returned
  {
    var c := chains[Hash(ptr)];
    if bp != NULL {
      assert Hashed(pool, chains, bp);
    } else {
      forall d | 0 < d < |pool| && pool[d].ptr == ptr ensures !Hashed(pool, chains, d) {}
    }
  }

  /** The three tests of Mem_free and Mem_resize find out exactly whether ptr is allocated. */
  lemma LookupIsLive(pool: Pool, ring: seq<nat>, chains: seq<seq<nat>>, returned: seq<nat>, live: map<nat, nat>,
      ptr: nat, bp: int)
    requires Members(pool, ring, chains) && RingOk(pool, ring) && Blocks(pool) && History(pool, chains, returned)
        && Alive(pool, live)
    requires bp == NULL || (0 < bp < |pool| && pool[bp].ptr == ptr)
    requires bp == NULL <==> ptr !in returned
    ensures ptr in live <==> ptr % UNIT == 0 && bp != NULL && pool[bp].free == NULL
    ensures ptr in live ==> bp != NULL && live[ptr] == pool[bp].size
  {
    LiveIsReturned(pool, ring, chains, returned, live);
    if ptr in live {
      var d :| 0 < d < |pool| && pool[d].free == NULL && pool[d].ptr == ptr;
      if d != bp { assert AreApart(pool[d], pool[bp]); }
    }
  }

  lemma LiveIsReturned(pool: Pool, ring: seq<nat>, chains: seq<seq<nat>>, returned: seq<nat>, live: map<nat, nat>)
    requires Members(pool, ring, chains) && History(pool, chains, returned) && Alive(pool, live)
    ensures forall a :: a in live ==> a in returned
  {
  }

  /** Allocated blocks are apart, aligned, and inside memory that came from malloc. */
  lemma LiveApart(pool: Pool, live: map<nat, nat>)
    requires Blocks(pool) && Alive(pool, live)
    ensures forall a :: a in live ==> a > 0 && a % UNIT == 0 && live[a] > 0
    ensures forall a, b :: a in live && b in live && a != b ==> Apart(a, live[a], b, live[b])
  {
    forall a, b | a in live && b in live && a != b ensures Apart(a, live[a], b, live[b]) {
      var d :| 0 < d < |pool| && pool[d].free == NULL && pool[d].ptr == a;
      var e :| 0 < e < |pool| && pool[e].free == NULL && pool[e].ptr == b;
      assert AreApart(pool[d], pool[e]);
    }
  }

  lemma Sizes(pool: Pool, htab: seq<int>, ring: seq<nat>, chains: seq<seq<nat>>)
    requires RingOk(pool, ring) && ChainsOk(pool, htab, chains)
    ensures |ring| > 0 && |pool| > 0 && |htab| == |chains| == NBUCKETS && pool[0].free != NULL
  {
    assert pool[ring[0]].free == After(ring, 0);
  }

  lemma ChainIndices(pool: Pool, htab: seq<int>, chains: seq<seq<nat>>)
    requires ChainsOk(pool, htab, chains)
    ensures forall h, i :: 0 <= h < |chains| && 0 <= i < |chains[h]| ==> chains[h][i] < |pool|
  {
  }

  /** Every byte of an allocated block is memory that came from malloc. */
  lemma LiveInChunks(pool: Pool, chunks: seq<(nat, nat)>, live: map<nat, nat>, a: nat, x: nat)
    requires Partition(pool, chunks) && Alive(pool, live) && a in live && a <= x < a + live[a]
    ensures InChunk(chunks, x)
  {
    assert InBlock(pool, x);
  }

  /** memcpy */
  function Copy(mem: nat -> byte, to: nat, from: nat, n: nat): nat -> byte
  {
    (a: nat) => if to <= a < to + n then mem(a - to + from) else mem(a)
  }

  /** The n bytes from a on. */
  function Bytes(mem: nat -> byte, a: nat, n: nat): seq<byte>
  {
    seq(n, i requires 0 <= i < n => mem(a + i))
  }

  lemma CopyCopies(mem: nat -> byte, to: nat, from: nat, n: nat)
    ensures Bytes(Copy(mem, to, from, n), to, n) == Bytes(mem, from, n)
  {
  }

  lemma CopyLeaves(mem: nat -> byte, to: nat, from: nat, n: nat, a: nat, m: nat)
    requires Apart(a, m, to, n)
    ensures Bytes(Copy(mem, to, from, n), a, m) == Bytes(mem, a, m)
  {
  }

  /** Copying into one allocated block leaves the contents of the others alone. */
  lemma CopyLeavesOthers(mem: nat -> byte, live: map<nat, nat>, to: nat, from: nat, n: nat)
    requires to in live && n <= live[to]
    requires forall a, b :: a in live && b in live && a != b ==> Apart(a, live[a], b, live[b])
    ensures forall a :: a in live && a != to ==> Bytes(Copy(mem, to, from, n), a, live[a]) == Bytes(mem, a, live[a])
  {
    forall a | a in live && a != to ensures Bytes(Copy(mem, to, from, n), a, live[a]) == Bytes(mem, a, live[a]) {
      assert Apart(a, live[a], to, live[to]);
      CopyLeaves(mem, to, from, n, a, live[a]);
    }
  }

  // ---------------------------------------------------------------- the allocator

  /** None of the free blocks before place k of the ring is larger than n. */
  ghost predicate NoFit(pool: Pool, ring: seq<nat>, n: nat, k: nat)
  {
    k <= |ring| && forall j :: 1 <= j < k ==> ring[j] < |pool| && pool[ring[j]].size <= n
  }

  /** Where the block at place k of the ring ends. */
  function EndOf(pool: Pool, ring: seq<nat>, k: nat): nat
  {
    if k < |ring| && ring[k] < |pool| then pool[ring[k]].ptr + pool[ring[k]].size else 0
  }

  /** The free block at place k of the ring is the first that is larger than n. */
  ghost predicate FirstFit(pool: Pool, ring: seq<nat>, n: nat, k: nat)
  {
    1 <= k < |ring| && ring[k] < |pool| && pool[ring[k]].size > n && NoFit(pool, ring, n, k)
  }

  function BlockOf(pool: Pool, d: nat): (nat, nat) { if d < |pool| then (pool[d].ptr, pool[d].size) else (0, 0) }

  function BlocksOf(pool: Pool, ds: seq<nat>): (r: seq<(nat, nat)>)
    ensures |r| == |ds|
  {
    if ds == [] then [] else [BlockOf(pool, ds[0])] + BlocksOf(pool, ds[1..])
  }

  /** The free blocks, address and size, in the order of the free list. */
  function Spare(pool: Pool, ring: seq<nat>): seq<(nat, nat)> { if ring == [] then [] else BlocksOf(pool, ring[1..]) }

  /** Block i without its last n bytes. */
  function Shrunk(blocks: seq<(nat, nat)>, i: int, n: nat): seq<(nat, nat)>
  {
    if 0 <= i < |blocks| && n <= blocks[i].1 then blocks[i := (blocks[i].0, blocks[i].1 - n)] else blocks
  }

  lemma {:induction false} SameBlocks(pool: Pool, pool': Pool, ds: seq<nat>)
    requires forall i :: 0 <= i < |ds| ==> BlockOf(pool', ds[i]) == BlockOf(pool, ds[i])
    ensures BlocksOf(pool', ds) == BlocksOf(pool, ds)
  {
    if ds != [] {
      SameBlocks(pool, pool', ds[1..]);
    }
  }

  lemma {:induction false} OneShrunk(pool: Pool, ds: seq<nat>, k: nat, n: nat, pool': Pool)
    requires k < |ds| && BlockOf(pool, ds[k]).1 >= n
    requires forall i :: 0 <= i < |ds| && i != k ==> BlockOf(pool', ds[i]) == BlockOf(pool, ds[i])
    requires BlockOf(pool', ds[k]) == (BlockOf(pool, ds[k]).0, BlockOf(pool, ds[k]).1 - n)
    ensures BlocksOf(pool', ds) == Shrunk(BlocksOf(pool, ds), k, n)
  {
    hide BlockOf;
    if k == 0 {
      SameBlocks(pool, pool', ds[1..]);
    } else {
      OneShrunk(pool, ds[1..], k - 1, n, pool');
    }
  }

  /** Only the block at place k gets smaller. */
  lemma CarveSpare(pool: Pool, ring: seq<nat>, k: nat, n: nat, link: int)
    requires 1 <= k < |ring| && ring[k] < |pool| && n <= pool[ring[k]].size && RingOk(pool, ring)
    ensures Spare(Carved(pool, ring[k], n, link), ring) == Shrunk(Spare(pool, ring), k - 1, n)
  {
    hide RingOk;
    var ds, pool' := ring[1..], Carved(pool, ring[k], n, link);
    forall i | 0 <= i < |ds| && i != k - 1 ensures BlockOf(pool', ds[i]) == BlockOf(pool, ds[i]) {
      RingOnce(pool, ring, i + 1, k);
    }
    OneShrunk(pool, ds, k - 1, n, pool');
  }

  lemma RingOnce(pool: Pool, ring: seq<nat>, i: nat, k: nat)
    requires RingOk(pool, ring) && i < |ring| && k < |ring|
    ensures ring[i] < |pool| && (i != k ==> ring[i] != ring[k])
  {
  }

  lemma RefillSpare(pool: Pool, ring: seq<nat>, p: nat, m: nat)
    requires RingOk(pool, ring)
    ensures Spare(Refilled(pool, p, m), [0, |pool|] + ring[1..]) == [(p, m)] + Spare(pool, ring)
  {
    SpareBehind(pool, Refilled(pool, p, m), ring, |pool|);
  }

  lemma FreeSpare(pool: Pool, ring: seq<nat>, bp: nat)
    requires RingOk(pool, ring) && 0 < bp < |pool|
    ensures Spare(Freed(pool, bp), [0, bp] + ring[1..]) == [(pool[bp].ptr, pool[bp].size)] + Spare(pool, ring)
  {
    SpareBehind(pool, Freed(pool, bp), ring, bp);
  }

  /** A block in front of all others, none of which changes. */
  lemma SpareBehind(pool: Pool, pool': Pool, ring: seq<nat>, d: nat)
    requires ring != [] && RingOk(pool, ring) && forall i :: 0 <= i < |pool| ==> BlockOf(pool', i) == BlockOf(pool, i)
    ensures Spare(pool', [0, d] + ring[1..]) == [BlockOf(pool', d)] + Spare(pool, ring)
  {
    hide RingOk, BlockOf;
    RingOnce(pool, ring, 0, 0);
    var ds := ring[1..];
    forall i | 0 <= i < |ds| ensures BlockOf(pool', ds[i]) == BlockOf(pool, ds[i]) { RingOnce(pool, ring, i + 1, 0); }
    SameBlocks(pool, pool', ds);
    assert ([0, d] + ds)[1..] == [d] + ds && ([d] + ds)[1..] == ds;
  }

  lemma RingAt(pool: Pool, ring: seq<nat>, k: nat)
    requires RingOk(pool, ring) && k < |ring|
    ensures |pool| > 0 && pool[0].size == 0 && ring[k] < |pool| && pool[ring[k]].free == After(ring, k)
        && ring[0] == 0 && (k > 0 ==> ring[k] != 0)
  {
    assert k > 0 ==> ring[0] != ring[k];
  }

  lemma NoFitStart(pool: Pool, ring: seq<nat>, n: nat)
    requires RingOk(pool, ring)
    ensures NoFit(pool, ring, n, 1)
  {
  }

  lemma NoFitMore(pool: Pool, ring: seq<nat>, n: nat, k: nat)
    requires NoFit(pool, ring, n, k) && k < |ring| && ring[k] < |pool| && pool[ring[k]].size <= n
    ensures NoFit(pool, ring, n, k + 1)
  {
  }

  lemma FitIsFirst(pool: Pool, ring: seq<nat>, n: nat, k: nat)
    requires NoFit(pool, ring, n, k) && 1 <= k < |ring| && ring[k] < |pool| && pool[ring[k]].size > n
    ensures forall j: nat :: FirstFit(pool, ring, n, j) ==> j == k
    ensures !NoFit(pool, ring, n, |ring|) && EndOf(pool, ring, k) == pool[ring[k]].ptr + pool[ring[k]].size
  {
  }

  lemma NoFirst(pool: Pool, ring: seq<nat>, n: nat)
    requires NoFit(pool, ring, n, |ring|)
    ensures forall j: nat :: !FirstFit(pool, ring, n, j)
  {
  }

  datatype Outcome = Returned(ptr: nat) | AssertFailed

  class Heap {
    const htab: array<int>
    var pool: Pool
    var mem: nat -> byte
    ghost var ring: seq<nat>
    ghost var chains: seq<seq<nat>>
    ghost var chunks: seq<(nat, nat)>
    ghost var returned: seq<nat>
    ghost var live: map<nat, nat>

    ghost predicate Valid()
      reads this, htab
    {
      && RingOk(pool, ring) && ChainsOk(pool, htab[..], chains) && Members(pool, ring, chains)
      && Blocks(pool) && Partition(pool, chunks) && History(pool, chains, returned) && Alive(pool, live)
    }

    constructor ()
      ensures Valid() && fresh(htab)
      ensures live == map[] && returned == [] && chunks == []
    {
      htab := new int[NBUCKETS](_ => NULL);
      pool, mem := [Descriptor(0, NULL, 0, 0)], _ => 0;
      ring, chains, chunks, returned, live := [0], seq(NBUCKETS, _ => []), [], [], map[];
    }

    /** Lines 40-47: the descriptor on ptr's hash chain that is for ptr, or NULL. */
    method Find(ptr: nat) returns (bp: int)
      requires Valid()
      ensures bp == NULL || (0 < bp < |pool| && pool[bp].ptr == ptr)
      ensures bp == NULL <==> ptr !in returned
    {
      hide RingOk, ChainsOk, Members, Blocks, Partition, History, Alive;
      var h := Hash(ptr);
      ChainAt(pool, htab[..], chains, h, 0);
      bp := htab[h];
      ghost var i := 0;
      while bp != NULL && pool[bp].ptr != ptr
        invariant 0 <= i <= |chains[h]| && bp == (if i < |chains[h]| then chains[h][i] else NULL)
        invariant bp == NULL || 0 < bp < |pool|
        invariant forall k :: 0 <= k < i ==> pool[chains[h][k]].ptr != ptr
        decreases |chains[h]| - i
      {
        ChainAt(pool, htab[..], chains, h, i);
        ChainAt(pool, htab[..], chains, h, i + 1);
        bp := pool[bp].link;
        i := i + 1;
      }
      FoundIsReturned(pool, htab[..], chains, returned, ptr, bp, i);
    }

    /** Lines 83-90: cuts n bytes off the end of the free block bp. */
    method Carve(bp: nat, n: nat) returns (p: nat)
      requires Valid() && 0 < bp < |pool| && pool[bp].free != NULL && pool[bp].size > n > 0 && n % UNIT == 0
      modifies this`pool, this`chains, this`returned, this`live, htab
      ensures Valid()
      ensures p == old(pool[bp].ptr + pool[bp].size) - n
      ensures pool == Carved(old(pool), bp, n, old(htab[Hash(pool[bp].ptr + pool[bp].size - n)]))
      ensures p !in old(returned) && returned == old(returned) + [p] && live == old(live)[p := n] && p !in old(live)
    {
      hide RingOk, ChainsOk, Members, Blocks, Partition, History, Alive;
      p := pool[bp].ptr + pool[bp].size - n;
      var h := Hash(p);
      Sizes(pool, htab[..], ring, chains);
      CarveRing(pool, ring, bp, n, htab[h]);
      CarveChains(pool, htab[..], chains, bp, n);
      CarveMembers(pool, ring, chains, bp, n, htab[h]);
      CarveBlocks(pool, bp, n, htab[h]);
      CarvePartition(pool, chunks, bp, n, htab[h]);
      CarveHistory(pool, chains, returned, bp, n, htab[h]);
      CarveAlive(pool, live, bp, n, htab[h]);
      LiveIsReturned(pool, ring, chains, returned, live);
      pool := Carved(pool, bp, n, htab[h]);
      chains := chains[h := [|pool| - 1] + chains[h]];
      htab[h] := |pool| - 1;
      returned, live := returned + [p], live[p := n];
    }

    /** Lines 103-111: a new block from malloc becomes the first of the free list. */
    method Refill(block: nat, m: nat)
      requires Valid() && MallocGives(chunks, block, m)
      modifies this`pool, this`ring, this`chunks
      ensures Valid() && |ring| == |old(ring)| + 1 && ring[1] < |pool| && pool[ring[1]].ptr == block
          && pool[ring[1]].size == m
      ensures chunks == old(chunks) + [(block, m)]
      ensures ring == [0, |old(pool)|] + old(ring)[1..] && |old(pool)| > 0 && pool == Refilled(old(pool), block, m)
    {
      hide RingOk, ChainsOk, Members, Blocks, Partition, History, Alive;
      Sizes(pool, htab[..], ring, chains);
      ChainIndices(pool, htab[..], chains);
      RefillLists(pool, htab[..], ring, chains, block, m);
      RefillBlocks(pool, chunks, block, m);
      RefillRest(pool, chains, returned, live, block, m);
      ring, chunks := [0, |pool|] + ring[1..], chunks + [(block, m)];
      pool := Refilled(pool, block, m);
    }

    /** Mem_alloc; block is what malloc returns if the free list has to be refilled.  The last n
        bytes of the first free block that is larger than n are taken; when there is none, those of
        a new block. */
    method Alloc(nbytes: nat, block: nat) returns (p: nat)
      requires Valid() && nbytes > 0 && MallocGives(chunks, block, RoundUp(nbytes) + NALLOC)
      modifies this`pool, this`ring, this`chains, this`chunks, this`returned, this`live, htab
      ensures Valid()
      ensures p !in old(returned) && returned == old(returned) + [p]
      ensures p !in old(live) && live == old(live)[p := RoundUp(nbytes)]
      ensures forall k: nat :: FirstFit(old(pool), old(ring), RoundUp(nbytes), k) ==>
                          && chunks == old(chunks) && p + RoundUp(nbytes) == EndOf(old(pool), old(ring), k)
                          && Spare(pool, ring)
                             == Shrunk(old(Spare(pool, ring)), k - 1, RoundUp(nbytes))
      ensures NoFit(old(pool), old(ring), RoundUp(nbytes), |old(ring)|) ==>
                && chunks == old(chunks) + [(block, RoundUp(nbytes) + NALLOC)] && p == block + NALLOC
                && Spare(pool, ring) == [(block, NALLOC)] + old(Spare(pool, ring))
    {
      hide RingOk, ChainsOk, Members, Blocks, Partition, History, Alive, NoFit, FirstFit, EndOf, Spare;
      var n := RoundUp(nbytes);
      Sizes(pool, htab[..], ring, chains);
      RingAt(pool, ring, 0);
      NoFitStart(pool, ring, n);
      var bp := pool[0].free;
      ghost var i, refilled := 1, false;
      while true
        invariant Valid() && 1 <= i <= |ring| && bp == (if i < |ring| then ring[i] else 0)
        invariant returned == old(returned) && live == old(live)
        invariant refilled ==> Spare(pool, ring) == [(block, n + NALLOC)] + old(Spare(pool, ring))
        invariant if refilled then NoFit(old(pool), old(ring), n, |old(ring)|)
                  else pool == old(pool) && ring == old(ring) && NoFit(pool, ring, n, i)
        invariant chunks == if refilled then old(chunks) + [(block, n + NALLOC)] else old(chunks)
        // having passed the sentinel the loop is at the new block, which is large enough
        invariant refilled ==>
            1 < |ring| && i == 1 && bp < |pool| && pool[bp].ptr == block && pool[bp].size == n + NALLOC
        decreases !refilled, |ring| - i
      {
        RingAt(pool, ring, if i < |ring| then i else 0);
        if pool[bp].size > n {
          if refilled { NoFirst(old(pool), old(ring), n); } else { FitIsFirst(pool, ring, n, i); }
          ghost var before := pool;
          p := Carve(bp, n);
          CarveSpare(before, ring, i, n, pool[|before|].link);
          return;
        }
        if bp == 0 {
          RefillSpare(pool, ring, block, n + NALLOC);
          Refill(block, n + NALLOC);
          i, refilled := 0, true;
          RingAt(pool, ring, 0);
          RingAt(pool, ring, 1);
        } else {
          NoFitMore(pool, ring, n, i);
        }
        bp := pool[bp].free;
        i := i + 1;
      }
    }

    /** Mem_free. */
    method Free(ptr: nat) returns (r: Outcome)
      requires Valid()
      modifies this`pool, this`ring, this`live
      ensures Valid()
      ensures r == AssertFailed <==> ptr != 0 && ptr !in old(live)
      ensures live == (if ptr in old(live) then old(live) - {ptr} else old(live))
      ensures ptr !in old(live) ==> pool == old(pool) && ring == old(ring)
      ensures ptr in old(live) ==> Spare(pool, ring) == [(ptr, old(live)[ptr])] + old(Spare(pool, ring))
    {
      hide RingOk, ChainsOk, Members, Blocks, Partition, History, Alive;
      r := Returned(0);
      LiveApart(pool, live);
      if ptr != 0 {
        var bp := Find(ptr);
        LookupIsLive(pool, ring, chains, returned, live, ptr, bp);
        if ptr % UNIT != 0 || bp == NULL || pool[bp].free != NULL {
          return AssertFailed;
        }
        Sizes(pool, htab[..], ring, chains);
        FreeLists(pool, htab[..], ring, chains, bp);
        FreeSpare(pool, ring, bp);
        FreeRest(pool, chunks, chains, returned, live, bp);
        ring, live := [0, bp] + ring[1..], live - {ptr};
        pool := Freed(pool, bp);
      }
    }

    /** Mem_resize. */
    method Resize(ptr: nat, nbytes: nat, block: nat) returns (r: Outcome)
      requires Valid() && ptr != 0 && nbytes > 0 && MallocGives(chunks, block, RoundUp(nbytes) + NALLOC)
      modifies this, htab
      ensures Valid()
      ensures r == AssertFailed <==> ptr !in old(live)
      ensures r == AssertFailed ==> live == old(live) && returned == old(returned) && mem == old(mem)
      ensures r == AssertFailed ==> pool == old(pool) && ring == old(ring) && chunks == old(chunks)
      ensures r != AssertFailed ==>
                && r.ptr !in old(returned) && returned == old(returned) + [r.ptr]
                && live == old(live)[r.ptr := RoundUp(nbytes)] - {ptr}
                && Bytes(mem, r.ptr, Min(nbytes, old(live)[ptr])) == old(Bytes(mem, ptr, Min(nbytes, live[ptr])))
                && forall a :: a in live && a != r.ptr ==> Bytes(mem, a, live[a]) == old(Bytes(mem, a, live[a]))
      ensures forall k: nat :: r != AssertFailed && FirstFit(old(pool), old(ring), RoundUp(nbytes), k) ==>
                          && chunks == old(chunks) && r.ptr + RoundUp(nbytes) == EndOf(old(pool), old(ring), k)
                          && Spare(pool, ring)
                             == [(ptr, old(live)[ptr])] + Shrunk(old(Spare(pool, ring)), k - 1, RoundUp(nbytes))
      ensures r != AssertFailed && NoFit(old(pool), old(ring), RoundUp(nbytes), |old(ring)|) ==>
                && chunks == old(chunks) + [(block, RoundUp(nbytes) + NALLOC)] && r.ptr == block + NALLOC
                && Spare(pool, ring) == [(ptr, old(live)[ptr]), (block, NALLOC)] + old(Spare(pool, ring))
    {
      hide RingOk, ChainsOk, Members, Blocks, Partition, History, Alive, Spare, Shrunk, FirstFit, NoFit, EndOf;
      var bp := Find(ptr);
      LookupIsLive(pool, ring, chains, returned, live, ptr, bp);
      if ptr % UNIT != 0 || bp == NULL || pool[bp].free != NULL {
        return AssertFailed;
      }
      var size := pool[bp].size;
      var p := Alloc(nbytes, block);
      LiveApart(pool, live);
      CopyCopies(mem, p, ptr, Min(nbytes, size));
      CopyLeavesOthers(mem, live, p, ptr, Min(nbytes, size));
      mem := Copy(mem, p, ptr, Min(nbytes, size));
      r := Free(ptr);
      r := Returned(p);
    }
  }
}
