/** arena.c: arenas that carve allocations out of chunks, and a bounded list of free chunks.

    A chunk begins with a header of the same type as an arena.  Both are records in one table
    here and a pointer to one is its index, NULL being -1.  The header of a chunk on an arena's
    chain keeps what the arena said before the chunk was pushed, so the limits of a chunk are
    those in its *holder*: the arena for the newest chunk, the next newer chunk for the others.

    `ext` gives the address behind each index, and where the block there ends.  Ghost state:
    `chains` has the chunks of each arena, oldest first, `free` is the free list, `chunks` the
    chunks there are, and `allocs` the allocations not yet freed. */
module ArenaAllocator {
  import opened Machine

  const NULL: int := -1
  const THRESHOLD: nat := 10

  /** sizeof(union header) */
  const HEADER: nat := 32

  datatype Rec = Rec(prev: int, avail: nat, limit: nat)
  datatype Extent = Extent(at: nat, end: nat)
  datatype Alloc = Alloc(arena: nat, index: nat, ptr: nat, size: nat)

  type Chains = map<nat, seq<nat>>

  predicate Apart(p: nat, pe: nat, q: nat, qe: nat) { pe <= q || qe <= p }

  // ---------------------------------------------------------------- invariants

  /** The record whose avail and limit are those of chunk i of arena a. */
  function Holder(a: nat, chain: seq<nat>, i: nat): nat
    requires i < |chain|
  {
    if i + 1 < |chain| then chain[i + 1] else a
  }

  ghost predicate LinkOk(recs: seq<Rec>, ext: seq<Extent>, a: nat, chain: seq<nat>, i: nat)
    requires i < |chain|
  {
    var h, c := Holder(a, chain, i), chain[i];
    && h < |recs| && c < |recs| == |ext|
    && recs[h].prev == c && recs[h].limit == ext[c].end
    && ext[c].at + HEADER <= recs[h].avail <= ext[c].end && recs[h].avail % UNIT == 0
  }

  ghost predicate ChainOk(recs: seq<Rec>, ext: seq<Extent>, a: nat, chain: seq<nat>)
  {
    && a < |recs| == |ext|
    && (forall i :: 0 <= i < |chain| ==> LinkOk(recs, ext, a, chain, i))
    && (if chain == [] then recs[a] == Rec(NULL, 0, 0) else chain[0] < |recs| && recs[chain[0]] == Rec(NULL, 0, 0))
  }

  function AtMost(n: int, m: int): int { if n < m then n else m }

  function First(s: seq<nat>): int { if s == [] then NULL else s[0] }

  ghost predicate FreeOk(recs: seq<Rec>, ext: seq<Extent>, freechunks: int, nfree: int, free: seq<nat>)
  {
    && |recs| == |ext| && freechunks == First(free) && nfree == |free| <= THRESHOLD
    && (forall i ::
         0 <= i < |free| ==>
         free[i] < |recs| && recs[free[i]].prev == First(free[i + 1..]) && recs[free[i]].limit == ext[free[i]].end)
  }

  /** Every chunk is in exactly one place on exactly one chain, or on the free list. */
  ghost predicate Places(n: nat, chains: Chains, free: seq<nat>, chunks: set<nat>)
  {
    && (forall a :: a in chains ==> a < n && a !in chunks)
    && (forall c ::
         c in chunks ==>
         c < n && (c in free || exists a, i :: a in chains && 0 <= i < |chains[a]| && chains[a][i] == c))
    && (forall a, i :: a in chains && 0 <= i < |chains[a]| ==> chains[a][i] in chunks && chains[a][i] !in free)
    && (forall i :: 0 <= i < |free| ==> free[i] in chunks)
    && (forall i, j :: 0 <= i < j < |free| ==> free[i] != free[j])
    && (forall a, i, b, j ::
         a in chains && 0 <= i < |chains[a]| && b in chains && 0 <= j < |chains[b]| && chains[a][i] == chains[b][j]
         ==> a == b && i == j)
  }

  ghost predicate Extents(ext: seq<Extent>, chunks: set<nat>)
  {
    && (forall c ::
         c in chunks ==> c < |ext| && ext[c].at > 0 && ext[c].at % UNIT == 0 && ext[c].at + HEADER <= ext[c].end)
    && (forall c, d :: c in chunks && d in chunks && c != d ==> Apart(ext[c].at, ext[c].end, ext[d].at, ext[d].end))
  }

  /** An allocation lies between the header and the avail pointer of its chunk. */
  ghost predicate AllocOk(recs: seq<Rec>, ext: seq<Extent>, chains: Chains, al: Alloc)
  {
    && al.arena in chains && al.index < |chains[al.arena]|
    && var c, h := chains[al.arena][al.index], Holder(al.arena, chains[al.arena], al.index);
       && c < |ext| && h < |recs|
       && ext[c].at + HEADER <= al.ptr && al.ptr + al.size <= recs[h].avail
       && al.ptr % UNIT == 0 && al.size > 0
  }

  ghost predicate AllocsOk(recs: seq<Rec>, ext: seq<Extent>, chains: Chains, allocs: set<Alloc>)
  {
    && (forall al :: al in allocs ==> AllocOk(recs, ext, chains, al))
    && (forall al, bl ::
         al in allocs && bl in allocs && al != bl ==> Apart(al.ptr, al.ptr + al.size, bl.ptr, bl.ptr + bl.size))
  }

  ghost predicate ChainsOk(recs: seq<Rec>, ext: seq<Extent>, chains: Chains)
  {
    forall a :: a in chains ==> ChainOk(recs, ext, a, chains[a])
  }

  // ---------------------------------------------------------------- pushing a chunk

  /** *ptr = *arena, then the arena describes the chunk at ptr. */
  function Pushed(recs: seq<Rec>, ext: seq<Extent>, a: nat, c: nat): seq<Rec>
    requires a < |recs| == |ext| && c < |recs|
  {
    recs[c := recs[a]][a := Rec(c, ext[c].at + HEADER, ext[c].end)]
  }

  /** Links whose holder and chunk are unchanged. */
  lemma ChainKeeps(recs: seq<Rec>, recs': seq<Rec>, ext: seq<Extent>, a: nat, chain: seq<nat>)
    requires ChainOk(recs, ext, a, chain) && |recs'| == |recs| && recs'[a] == recs[a]
    requires forall i :: 0 <= i < |chain| ==> chain[i] < |recs| && recs'[chain[i]] == recs[chain[i]]
    ensures ChainOk(recs', ext, a, chain)
  {
    forall i | 0 <= i < |chain| ensures LinkOk(recs', ext, a, chain, i) {
      assert LinkOk(recs, ext, a, chain, i);
    }
  }

  lemma PushOwn(recs: seq<Rec>, ext: seq<Extent>, chain: seq<nat>, a: nat, c: nat)
    requires ChainOk(recs, ext, a, chain) && c < |recs| && c != a
    requires forall i :: 0 <= i < |chain| ==> chain[i] != c && chain[i] != a
    requires ext[c].at % UNIT == 0 && ext[c].at + HEADER <= ext[c].end
    ensures ChainOk(Pushed(recs, ext, a, c), ext, a, chain + [c])
  {
    var recs', chain' := Pushed(recs, ext, a, c), chain + [c];
    forall i | 0 <= i < |chain'| ensures LinkOk(recs', ext, a, chain', i) {
      if i < |chain| {
        assert LinkOk(recs, ext, a, chain, i);
        if i + 1 < |chain| { assert LinkOk(recs, ext, a, chain, i + 1); }
      }
    }
  }

  lemma PushChains(recs: seq<Rec>, ext: seq<Extent>, chains: Chains, a: nat, c: nat)
    requires ChainsOk(recs, ext, chains) && a in chains && c < |recs| == |ext| && c !in chains
    requires forall b, i :: b in chains && 0 <= i < |chains[b]| ==> chains[b][i] != c && chains[b][i] !in chains
    requires ext[c].at % UNIT == 0 && ext[c].at + HEADER <= ext[c].end
    ensures ChainsOk(Pushed(recs, ext, a, c), ext, chains[a := chains[a] + [c]])
  {
    assert ChainOk(recs, ext, a, chains[a]);
    PushOwn(recs, ext, chains[a], a, c);
    forall b | b in chains && b != a ensures ChainOk(Pushed(recs, ext, a, c), ext, b, chains[b]) {
      assert ChainOk(recs, ext, b, chains[b]);
      forall i | 0 <= i < |chains[b]| ensures chains[b][i] < |recs| { assert LinkOk(recs, ext, b, chains[b], i); }
      ChainKeeps(recs, Pushed(recs, ext, a, c), ext, b, chains[b]);
    }
  }

  /** Pushing moves no avail pointer of a chunk with allocations. */
  lemma PushAllocs(recs: seq<Rec>, ext: seq<Extent>, chains: Chains, allocs: set<Alloc>, a: nat, c: nat)
    requires AllocsOk(recs, ext, chains, allocs) && a in chains && a < |recs| == |ext| && c < |recs| && c !in chains
    requires forall b, i :: b in chains && 0 <= i < |chains[b]| ==> chains[b][i] != c && chains[b][i] !in chains
    ensures AllocsOk(Pushed(recs, ext, a, c), ext, chains[a := chains[a] + [c]], allocs)
  {
    var recs', chains' := Pushed(recs, ext, a, c), chains[a := chains[a] + [c]];
    forall al | al in allocs ensures AllocOk(recs', ext, chains', al) {
      assert AllocOk(recs, ext, chains, al);
      var h := Holder(al.arena, chains[al.arena], al.index);
      var h' := Holder(al.arena, chains'[al.arena], al.index);
      assert chains'[al.arena][al.index] == chains[al.arena][al.index];
      assert recs'[h'] == recs[h];
    }
  }

  // ---------------------------------------------------------------- allocating from the newest chunk

  function Bumped(recs: seq<Rec>, a: nat, n: nat): seq<Rec>
    requires a < |recs|
  {
    recs[a := recs[a].(avail := recs[a].avail + n)]
  }

  lemma BumpChains(recs: seq<Rec>, ext: seq<Extent>, chains: Chains, a: nat, n: nat)
    requires ChainsOk(recs, ext, chains) && a in chains && chains[a] != [] && a < |recs|
    requires forall b, i :: b in chains && 0 <= i < |chains[b]| ==> chains[b][i] !in chains
    requires n % UNIT == 0 && recs[a].avail + n <= recs[a].limit
    ensures ChainsOk(Bumped(recs, a, n), ext, chains)
  {
    var recs' := Bumped(recs, a, n);
    forall b | b in chains ensures ChainOk(recs', ext, b, chains[b]) {
      assert ChainOk(recs, ext, b, chains[b]);
      forall i | 0 <= i < |chains[b]| ensures LinkOk(recs', ext, b, chains[b], i) {
        assert LinkOk(recs, ext, b, chains[b], i);
      }
    }
  }

  lemma BumpKeeps(recs: seq<Rec>, ext: seq<Extent>, chains: Chains, a: nat, n: nat, al: Alloc)
    requires a < |recs| && AllocOk(recs, ext, chains, al)
    ensures AllocOk(Bumped(recs, a, n), ext, chains, al)
  {
  }

  /** The new allocation starts where every earlier one of its chunk ends, and other chunks lie
      elsewhere. */
  lemma BumpAllocs(recs: seq<Rec>, ext: seq<Extent>, chains: Chains, chunks: set<nat>, allocs: set<Alloc>, a: nat,
      n: nat)
    requires ChainsOk(recs, ext, chains) && AllocsOk(recs, ext, chains, allocs) && Extents(ext, chunks)
    requires a in chains && chains[a] != [] && a < |recs|
    requires forall b, i :: b in chains && 0 <= i < |chains[b]| ==> chains[b][i] in chunks && chains[b][i] !in chains
    requires forall b, i, d, j ::
        b in chains && 0 <= i < |chains[b]| && d in chains && 0 <= j < |chains[d]| && chains[b][i] == chains[d][j]
        ==> b == d && i == j
    requires n > 0 && recs[a].avail + n <= recs[a].limit
    ensures var al := Alloc(a, |chains[a]| - 1, recs[a].avail, n);
            al !in allocs && AllocsOk(Bumped(recs, a, n), ext, chains, allocs + {al})
  {
    var recs', top := Bumped(recs, a, n), |chains[a]| - 1;
    var al := Alloc(a, top, recs[a].avail, n);
    assert ChainOk(recs, ext, a, chains[a]) && LinkOk(recs, ext, a, chains[a], top);
    assert AllocOk(recs', ext, chains, al);
    forall bl | bl in allocs
        ensures AllocOk(recs', ext, chains, bl) && Apart(al.ptr, al.ptr + n, bl.ptr, bl.ptr + bl.size) {
      assert AllocOk(recs, ext, chains, bl);
      BumpKeeps(recs, ext, chains, a, n, bl);
      BumpApart(recs, ext, chains, chunks, a, bl);
    }
    hide AllocOk, ChainsOk, LinkOk, Extents;
    assert al !in allocs;
  }

  /** What an allocation occupies ends before the newest chunk's free part begins, or is elsewhere. */
  lemma BumpApart(recs: seq<Rec>, ext: seq<Extent>, chains: Chains, chunks: set<nat>, a: nat, bl: Alloc)
    requires ChainsOk(recs, ext, chains) && Extents(ext, chunks) && AllocOk(recs, ext, chains, bl)
    requires a in chains && chains[a] != [] && a < |recs|
    requires forall b, i :: b in chains && 0 <= i < |chains[b]| ==> chains[b][i] in chunks && chains[b][i] !in chains
    requires forall b, i, d, j ::
        b in chains && 0 <= i < |chains[b]| && d in chains && 0 <= j < |chains[d]| && chains[b][i] == chains[d][j]
        ==> b == d && i == j
    ensures Apart(recs[a].avail, recs[a].limit, bl.ptr, bl.ptr + bl.size)
  {
    var top, c := |chains[a]| - 1, chains[bl.arena][bl.index];
    assert ChainOk(recs, ext, a, chains[a]) && LinkOk(recs, ext, a, chains[a], top);
    assert ChainOk(recs, ext, bl.arena, chains[bl.arena]) && LinkOk(recs, ext, bl.arena, chains[bl.arena], bl.index);
    if c != chains[a][top] {
      assert Apart(ext[c].at, ext[c].end, ext[chains[a][top]].at, ext[chains[a][top]].end);
    } else {
      assert bl.arena == a && bl.index == top;
    }
  }

  // ---------------------------------------------------------------- popping the newest chunk

  lemma PopOwn(recs: seq<Rec>, recs': seq<Rec>, ext: seq<Extent>, chain: seq<nat>, a: nat)
    requires ChainOk(recs, ext, a, chain) && chain != [] && |recs'| == |recs|
    requires var c := chain[|chain| - 1];
             c < |recs| && recs'[a] == recs[c] && c != a
             && forall r :: 0 <= r < |recs| && r != a && r != c ==> recs'[r] == recs[r]
    requires forall i :: 0 <= i < |chain| ==> chain[i] != a
    requires forall i, j :: 0 <= i < j < |chain| ==> chain[i] != chain[j]
    ensures ChainOk(recs', ext, a, chain[..|chain| - 1])
  {
    var chain' := chain[..|chain| - 1];
    forall i | 0 <= i < |chain'| ensures LinkOk(recs', ext, a, chain', i) {
      assert LinkOk(recs, ext, a, chain, i);
      assert LinkOk(recs, ext, a, chain, i + 1);
    }
  }

  lemma PopChains(recs: seq<Rec>, recs': seq<Rec>, ext: seq<Extent>, chains: Chains, a: nat)
    requires ChainsOk(recs, ext, chains) && a in chains && chains[a] != [] && |recs'| == |recs|
    requires var c := chains[a][|chains[a]| - 1];
             a < |recs| && c < |recs| && recs'[a] == recs[c]
             && forall r :: 0 <= r < |recs| && r != a && r != c ==> recs'[r] == recs[r]
    requires forall b, i :: b in chains && 0 <= i < |chains[b]| ==> chains[b][i] !in chains
    requires forall b, i, d, j ::
        b in chains && 0 <= i < |chains[b]| && d in chains && 0 <= j < |chains[d]| && chains[b][i] == chains[d][j]
        ==> b == d && i == j
    ensures ChainsOk(recs', ext, chains[a := chains[a][..|chains[a]| - 1]])
  {
    var n := |chains[a]| - 1;
    assert ChainOk(recs, ext, a, chains[a]);
    assert chains[a][n] !in chains;
    PopOwn(recs, recs', ext, chains[a], a);
    forall b | b in chains && b != a ensures ChainOk(recs', ext, b, chains[b]) {
      assert ChainOk(recs, ext, b, chains[b]);
      forall i | 0 <= i < |chains[b]| ensures chains[b][i] < |recs| && chains[b][i] != chains[a][n] {
        assert LinkOk(recs, ext, b, chains[b], i);
      }
      ChainKeeps(recs, recs', ext, b, chains[b]);
    }
  }

  lemma PopAllocs(recs: seq<Rec>, recs': seq<Rec>, ext: seq<Extent>, chains: Chains, allocs: set<Alloc>, a: nat)
    requires AllocsOk(recs, ext, chains, allocs) && a in chains && chains[a] != [] && |recs'| == |recs|
    requires forall al :: al in allocs ==> al.arena != a
    requires var c := chains[a][|chains[a]| - 1];
             a < |recs| && c < |recs| && forall r :: 0 <= r < |recs| && r != a && r != c ==> recs'[r] == recs[r]
    requires forall b, i :: b in chains && 0 <= i < |chains[b]| ==> chains[b][i] !in chains
    requires forall b, i, d, j ::
        b in chains && 0 <= i < |chains[b]| && d in chains && 0 <= j < |chains[d]| && chains[b][i] == chains[d][j]
        ==> b == d && i == j
    ensures AllocsOk(recs', ext, chains[a := chains[a][..|chains[a]| - 1]], allocs)
  {
    var chains' := chains[a := chains[a][..|chains[a]| - 1]];
    forall al | al in allocs ensures AllocOk(recs', ext, chains', al) {
      assert AllocOk(recs, ext, chains, al);
      var h := Holder(al.arena, chains[al.arena], al.index);
      assert h != a && h != chains[a][|chains[a]| - 1];
    }
  }

  /** What the records of an arena and its newest chunk have to do with the others. */
  lemma PopFacts(recs: seq<Rec>, ext: seq<Extent>, chains: Chains, free: seq<nat>, chunks: set<nat>, a: nat)
    requires ChainsOk(recs, ext, chains) && Places(|recs|, chains, free, chunks) && a in chains && chains[a] != []
    ensures var c := chains[a][|chains[a]| - 1];
            && a < |recs| == |ext| && c < |recs| && c != a && recs[a].prev == c && recs[a].limit == ext[c].end
    ensures forall i :: 0 <= i < |free| ==>
        free[i] < |recs| && free[i] != a && free[i] != chains[a][|chains[a]| - 1]
  {
    PlacesApart(|recs|, chains, free, chunks);
    HeadOk(recs, ext, chains, a);
  }

  /** Popping keeps the chains and the allocations of the other arenas. */
  lemma PopKeeps(recs: seq<Rec>, recs': seq<Rec>, ext: seq<Extent>, chains: Chains, free: seq<nat>, chunks: set<nat>,
      allocs: set<Alloc>, a: nat)
    requires ChainsOk(recs, ext, chains) && AllocsOk(recs, ext, chains, allocs)
    requires Places(|recs|, chains, free, chunks) && a in chains && chains[a] != [] && |recs'| == |recs|
    requires forall al :: al in allocs ==> al.arena != a
    requires var c := chains[a][|chains[a]| - 1];
             && a < |recs| && c < |recs| && recs'[a] == recs[c]
             && forall r :: 0 <= r < |recs| && r != a && r != c ==> recs'[r] == recs[r]
    ensures ChainsOk(recs', ext, chains[a := chains[a][..|chains[a]| - 1]])
    ensures AllocsOk(recs', ext, chains[a := chains[a][..|chains[a]| - 1]], allocs)
  {
    PlacesApart(|recs|, chains, free, chunks);
    hide Places, ChainsOk, AllocsOk;
    PopChains(recs, recs', ext, chains, a);
    PopAllocs(recs, recs', ext, chains, allocs, a);
  }

  // ---------------------------------------------------------------- the free list

  lemma FreeKeeps(recs: seq<Rec>, recs': seq<Rec>, ext: seq<Extent>, ext': seq<Extent>, f: int, n: int, free: seq<nat>)
    requires FreeOk(recs, ext, f, n, free) && |recs| <= |recs'| == |ext'| && ext <= ext'
    requires forall i :: 0 <= i < |free| ==> free[i] < |recs| && recs'[free[i]] == recs[free[i]]
    ensures FreeOk(recs', ext', f, n, free)
  {
  }

  lemma FreeTake(recs: seq<Rec>, recs': seq<Rec>, ext: seq<Extent>, f: int, n: int, free: seq<nat>)
    requires FreeOk(recs, ext, f, n, free) && free != [] && |recs'| == |recs|
    requires forall i :: 0 < i < |free| ==> free[i] < |recs| && recs'[free[i]] == recs[free[i]]
    ensures f == free[0] < |recs| && recs[f].limit == ext[f].end && FreeOk(recs', ext, recs[f].prev, n - 1, free[1..])
  {
    forall i | 0 <= i < |free[1..]| ensures recs'[free[1..][i]].prev == First(free[1..][i + 1..]) {
      assert free[1..][i + 1..] == free[i + 1 + 1..];
    }
  }

  lemma FreeShelve(recs: seq<Rec>, recs': seq<Rec>, ext: seq<Extent>, f: int, n: int, free: seq<nat>, c: nat)
    requires FreeOk(recs, ext, f, n, free) && n < THRESHOLD && |recs'| == |recs| && c < |recs|
    requires recs'[c].prev == f && recs'[c].limit == ext[c].end
    requires forall i :: 0 <= i < |free| ==> free[i] < |recs| && recs'[free[i]] == recs[free[i]]
    ensures FreeOk(recs', ext, c, n + 1, [c] + free)
  {
    var free' := [c] + free;
    forall i | 0 <= i < |free'| ensures recs'[free'[i]].prev == First(free'[i + 1..]) {
      if i == 0 { assert free'[1..] == free; } else { assert free'[i + 1..] == free[i..]; }
    }
  }

  // ---------------------------------------------------------------- where chunks are

  lemma PlacesMove(n: nat, chains: Chains, free: seq<nat>, chunks: set<nat>, a: nat)
    requires Places(n, chains, free, chunks) && a in chains && free != []
    ensures Places(n, chains[a := chains[a] + [free[0]]], free[1..], chunks)
  {
    var chains', c := chains[a := chains[a] + [free[0]]], free[0];
    forall d | d in chunks
        ensures d in free[1..] || exists b, i :: b in chains' && 0 <= i < |chains'[b]| && chains'[b][i] == d {
      if d == c {
        assert chains'[a][|chains[a]|] == d;
      } else if d in free {
        assert d in free[1..];
      } else {
        var b, i :| b in chains && 0 <= i < |chains[b]| && chains[b][i] == d;
        assert chains'[b][i] == d;
      }
    }
  }

  lemma PlacesAdd(n: nat, chains: Chains, free: seq<nat>, chunks: set<nat>, a: nat)
    requires Places(n, chains, free, chunks) && a in chains
    ensures Places(n + 1, chains[a := chains[a] + [n]], free, chunks + {n})
  {
    var chains' := chains[a := chains[a] + [n]];
    assert chains'[a][|chains[a]|] == n;
    forall d | d in chunks
        ensures d in free || exists b, i :: b in chains' && 0 <= i < |chains'[b]| && chains'[b][i] == d {
      if d !in free {
        var b, i :| b in chains && 0 <= i < |chains[b]| && chains[b][i] == d;
        assert chains'[b][i] == d;
      }
    }
  }

  lemma PlacesPop(n: nat, chains: Chains, free: seq<nat>, chunks: set<nat>, a: nat, keep: bool)
    requires Places(n, chains, free, chunks) && a in chains && chains[a] != []
    ensures var c, chains' := chains[a][|chains[a]| - 1], chains[a := chains[a][..|chains[a]| - 1]];
            Places(n, chains', if keep then [c] + free else free, if keep then chunks else chunks - {c})
  {
    var k := |chains[a]| - 1;
    var c, chains' := chains[a][k], chains[a := chains[a][..k]];
    var free' := if keep then [c] + free else free;
    forall d | d in chunks && (keep || d != c)
        ensures d in free' || exists b, i :: b in chains' && 0 <= i < |chains'[b]| && chains'[b][i] == d {
      if d == c {
        assert free'[0] == c;
      } else if d in free {
        assert keep ==> d in [c] + free;
      } else {
        var b, i :| b in chains && 0 <= i < |chains[b]| && chains[b][i] == d;
        assert chains'[b][i] == d;
      }
    }
    forall b, i | b in chains' && 0 <= i < |chains'[b]| ensures chains'[b][i] != c && chains'[b][i] == chains[b][i] {}
  }

  lemma PlacesArena(n: nat, chains: Chains, free: seq<nat>, chunks: set<nat>)
    requires Places(n, chains, free, chunks)
    ensures Places(n + 1, chains[n := []], free, chunks)
  {
    var chains' := chains[n := []];
    forall d | d in chunks && d !in free
        ensures exists b, i :: b in chains' && 0 <= i < |chains'[b]| && chains'[b][i] == d {
      var b, i :| b in chains && 0 <= i < |chains[b]| && chains[b][i] == d;
      assert chains'[b][i] == d;
    }
  }

  lemma PlacesDispose(n: nat, chains: Chains, free: seq<nat>, chunks: set<nat>, a: nat)
    requires Places(n, chains, free, chunks) && a in chains && chains[a] == []
    ensures Places(n, chains - {a}, free, chunks)
  {
    var chains' := chains - {a};
    forall d | d in chunks && d !in free
        ensures exists b, i :: b in chains' && 0 <= i < |chains'[b]| && chains'[b][i] == d {
      var b, i :| b in chains && 0 <= i < |chains[b]| && chains[b][i] == d;
      assert chains'[b][i] == d;
    }
  }

  /** What the other lemmas need to know about places. */
  lemma PlacesApart(n: nat, chains: Chains, free: seq<nat>, chunks: set<nat>)
    requires Places(n, chains, free, chunks)
    ensures forall b, i ::
        b in chains && 0 <= i < |chains[b]| ==>
        chains[b][i] in chunks && chains[b][i] !in chains && chains[b][i] !in free
    ensures forall b, i, d, j ::
        b in chains && 0 <= i < |chains[b]| && d in chains && 0 <= j < |chains[d]| && chains[b][i] == chains[d][j]
        ==> b == d && i == j
    ensures forall i :: 0 <= i < |free| ==> free[i] in chunks && free[i] !in chains && free[i] < n
    ensures forall i :: 0 < i < |free| ==> free[i] != free[0]
    ensures forall a :: a in chains ==> a < n
    ensures forall c :: c in chunks ==> c < n && c !in chains
  {
  }

  /** One more record in the table changes nothing for those there are. */
  lemma Grow(recs: seq<Rec>, ext: seq<Extent>, chains: Chains, allocs: set<Alloc>, r: Rec, x: Extent)
    requires ChainsOk(recs, ext, chains) && AllocsOk(recs, ext, chains, allocs) && |recs| == |ext|
    ensures ChainsOk(recs + [r], ext + [x], chains) && AllocsOk(recs + [r], ext + [x], chains, allocs)
  {
    var recs', ext' := recs + [r], ext + [x];
    forall a | a in chains ensures ChainOk(recs', ext', a, chains[a]) {
      assert ChainOk(recs, ext, a, chains[a]);
      forall i | 0 <= i < |chains[a]| ensures LinkOk(recs', ext', a, chains[a], i) {
        assert LinkOk(recs, ext, a, chains[a], i);
      }
    }
    forall al | al in allocs ensures AllocOk(recs', ext', chains, al) { assert AllocOk(recs, ext, chains, al); }
  }

  lemma FreeGrow(recs: seq<Rec>, ext: seq<Extent>, f: int, n: int, free: seq<nat>, r: Rec, x: Extent)
    requires FreeOk(recs, ext, f, n, free)
    ensures FreeOk(recs + [r], ext + [x], f, n, free)
  {
    FreeKeeps(recs, recs + [r], ext, ext + [x], f, n, free);
  }

  lemma FreeEmpty(recs: seq<Rec>, ext: seq<Extent>, f: int, n: int, free: seq<nat>)
    requires FreeOk(recs, ext, f, n, free)
    ensures f == NULL <==> free == []
    ensures n == |free| <= THRESHOLD
  {
  }

  lemma ExtentsGrow(ext: seq<Extent>, chunks: set<nat>, x: Extent)
    requires Extents(ext, chunks)
    ensures Extents(ext + [x], chunks)
  {
  }

  lemma ExtentOf(ext: seq<Extent>, chunks: set<nat>, c: nat)
    requires Extents(ext, chunks) && c in chunks
    ensures c < |ext| && ext[c].at % UNIT == 0 && ext[c].at + HEADER <= ext[c].end
  {
  }

  lemma ExtentsLess(ext: seq<Extent>, chunks: set<nat>, c: nat)
    requires Extents(ext, chunks)
    ensures Extents(ext, chunks - {c})
  {
  }

  lemma NewChain(recs: seq<Rec>, ext: seq<Extent>, chains: Chains, allocs: set<Alloc>, a: nat)
    requires ChainsOk(recs, ext, chains) && AllocsOk(recs, ext, chains, allocs) && a !in chains
    requires a < |recs| == |ext| && recs[a] == Rec(NULL, 0, 0)
    ensures ChainsOk(recs, ext, chains[a := []]) && AllocsOk(recs, ext, chains[a := []], allocs)
  {
    var chains' := chains[a := []];
    forall b | b in chains' ensures ChainOk(recs, ext, b, chains'[b]) {
      if b != a { assert ChainOk(recs, ext, b, chains[b]); }
    }
    forall al | al in allocs ensures AllocOk(recs, ext, chains', al) { assert AllocOk(recs, ext, chains, al); }
  }

  lemma DisposeChain(recs: seq<Rec>, ext: seq<Extent>, chains: Chains, allocs: set<Alloc>, a: nat)
    requires ChainsOk(recs, ext, chains) && AllocsOk(recs, ext, chains, allocs)
    requires forall al :: al in allocs ==> al.arena != a
    ensures ChainsOk(recs, ext, chains - {a}) && AllocsOk(recs, ext, chains - {a}, allocs)
  {
    forall al | al in allocs ensures AllocOk(recs, ext, chains - {a}, al) { assert AllocOk(recs, ext, chains, al); }
  }

  lemma FewerAllocs(recs: seq<Rec>, ext: seq<Extent>, chains: Chains, allocs: set<Alloc>, a: nat)
    requires AllocsOk(recs, ext, chains, allocs)
    ensures AllocsOk(recs, ext, chains, set al | al in allocs && al.arena != a)
  {
  }

  /** What the record of an arena itself says. */
  lemma HeadOk(recs: seq<Rec>, ext: seq<Extent>, chains: Chains, a: nat)
    requires ChainsOk(recs, ext, chains) && a in chains
    ensures a < |recs| == |ext|
    ensures chains[a] == [] ==> recs[a] == Rec(NULL, 0, 0)
    ensures chains[a] != [] ==>
              var c := chains[a][|chains[a]| - 1];
              c < |recs| && recs[a].prev == c && recs[a].limit == ext[c].end && recs[a].avail % UNIT == 0
              && ext[c].at + HEADER <= recs[a].avail <= recs[a].limit
  {
    assert ChainOk(recs, ext, a, chains[a]);
    if chains[a] != [] { assert LinkOk(recs, ext, a, chains[a], |chains[a]| - 1); }
  }

  // ---------------------------------------------------------------- what the invariant promises

  /** An allocation is aligned and lies in a chunk in use, past the chunk's header. */
  ghost predicate InChunk(ext: seq<Extent>, chunks: set<nat>, free: seq<nat>, al: Alloc, c: nat)
  {
    && c in chunks && c !in free && c < |ext| && al.ptr % UNIT == 0 && al.size > 0
    && ext[c].at + HEADER <= al.ptr && al.ptr + al.size <= ext[c].end
  }

  /** Chunk c is at place i of the chain of arena a, and nowhere else. */
  ghost predicate OnOneChain(chains: Chains, free: seq<nat>, c: nat, a: nat, i: nat)
  {
    && a in chains && i < |chains[a]| && chains[a][i] == c && c !in free
    && forall b, j :: b in chains && 0 <= j < |chains[b]| && chains[b][j] == c ==> b == a && j == i
  }

  /** Allocations of all arenas are aligned, inside chunks that are not free, and pairwise apart;
      every chunk is once on one arena's chain or on the free list; and the free list is as long as
      nfree says, ten at the most. */
  lemma AllocationsAreSafe(s: Arenas)
    requires s.Valid()
    ensures forall al :: al in s.allocs ==> exists c :: InChunk(s.ext, s.chunks, s.free, al, c)
    ensures forall al, bl ::
        al in s.allocs && bl in s.allocs && al != bl ==> Apart(al.ptr, al.ptr + al.size, bl.ptr, bl.ptr + bl.size)
    ensures forall c :: c in s.chunks ==> c in s.free || exists a, i :: OnOneChain(s.chains, s.free, c, a, i)
    ensures s.nfree == |s.free| <= THRESHOLD && forall i, j :: 0 <= i < j < |s.free| ==> s.free[i] != s.free[j]
  {
    forall al | al in s.allocs ensures exists c :: InChunk(s.ext, s.chunks, s.free, al, c) {
      AllocInChunk(s, al);
    }
    forall c | c in s.chunks && c !in s.free ensures exists a, i :: OnOneChain(s.chains, s.free, c, a, i) {
      var a, i :| a in s.chains && 0 <= i < |s.chains[a]| && s.chains[a][i] == c;
      PlacesApart(|s.recs|, s.chains, s.free, s.chunks);
      assert OnOneChain(s.chains, s.free, c, a, i);
    }
  }

  lemma AllocInChunk(s: Arenas, al: Alloc)
    requires s.Valid() && al in s.allocs
    ensures exists c :: InChunk(s.ext, s.chunks, s.free, al, c)
  {
    assert AllocOk(s.recs, s.ext, s.chains, al);
    var chain := s.chains[al.arena];
    assert ChainOk(s.recs, s.ext, al.arena, chain) && LinkOk(s.recs, s.ext, al.arena, chain, al.index);
    PlacesApart(|s.recs|, s.chains, s.free, s.chunks);
    assert chain[al.index] in s.chunks && chain[al.index] !in s.free;
    assert InChunk(s.ext, s.chunks, s.free, al, chain[al.index]);
  }

  // ---------------------------------------------------------------- where an allocation comes from

  function Room(r: Rec): int { r.limit - r.avail }

  /** The record of an arena whose newest chunk, lying at e, is untouched. */
  predicate Describes(r: Rec, e: Extent) { r.avail == e.at + HEADER && r.limit == e.end }

  /** The chunk has n bytes behind its header. */
  predicate Roomy(ext: seq<Extent>, c: nat, n: nat) { c < |ext| && n <= ext[c].end - ext[c].at - HEADER }

  predicate NoneRoomy(ext: seq<Extent>, free: seq<nat>, n: nat)
  {
    forall j :: 0 <= j < |free| ==> !Roomy(ext, free[j], n)
  }

  /** The first chunk of the free list with room is in place k. */
  predicate FirstRoomy(ext: seq<Extent>, free: seq<nat>, k: int, n: nat)
  {
    0 <= k < |free| && Roomy(ext, free[k], n) && NoneRoomy(ext, free[..k], n)
  }

  /** The arena has all free chunks up to that in place k, which is untouched. */
  predicate Taken(chains: Chains, free: seq<nat>, r: Rec, chains0: Chains, free0: seq<nat>, ext: seq<Extent>,
      a: nat, k: int)
  {
    && 0 <= k < |free0| && free0[k] < |ext| && Describes(r, ext[free0[k]])
    && free == free0[k + 1..] && a in chains0 && chains == chains0[a := chains0[a] + free0[..k + 1]]
  }

  /** The arena has all free chunks, and one made for n bytes. */
  predicate Made(chains: Chains, free: seq<nat>, r: Rec, chains0: Chains, free0: seq<nat>, a: nat, c: nat, block: nat,
      n: nat)
  {
    && Describes(r, Extent(block, block + HEADER + n + 10 * 1024))
    && free == [] && a in chains0 && chains == chains0[a := chains0[a] + free0 + [c]]
  }

  /** i free chunks have gone to the arena, and all but the last of them have no room. */
  predicate Passed(chains: Chains, free: seq<nat>, r: Rec, chains0: Chains, free0: seq<nat>, ext: seq<Extent>,
      a: nat, i: int, n: nat)
  {
    && 0 <= i <= |free0| && free == free0[i..] && a in chains0 && chains == chains0[a := chains0[a] + free0[..i]]
    && (i > 0 ==> Taken(chains, free, r, chains0, free0, ext, a, i - 1) && NoneRoomy(ext, free0[..i - 1], n))
  }

  lemma NothingTaken(chains: Chains, free: seq<nat>, r: Rec, ext: seq<Extent>, a: nat, n: nat)
    requires a in chains
    ensures Passed(chains, free, r, chains, free, ext, a, 0, n)
  {
    assert chains[a] + free[..0] == chains[a];
  }

  /** The newest of them has no room either. */
  lemma OneMorePassed(chains: Chains, free: seq<nat>, r: Rec, chains0: Chains, free0: seq<nat>, ext: seq<Extent>,
      a: nat, i: int, n: nat)
    requires Passed(chains, free, r, chains0, free0, ext, a, i, n) && n > Room(r)
    ensures NoneRoomy(ext, free0[..i], n)
  {
  }

  lemma NowPassed(chains: Chains, free: seq<nat>, r: Rec, chains0: Chains, free0: seq<nat>, ext: seq<Extent>,
      a: nat, i: int, n: nat)
    requires 0 < i <= |free0| && free == free0[i..] && a in chains0 && free0[i - 1] < |ext|
    requires chains == chains0[a := chains0[a] + free0[..i - 1]][a := chains0[a] + free0[..i - 1] + [free0[i - 1]]]
    requires Describes(r, ext[free0[i - 1]]) && NoneRoomy(ext, free0[..i - 1], n)
    ensures Passed(chains, free, r, chains0, free0, ext, a, i, n)
  {
    assert chains0[a] + free0[..i - 1] + [free0[i - 1]] == chains0[a] + free0[..i];
  }

  lemma AllPassed(chains: Chains, free: seq<nat>, r: Rec, chains0: Chains, free0: seq<nat>, ext: seq<Extent>,
      a: nat, i: int, n: nat)
    requires Passed(chains, free, r, chains0, free0, ext, a, i, n) && n > Room(r) && free == []
    ensures NoneRoomy(ext, free0, n) && a in chains0 && chains == chains0[a := chains0[a] + free0]
  {
    OneMorePassed(chains, free, r, chains0, free0, ext, a, i, n);
    assert free0[..i] == free0;
  }

  lemma NowMade(chains: Chains, free: seq<nat>, r: Rec, chains0: Chains, free0: seq<nat>, a: nat, c: nat, block: nat,
      n: nat)
    requires free == [] && a in chains0 && Describes(r, Extent(block, block + (HEADER + n + 10 * 1024)))
    requires chains == chains0[a := chains0[a] + free0][a := chains0[a] + free0 + [c]]
    ensures Made(chains, free, r, chains0, free0, a, c, block, n) && n <= Room(r)
    ensures r.limit == block + (HEADER + n + 10 * 1024)
  {
  }

  /** When the newest chunk has room it is the first of those taken that has. */
  lemma FirstTaken(chains: Chains, free: seq<nat>, r: Rec, chains0: Chains, free0: seq<nat>, ext: seq<Extent>,
      a: nat, i: int, n: nat)
    requires Passed(chains, free, r, chains0, free0, ext, a, i, n) && n <= Room(r)
    ensures i > 0 ==> FirstRoomy(ext, free0, i - 1, n) && Taken(chains, free, r, chains0, free0, ext, a, i - 1)
    ensures i > 0 ==> forall k :: FirstRoomy(ext, free0, k, n) ==> k == i - 1
    ensures i > 0 ==> !NoneRoomy(ext, free0, n)
  {
    if i > 0 {
      assert FirstRoomy(ext, free0, i - 1, n);
      BeforeFirst(ext, free0, i - 1, n);
      forall k | FirstRoomy(ext, free0, k, n) ensures k == i - 1 { BeforeFirst(ext, free0, k, n); }
      assert Roomy(ext, free0[i - 1], n);
    }
  }

  lemma BeforeFirst(ext: seq<Extent>, free: seq<nat>, k: int, n: nat)
    requires FirstRoomy(ext, free, k, n)
    ensures Roomy(ext, free[k], n) && forall j :: 0 <= j < k ==> !Roomy(ext, free[j], n)
  {
    forall j | 0 <= j < k ensures !Roomy(ext, free[j], n) { assert free[..k][j] == free[j]; }
  }

  lemma NotBoth(ext: seq<Extent>, free: seq<nat>, n: nat)
    requires NoneRoomy(ext, free, n)
    ensures forall k :: !FirstRoomy(ext, free, k, n)
  {
  }

  // ---------------------------------------------------------------- where freed chunks go

  /** Of the chunks of a chain from place r on the newest are in front of the free list, as many as
      there was room for; the others are gone. */
  ghost predicate Shelved(free: seq<nat>, chunks: set<nat>, chain: seq<nat>, r: nat, free0: seq<nat>, chunks0: set<nat>,
      capacity: nat)
  {
    && r <= |chain|
    && var m := |chain| - AtMost(|chain| - r, capacity);
       free == chain[m..] + free0 && chunks == chunks0 - (set i | r <= i < m :: chain[i])
  }

  lemma NoneShelved(free: seq<nat>, chunks: set<nat>, chain: seq<nat>, capacity: nat)
    ensures Shelved(free, chunks, chain, |chain|, free, chunks, capacity)
  {
    assert chain[|chain|..] + free == free;
  }

  lemma OneMoreShelved(free: seq<nat>, chunks: set<nat>, chain: seq<nat>, r: nat, free0: seq<nat>, chunks0: set<nat>,
      capacity: nat)
    requires Shelved(free, chunks, chain, r, free0, chunks0, capacity) && r > 0
    ensures if |chain| - r < capacity then
              Shelved([chain[r - 1]] + free, chunks, chain, r - 1, free0, chunks0, capacity)
            else Shelved(free, chunks - {chain[r - 1]}, chain, r - 1, free0, chunks0, capacity)
  {
    if |chain| - r < capacity {
      assert [chain[r - 1]] + (chain[r..] + free0) == chain[r - 1..] + free0;
    }
  }

  // ---------------------------------------------------------------- the arenas

  class Arenas {
    var recs: seq<Rec>
    var freechunks: int
    var nfree: int
    var ext: seq<Extent>
    ghost var chains: Chains
    ghost var free: seq<nat>
    ghost var chunks: set<nat>
    ghost var allocs: set<Alloc>

    ghost predicate Valid()
      reads this
    {
      && |recs| == |ext| && ChainsOk(recs, ext, chains) && FreeOk(recs, ext, freechunks, nfree, free)
      && Places(|recs|, chains, free, chunks) && Extents(ext, chunks) && AllocsOk(recs, ext, chains, allocs)
    }

    /** What malloc may return for m bytes: any aligned address where no chunk is. */
    ghost predicate MallocGives(block: nat, m: nat)
      reads this
    {
      block > 0 && block % UNIT == 0
      && forall c :: c in chunks && c < |ext| ==> Apart(block, block + m, ext[c].at, ext[c].end)
    }

    constructor ()
      ensures Valid() && chains == map[] && chunks == {} && allocs == {} && nfree == 0
    {
      recs, freechunks, nfree, ext, chains, free, chunks, allocs := [], NULL, 0, [], map[], [], {}, {};
    }

    /** Arena_new */
    method New() returns (a: nat)
      requires Valid()
      modifies this
      ensures Valid() && a !in old(chains) && chains == old(chains)[a := []]
      ensures chunks == old(chunks) && allocs == old(allocs) && nfree == old(nfree) && free == old(free)
    {
      hide ChainOk, LinkOk, FreeOk, Places, Extents, AllocsOk;
      a := |recs|;
      PlacesApart(|recs|, chains, free, chunks);
      Grow(recs, ext, chains, allocs, Rec(NULL, 0, 0), Extent(0, 0));
      FreeGrow(recs, ext, freechunks, nfree, free, Rec(NULL, 0, 0), Extent(0, 0));
      PlacesArena(|recs|, chains, free, chunks);
      ExtentsGrow(ext, chunks, Extent(0, 0));
      recs, ext := recs + [Rec(NULL, 0, 0)], ext + [Extent(0, 0)];
      NewChain(recs, ext, chains, allocs, a);
      chains := chains[a := []];
    }

    /** Lines 93-96 and 109-112: the newest free chunk goes to arena a, whatever its size. */
    method Reuse(a: nat)
      requires Valid() && a in chains && freechunks != NULL
      modifies this`recs, this`freechunks, this`nfree, this`chains, this`free
      ensures Valid() && |recs| == |old(recs)| && a < |recs|
      ensures old(free) != [] && free == old(free)[1..] && chains == old(chains)[a := old(chains)[a] + [old(free)[0]]]
      ensures old(free)[0] < |ext| && Describes(recs[a], ext[old(free)[0]])
    {
      hide ChainOk, LinkOk, FreeOk, Places, Extents, AllocsOk, ChainsOk;
      var ptr := freechunks;
      PlacesApart(|recs|, chains, free, chunks);
      FreeEmpty(recs, ext, freechunks, nfree, free);
      HeadOk(recs, ext, chains, a);
      FreeTake(recs, Pushed(recs, ext, a, free[0]), ext, freechunks, nfree, free);
      ExtentOf(ext, chunks, free[0]);
      PushChains(recs, ext, chains, a, ptr);
      PushAllocs(recs, ext, chains, allocs, a, ptr);
      PlacesMove(|recs|, chains, free, chunks, a);
      var limit := recs[ptr].limit;
      freechunks, nfree := recs[ptr].prev, nfree - 1;
      recs := recs[ptr := recs[a]][a := Rec(ptr, ext[ptr].at + HEADER, limit)];
      chains, free := chains[a := chains[a] + [free[0]]], free[1..];
    }

    /** Lines 98-112: a new chunk of m bytes from malloc goes to arena a. */
    method Extend(a: nat, block: nat, m: nat)
      requires Valid() && a in chains && m >= HEADER && MallocGives(block, m)
      modifies this`recs, this`ext, this`chains, this`chunks
      ensures Valid() && chains == old(chains)[a := old(chains)[a] + [|old(recs)|]]
      ensures a < |recs| && Describes(recs[a], Extent(block, block + m))
      ensures ext == old(ext) + [Extent(block, block + m)] && chunks == old(chunks) + {|old(recs)|}
    {
      hide ChainOk, LinkOk, FreeOk, Places, AllocsOk;
      var ptr := |recs|;
      PlacesApart(|recs|, chains, free, chunks);
      Grow(recs, ext, chains, allocs, Rec(NULL, 0, 0), Extent(block, block + m));
      FreeGrow(recs, ext, freechunks, nfree, free, Rec(NULL, 0, 0), Extent(block, block + m));
      PlacesAdd(|recs|, chains, free, chunks, a);
      recs, ext := recs + [Rec(NULL, 0, 0)], ext + [Extent(block, block + m)];
      PushChains(recs, ext, chains, a, ptr);
      PushAllocs(recs, ext, chains, allocs, a, ptr);
      FreeKeeps(recs, Pushed(recs, ext, a, ptr), ext, ext, freechunks, nfree, free);
      recs := recs[ptr := recs[a]][a := Rec(ptr, ext[ptr].at + HEADER, block + m)];
      chains, chunks := chains[a := chains[a] + [ptr]], chunks + {ptr};
    }

    /** Lines 87-113: the arena's newest chunk is made one with room for n bytes: the one it is, or
        the first free chunk with room, the ones before it going to the arena as they are, or one made
        for it, with 10K to spare, when no free chunk has room. */
    method Provide(a: nat, n: nat, block: nat)
      requires Valid() && a in chains && a < |recs| && MallocGives(block, HEADER + n + 10 * 1024)
      modifies this`recs, this`ext, this`freechunks, this`nfree, this`chains, this`free, this`chunks
      ensures Valid() && a in chains && a < |recs| && n <= Room(recs[a])
      ensures n <= Room(old(recs)[a]) ==> recs == old(recs) && chains == old(chains) && free == old(free)
      ensures n <= Room(old(recs)[a]) || (exists k :: FirstRoomy(old(ext), old(free), k, n)) ==>
                chunks == old(chunks) && ext == old(ext)
      ensures forall k :: n > Room(old(recs)[a]) && FirstRoomy(old(ext), old(free), k, n) ==>
                            Taken(chains, free, recs[a], old(chains), old(free), ext, a, k)
      ensures n > Room(old(recs)[a]) && NoneRoomy(old(ext), old(free), n) ==>
                Made(chains, free, recs[a], old(chains), old(free), a, |old(recs)|, block, n)
                    && chunks == old(chunks) + {|old(recs)|} && ext == old(ext) + [Extent(block, recs[a].limit)]
    {
      hide ChainOk, LinkOk, FreeOk, Places, Extents, AllocsOk, ChainsOk, Roomy, Describes, NoneRoomy, Taken, Made;
      ghost var extended, i := false, 0;
      ghost var before := recs;
      NothingTaken(chains, free, recs[a], ext, a, n);
      while n > recs[a].limit - recs[a].avail
        invariant Valid() && a in chains && a < |recs|
        invariant i > 0 || extended ==> n > Room(before[a])
        invariant i == 0 && !extended ==> recs == before && chains == old(chains) && free == old(free)
        invariant !extended ==> MallocGives(block, HEADER + n + 10 * 1024) && |recs| == |before|
        invariant !extended ==> chunks == old(chunks) && ext == old(ext)
        invariant !extended ==> Passed(chains, free, recs[a], old(chains), old(free), ext, a, i, n)
        invariant extended ==> n <= Room(recs[a]) && NoneRoomy(old(ext), old(free), n)
        invariant extended ==> Made(chains, free, recs[a], old(chains), old(free), a, |before|, block, n)
        invariant extended ==> chunks == old(chunks) + {|before|} && ext == old(ext) + [Extent(block, recs[a].limit)]
        decreases !extended, |free|
      {
        FreeEmpty(recs, ext, freechunks, nfree, free);
        if freechunks != NULL {
          OneMorePassed(chains, free, recs[a], old(chains), old(free), ext, a, i, n);
          Reuse(a);
          i := i + 1;
          NowPassed(chains, free, recs[a], old(chains), old(free), ext, a, i, n);
        } else {
          AllPassed(chains, free, recs[a], old(chains), old(free), ext, a, i, n);
          Extend(a, block, HEADER + n + 10 * 1024);
          extended := true;
          NowMade(chains, free, recs[a], old(chains), old(free), a, |before|, block, n);
        }
        PlacesApart(|recs|, chains, free, chunks);
      }
      if !extended {
        FirstTaken(chains, free, recs[a], old(chains), old(free), ext, a, i, n);
      } else {
        NotBoth(old(ext), old(free), n);
      }
    }

    /** Arena_alloc; block is what malloc returns if the free list runs out.  The allocation is the
        first n bytes left in the arena's newest chunk, once that has room. */
    method Allocate(a: nat, nbytes: nat, block: nat) returns (p: nat)
      requires Valid() && a in chains && nbytes > 0 && MallocGives(block, HEADER + RoundUp(nbytes) + 10 * 1024)
      modifies this
      ensures Valid() && a < |old(recs)| && a < |recs|
      ensures RoundUp(nbytes) <= Room(old(recs)[a]) ==>
                p == old(recs)[a].avail && recs[a].limit == old(recs)[a].limit && chains == old(chains)
                    && free == old(free) && chunks == old(chunks) && ext == old(ext)
      ensures forall k ::
          RoundUp(nbytes) > Room(old(recs)[a]) && FirstRoomy(old(ext), old(free), k, RoundUp(nbytes)) ==>
                          && p == old(ext)[old(free)[k]].at + HEADER && recs[a].limit == old(ext)[old(free)[k]].end
                          && free == old(free)[k + 1..] && chunks == old(chunks) && ext == old(ext)
                          && chains == old(chains)[a := old(chains)[a] + old(free)[..k + 1]]
      ensures RoundUp(nbytes) > Room(old(recs)[a]) && NoneRoomy(old(ext), old(free), RoundUp(nbytes)) ==>
                && p == block + HEADER && recs[a].limit == p + RoundUp(nbytes) + 10 * 1024 && free == []
                && chains == old(chains)[a := old(chains)[a] + old(free) + [|old(recs)|]]
                && chunks == old(chunks) + {|old(recs)|} && ext == old(ext) + [Extent(block, recs[a].limit)]
      ensures p % UNIT == 0 && recs[a].avail == p + RoundUp(nbytes)
      ensures a in chains && chains[a] != [] && var al := Alloc(a, |chains[a]| - 1, p, RoundUp(nbytes));
              al !in old(allocs) && allocs == old(allocs) + {al}
    {
      hide ChainOk, LinkOk, FreeOk, Places, Extents, AllocsOk, ChainsOk, Roomy, NoneRoomy, FirstRoomy;
      var n := RoundUp(nbytes);
      PlacesApart(|recs|, chains, free, chunks);
      Provide(a, n, block);
      p := Bump(a, n);
    }

    /** Lines 114-116. */
    method Bump(a: nat, n: nat) returns (p: nat)
      requires Valid() && a in chains && a < |recs| && 0 < n <= Room(recs[a]) && n % UNIT == 0
      modifies this`recs, this`allocs
      ensures Valid() && a < |recs| && p == old(recs)[a].avail && p % UNIT == 0 && chains[a] != []
      ensures recs == old(recs)[a := old(recs)[a].(avail := p + n)]
      ensures var al := Alloc(a, |chains[a]| - 1, p, n); al !in old(allocs) && allocs == old(allocs) + {al}
    {
      hide ChainOk, LinkOk, FreeOk, Places, Extents, AllocsOk, ChainsOk;
      PlacesApart(|recs|, chains, free, chunks);
      HeadOk(recs, ext, chains, a);
      BumpChains(recs, ext, chains, a, n);
      BumpAllocs(recs, ext, chains, chunks, allocs, a, n);
      FreeKeeps(recs, Bumped(recs, a, n), ext, ext, freechunks, nfree, free);
      p := recs[a].avail;
      ghost var al := Alloc(a, |chains[a]| - 1, p, n);
      recs := recs[a := recs[a].(avail := recs[a].avail + n)];
      allocs := allocs + {al};
    }

    /** Lines 159-171: the newest chunk of a goes to the free list if that has room, and otherwise
        back to the system; the arena says again what it said before that chunk. */
    method Pop(a: nat)
      requires Valid() && a in chains && chains[a] != [] && forall al :: al in allocs ==> al.arena != a
      modifies this`recs, this`freechunks, this`nfree, this`chains, this`free, this`chunks
      ensures Valid() && chains == old(chains)[a := old(chains)[a][..|old(chains)[a]| - 1]]
      ensures var c := old(chains)[a][|old(chains)[a]| - 1];
              if old(nfree) < THRESHOLD then nfree == old(nfree) + 1 && free == [c] + old(free) && chunks == old(chunks)
              else nfree == old(nfree) && free == old(free) && chunks == old(chunks) - {c}
      ensures ext == old(ext) && |ext| == |recs| == |old(recs)|
    {
      hide ChainOk, LinkOk, FreeOk, Places, Extents, AllocsOk, ChainsOk;
      PopFacts(recs, ext, chains, free, chunks, a);
      var c := recs[a].prev;
      var tmp, limit := recs[c], recs[a].limit;
      PlacesPop(|recs|, chains, free, chunks, a, nfree < THRESHOLD);
      ghost var before, apart := recs, free;
      if nfree < THRESHOLD {
        recs := recs[c := recs[c].(prev := freechunks)];
        recs := recs[c := recs[c].(limit := limit)];
        FreeShelve(before, recs[a := tmp], ext, freechunks, nfree, free, c);
        freechunks, nfree, free := c, nfree + 1, [c] + free;
      } else {
        ExtentsLess(ext, chunks, c);
        FreeKeeps(before, recs[a := tmp], ext, ext, freechunks, nfree, free);
        chunks := chunks - {c};
      }
      recs := recs[a := tmp];
      PopKeeps(before, recs, ext, chains, apart, old(chunks), allocs, a);
      chains := chains[a := chains[a][..|chains[a]| - 1]];
    }

    /** Lines 158-172: the newest chunks go to the front of the free list, in the order of the chain,
        as many as it has room for; the others go to the system. */
    method PopAll(a: nat)
      requires Valid() && a in chains && a < |recs| && 0 <= nfree <= THRESHOLD
      requires forall al :: al in allocs ==> al.arena != a
      modifies this`recs, this`freechunks, this`nfree, this`chains, this`free, this`chunks
      ensures Valid() && chains == old(chains)[a := []] && nfree == AtMost(old(nfree) + |old(chains)[a]|, THRESHOLD)
      ensures Shelved(free, chunks, old(chains)[a], 0, old(free), old(chunks), THRESHOLD - old(nfree))
    {
      hide ChainOk, LinkOk, FreeOk, Places, Extents, AllocsOk, ChainsOk, Shelved;
      HeadOk(recs, ext, chains, a);
      ghost var chain, capacity := chains[a], THRESHOLD - nfree;
      NoneShelved(free, chunks, chain, capacity);
      while recs[a].prev != NULL
        invariant Valid() && a in chains && a < |recs| && chains == old(chains)[a := chains[a]]
        invariant recs[a].prev == (if chains[a] == [] then NULL else chains[a][|chains[a]| - 1])
        invariant |chains[a]| <= |chain| && chains[a] == chain[..|chains[a]|]
        invariant nfree == AtMost(old(nfree) + |chain| - |chains[a]|, THRESHOLD)
        invariant Shelved(free, chunks, chain, |chains[a]|, old(free), old(chunks), capacity)
        decreases |chains[a]|
      {
        OneMoreShelved(free, chunks, chain, |chains[a]|, old(free), old(chunks), capacity);
        Pop(a);
        HeadOk(recs, ext, chains, a);
      }
    }

    /** Arena_free; the assertions that end it hold. */
    method Free(a: nat)
      requires Valid() && a in chains
      modifies this
      ensures Valid() && chains == old(chains)[a := []] && ext == old(ext)
      ensures allocs == set al | al in old(allocs) && al.arena != a
      ensures nfree == AtMost(old(nfree) + |old(chains)[a]|, THRESHOLD)
      ensures 0 <= old(nfree) <= THRESHOLD
          && Shelved(free, chunks, old(chains)[a], 0, old(free), old(chunks), THRESHOLD - old(nfree))
    {
      hide ChainOk, LinkOk, FreeOk, Places, Extents, AllocsOk, ChainsOk, Shelved;
      PlacesApart(|recs|, chains, free, chunks);
      FreeEmpty(recs, ext, freechunks, nfree, free);
      FewerAllocs(recs, ext, chains, allocs, a);
      allocs := set al | al in allocs && al.arena != a;
      PopAll(a);
      PlacesApart(|recs|, chains, free, chunks);
      HeadOk(recs, ext, chains, a);
      assert recs[a].limit == 0;
      assert recs[a].avail == 0;
    }

    /** Arena_dispose */
    method Dispose(a: nat)
      requires Valid() && a in chains
      modifies this
      ensures Valid() && chains == old(chains) - {a} && ext == old(ext)
      ensures allocs == set al | al in old(allocs) && al.arena != a
      ensures 0 <= old(nfree) <= THRESHOLD
          && Shelved(free, chunks, old(chains)[a], 0, old(free), old(chunks), THRESHOLD - old(nfree))
    {
      hide ChainOk, LinkOk, FreeOk, Places, Extents, AllocsOk, ChainsOk, Shelved;
      Free(a);
      PlacesDispose(|recs|, chains, free, chunks, a);
      DisposeChain(recs, ext, chains, allocs, a);
      chains := chains - {a};
    }
  }
}
