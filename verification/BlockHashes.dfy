/** Per-request block hashes: the prompt is cut into blocks, each block's hash is seeded with the
    hash before it, and tokens generated later extend the chain. The hash function is a parameter. */
module BlockHashes {
  import opened Options
  import opened Registry

  type Token = nat
  type Mix = (seq<Token>, Hash) -> Hash

  const SEED: Hash := 42
  const BLOCK := 16

  /** The first block of a prompt; the last one may be short. */
  function Chunk(tokens: seq<Token>, size: nat): (block: seq<Token>)
    ensures block <= tokens
    ensures tokens != [] && size > 0 ==> block != []
  {
    if |tokens| <= size then tokens else tokens[..size]
  }

  /** Hashes of the blocks in front of the first one with fewer than 16 tokens. */
  function Hashed(mix: Mix, tokens: seq<Token>, size: nat, prev: Hash): Path
    requires size > 0
    decreases |tokens|
  {
    var block := Chunk(tokens, size);
    if |block| < BLOCK then []
    else [mix(block, prev)] + Hashed(mix, tokens[|block|..], size, mix(block, prev))
  }

  /** The short block at which hashing stops. */
  function Leftover(tokens: seq<Token>, size: nat): seq<Token>
    requires size > 0
    decreases |tokens|
  {
    var block := Chunk(tokens, size);
    if |block| < BLOCK then block else Leftover(tokens[|block|..], size)
  }

  function LastHash(hashes: Path, prev: Hash): Hash {
    if hashes == [] then prev else hashes[|hashes| - 1]
  }

  // ---------- How many tokens the hashes stand for ----------

  lemma ModDown(a: nat, size: nat)
    requires 0 < size <= a
    ensures a % size == (a - size) % size
  {
    var q, r := (a - size) / size, (a - size) % size;
    assert a - size == q * size + r;
    assert (q + 1) * size == q * size + size;
    ModOf(q + 1, size, r);
  }

  lemma Multiples(d: int, size: int)
    requires size > 0
    ensures d >= 1 ==> d * size >= size
    ensures d <= -1 ==> d * size <= -size
  {
    if d >= 1 {
      assert (d - 1) * size >= 0;
    }
    if d <= -1 {
      assert (d + 1) * size <= 0;
    }
  }

  lemma ModOf(q: nat, size: nat, r: nat)
    requires r < size
    ensures (q * size + r) % size == r
  {
    var a := q * size + r;
    var q', r' := a / size, a % size;
    assert q' * size + r' == q * size + r;
    assert (q' - q) * size == q' * size - q * size;
    Multiples(q' - q, size);
  }

  /** One step of the hashing loop. */
  lemma Step(mix: Mix, tokens: seq<Token>, size: nat, prev: Hash)
    requires size > 0
    ensures var block := Chunk(tokens, size);
            if |block| < BLOCK
            then Hashed(mix, tokens, size, prev) == [] && Leftover(tokens, size) == block
            else Hashed(mix, tokens, size, prev) == [mix(block, prev)] + Hashed(mix, tokens[|block|..], size,
                                                                                mix(block, prev))
                 && Leftover(tokens, size) == Leftover(tokens[|block|..], size)
  {
  }

  /** The literal 16 in the hashing loop decides it: the hashes stand for no more tokens than the
      prompt has exactly when blocks are no longer than 16 or the last short block is below 16. */
  lemma {:induction false} HashesFitPrompt(mix: Mix, tokens: seq<Token>, size: nat, prev: Hash)
    requires size > 0
    ensures |Hashed(mix, tokens, size, prev)| * size <= |tokens| <==> size <= BLOCK || |tokens| % size < BLOCK
    decreases |tokens|
  {
    var block := Chunk(tokens, size);
    if |block| >= BLOCK {
      var n := |Hashed(mix, tokens[|block|..], size, mix(block, prev))|;
      assert (n + 1) * size == n * size + size;
      if |tokens| >= size {
        HashesFitPrompt(mix, tokens[|block|..], size, mix(block, prev));
        ModDown(|tokens|, size);
      } else {
        assert tokens[|block|..] == [] && n == 0;
        ModOf(0, size, |tokens|);
      }
    } else if |tokens| < size {
      ModOf(0, size, |tokens|);
    }
  }

  lemma {:induction false} FullBlocksHashed(mix: Mix, tokens: seq<Token>, prev: Hash)
    ensures |Hashed(mix, tokens, BLOCK, prev)| == |tokens| / BLOCK
    ensures |Leftover(tokens, BLOCK)| < BLOCK
    decreases |tokens|
  {
    var block := Chunk(tokens, BLOCK);
    if |block| >= BLOCK {
      FullBlocksHashed(mix, tokens[|block|..], mix(block, prev));
    }
  }

  // ---------- Content addressing ----------

  lemma SharedFirst(a: seq<Token>, b: seq<Token>, k: nat)
    requires 0 < k && BLOCK * k <= |a| && BLOCK * k <= |b| && a[..BLOCK * k] == b[..BLOCK * k]
    ensures a[..BLOCK] == b[..BLOCK] && a[BLOCK..][..BLOCK * (k - 1)] == b[BLOCK..][..BLOCK * (k - 1)]
  {
    assert a[..BLOCK] == a[..BLOCK * k][..BLOCK] == b[..BLOCK];
    assert a[BLOCK..][..BLOCK * (k - 1)] == a[..BLOCK * k][BLOCK..] == b[BLOCK..][..BLOCK * (k - 1)];
  }

  /** Prompts that share their first k blocks share their first k hashes. */
  lemma {:induction false} SharedBlocks(mix: Mix, a: seq<Token>, b: seq<Token>, k: nat, prev: Hash)
    requires BLOCK * k <= |a| && BLOCK * k <= |b| && a[..BLOCK * k] == b[..BLOCK * k]
    ensures k <= |Hashed(mix, a, BLOCK, prev)| && k <= |Hashed(mix, b, BLOCK, prev)|
    ensures Hashed(mix, a, BLOCK, prev)[..k] == Hashed(mix, b, BLOCK, prev)[..k]
    decreases k
  {
    hide Hashed, Chunk;
    if k > 0 {
      SharedFirst(a, b, k);
      FirstBlock(mix, a, prev);
      FirstBlock(mix, b, prev);
      SharedBlocks(mix, a[BLOCK..], b[BLOCK..], k - 1, mix(a[..BLOCK], prev));
    }
  }

  lemma FirstBlock(mix: Mix, tokens: seq<Token>, prev: Hash)
    requires |tokens| >= BLOCK
    ensures var next := mix(tokens[..BLOCK], prev);
            Hashed(mix, tokens, BLOCK, prev) == [next] + Hashed(mix, tokens[BLOCK..], BLOCK, next)
  {
    assert Chunk(tokens, BLOCK) == tokens[..BLOCK];
  }

  ghost predicate CollisionFree(mix: Mix) {
    && (forall b, h, c, g :: mix(b, h) == mix(c, g) ==> b == c && h == g)
    && (forall b, h :: mix(b, h) != SEED)
  }

  /** Two numbers in one: 2^a * (2b + 1). */
  function Pair(a: nat, b: nat): nat {
    if a == 0 then 2 * b + 1 else 2 * Pair(a - 1, b)
  }

  lemma {:induction false} PairTells(a: nat, b: nat, c: nat, d: nat)
    ensures Pair(a, b) == Pair(c, d) ==> a == c && b == d
  {
    if a > 0 && c > 0 {
      PairTells(a - 1, b, c - 1, d);
    }
  }

  function Number(block: seq<Token>): nat {
    if block == [] then 0 else Pair(block[0], Number(block[1..]))
  }

  lemma {:induction false} PairIsPositive(a: nat, b: nat)
    ensures Pair(a, b) >= 1
  {
    if a > 0 { PairIsPositive(a - 1, b); }
  }

  lemma {:induction false} NumberTells(b: seq<Token>, c: seq<Token>)
    ensures Number(b) == Number(c) ==> b == c
  {
    if b != [] { PairIsPositive(b[0], Number(b[1..])); }
    if c != [] { PairIsPositive(c[0], Number(c[1..])); }
    if b != [] && c != [] && Number(b) == Number(c) {
      PairTells(b[0], Number(b[1..]), c[0], Number(c[1..]));
      NumberTells(b[1..], c[1..]);
      assert b == [b[0]] + b[1..] && c == [c[0]] + c[1..];
    }
  }

  function PairMix(block: seq<Token>, prev: Hash): Hash {
    SEED + Pair(Number(block), prev)
  }

  /** Over unbounded hashes freedom from collisions can be had. */
  lemma PairMixIsCollisionFree()
    ensures CollisionFree(PairMix)
  {
    forall b, h, c, g | PairMix(b, h) == PairMix(c, g)
      ensures b == c && h == g
    {
      PairTells(Number(b), h, Number(c), g);
      NumberTells(b, c);
    }
    forall b, h
      ensures PairMix(b, h) != SEED
    {
      PairIsPositive(Number(b), h);
    }
  }

  lemma {:induction false} HashLink(mix: Mix, tokens: seq<Token>, size: nat, prev: Hash, i: nat)
    returns (block: seq<Token>)
    requires size > 0 && i < |Hashed(mix, tokens, size, prev)|
    ensures Hashed(mix, tokens, size, prev)[i] == mix(block, LastHash(Hashed(mix, tokens, size, prev)[..i], prev))
    decreases i
  {
    block := Chunk(tokens, size);
    if i > 0 {
      var next := mix(block, prev);
      var rest := Hashed(mix, tokens[|block|..], size, next);
      var hashes := Hashed(mix, tokens, size, prev);
      assert hashes == [next] + rest;
      block := HashLink(mix, tokens[|block|..], size, next, i - 1);
      assert LastHash(hashes[..i], prev) == LastHash(rest[..i - 1], next);
    }
  }

  /** Without collisions a hash names one root path: equal hashes of two prompts stand at the same
      position and end equal prefixes. */
  lemma {:induction false} SameHashSamePath(mix: Mix, a: seq<Token>, b: seq<Token>, size: nat, i: nat, j: nat)
    requires CollisionFree(mix) && size > 0
    requires i < |Hashed(mix, a, size, SEED)| && j < |Hashed(mix, b, size, SEED)|
    requires Hashed(mix, a, size, SEED)[i] == Hashed(mix, b, size, SEED)[j]
    ensures i == j && Hashed(mix, a, size, SEED)[..i + 1] == Hashed(mix, b, size, SEED)[..j + 1]
    decreases i
  {
    hide Hashed;
    var p, q := Hashed(mix, a, size, SEED), Hashed(mix, b, size, SEED);
    var _ := HashLink(mix, a, size, SEED, i);
    var _ := HashLink(mix, b, size, SEED, j);
    if i > 0 {
      var _ := HashLink(mix, a, size, SEED, i - 1);
    }
    if j > 0 {
      var _ := HashLink(mix, b, size, SEED, j - 1);
    }
    if i > 0 && j > 0 {
      SameHashSamePath(mix, a, b, size, i - 1, j - 1);
      assert p[..i + 1] == p[..i] + [p[i]];
      assert q[..j + 1] == q[..j] + [q[j]];
    }
  }

  // ---------- Extending the chain ----------

  /** Hashing a longer prompt is hashing the shorter one and going on from where it stopped. */
  lemma {:induction false} HashedAppend(mix: Mix, tokens: seq<Token>, more: seq<Token>, prev: Hash)
    ensures var hashes := Hashed(mix, tokens, BLOCK, prev);
            && Hashed(mix, tokens + more, BLOCK, prev)
               == hashes + Hashed(mix, Leftover(tokens, BLOCK) + more, BLOCK, LastHash(hashes, prev))
            && Leftover(tokens + more, BLOCK) == Leftover(Leftover(tokens, BLOCK) + more, BLOCK)
    decreases |tokens|
  {
    hide Hashed, Leftover;
    Step(mix, tokens, BLOCK, prev);
    Step(mix, tokens + more, BLOCK, prev);
    var block := Chunk(tokens, BLOCK);
    if |block| >= BLOCK {
      var next := mix(block, prev);
      HashedAppend(mix, tokens[BLOCK..], more, next);
      assert Chunk(tokens + more, BLOCK) == block;
      assert (tokens + more)[BLOCK..] == tokens[BLOCK..] + more;
      var rest := Hashed(mix, tokens[BLOCK..], BLOCK, next);
      assert LastHash([next] + rest, prev) == LastHash(rest, next);
    }
  }

  lemma NoHashYet()
    ensures LastHash([], SEED) == SEED
  {
  }

  lemma ChainGrows(hashes: Path, next: Hash, rest: Path)
    ensures (hashes + [next]) + rest == hashes + ([next] + rest) && LastHash(hashes + [next], SEED) == next
  {
  }

  class BlockHashState {
    const mix: Mix
    const blockSize: nat
    var blockHashes: Path
    var prevHash: Hash
    var lastBlock: seq<Token>
    var syncNblks: nat
    var predHit: Option<nat>
    var realHit: Option<nat>
    ghost var tokens: seq<Token>

    /** The state is the one a fresh request with all these tokens would have. */
    ghost predicate Fresh()
      reads this`blockHashes, this`prevHash, this`lastBlock, this`tokens
    {
      && blockSize > 0
      && blockHashes == Hashed(mix, tokens, blockSize, SEED)
      && prevHash == LastHash(blockHashes, SEED)
      && lastBlock == Leftover(tokens, blockSize)
    }

    constructor (mix: Mix, input: seq<Token>, blockSize: nat)
      requires blockSize > 0
      ensures Fresh() && tokens == input && predHit == None && realHit == None && syncNblks == 0
      ensures this.mix == mix && this.blockSize == blockSize
    {
      hide Hashed, Leftover, LastHash;
      NoHashYet();
      this.mix, this.blockSize := mix, blockSize;
      blockHashes, prevHash, lastBlock, syncNblks := [], SEED, [], 0;
      predHit, realHit := None, None;
      tokens := input;
      new;
      var rest := input;
      while rest != []
        invariant Hashed(mix, input, blockSize, SEED) == blockHashes + Hashed(mix, rest, blockSize, prevHash)
        invariant prevHash == LastHash(blockHashes, SEED) && lastBlock == []
        invariant Leftover(input, blockSize) == Leftover(rest, blockSize)
        invariant tokens == input && predHit == None && realHit == None && syncNblks == 0
        decreases |rest|
      {
        var block := Chunk(rest, blockSize);
        Step(mix, rest, blockSize, prevHash);
        if |block| < BLOCK {
          lastBlock := block;
          assert blockHashes == Hashed(mix, input, blockSize, SEED);
          return;
        }
        prevHash := mix(block, prevHash);
        ChainGrows(blockHashes, prevHash, Hashed(mix, rest[|block|..], blockSize, prevHash));
        blockHashes := blockHashes + [prevHash];
        rest := rest[|block|..];
      }
      Step(mix, rest, blockSize, prevHash);
      assert blockHashes == Hashed(mix, input, blockSize, SEED);
    }

    /** One call closes at most one block, so it keeps up with the tokens exactly when fewer than two
        full blocks are waiting. */
    method AppendTokens(more: seq<Token>)
      requires Fresh() && blockSize == BLOCK
      modifies this`blockHashes, this`prevHash, this`lastBlock, this`tokens
      ensures tokens == old(tokens) + more
      ensures Fresh() <==> old(|lastBlock|) + |more| < 2 * BLOCK
    {
      FullBlocksHashed(mix, tokens, SEED);
      HashedAppend(mix, tokens, more, SEED);
      ghost var waiting, before, hashes := lastBlock + more, prevHash, blockHashes;
      tokens := tokens + more;
      lastBlock := lastBlock + more;
      if |lastBlock| >= blockSize {
        var block := lastBlock[..blockSize];
        lastBlock := lastBlock[blockSize..];
        prevHash := mix(block, prevHash);
        blockHashes := blockHashes + [prevHash];
      }
      CloseOne(mix, waiting, before);
      FullBlocksHashed(mix, waiting, before);
    }

    static lemma CloseOne(mix: Mix, waiting: seq<Token>, prev: Hash)
      ensures |waiting| < BLOCK ==> Hashed(mix, waiting, BLOCK, prev) == [] && Leftover(waiting, BLOCK) == waiting
      ensures BLOCK <= |waiting| < 2 * BLOCK ==>
                && Hashed(mix, waiting, BLOCK, prev) == [mix(waiting[..BLOCK], prev)]
                && Leftover(waiting, BLOCK) == waiting[BLOCK..]
    {
      if BLOCK <= |waiting| < 2 * BLOCK {
        assert Chunk(waiting, BLOCK) == waiting[..BLOCK];
        assert |Chunk(waiting[BLOCK..], BLOCK)| < BLOCK;
      }
    }

    /** The scheduler records its prediction once. */
    method SetPredBlockHits(hits: nat)
      requires predHit == None
      modifies this`predHit
      ensures predHit == Some(hits)
    {
      predHit := Some(hits);
    }

    /** The engine's report against the prediction, in blocks. */
    method SetRealTokenHitsGetDiff(hitTokens: nat) returns (diff: int)
      requires blockSize > 0 && hitTokens % blockSize == 0 && predHit.Some?
      modifies this`realHit, this`syncNblks
      ensures diff * blockSize == hitTokens - predHit.value * blockSize
      ensures realHit == Some(hitTokens / blockSize)
      ensures syncNblks == if old(syncNblks) > hitTokens / blockSize then old(syncNblks) else hitTokens / blockSize
    {
      var blockHits := hitTokens / blockSize;
      syncNblks := if syncNblks > blockHits then syncNblks else blockHits;
      realHit := Some(blockHits);
      diff := blockHits - predHit.value;
      DiffInTokens(blockHits, predHit.value, hitTokens, blockSize);
    }

    static lemma DiffInTokens(real_: nat, pred: nat, tokens: nat, size: nat)
      requires size > 0 && tokens % size == 0 && real_ == tokens / size
      ensures (real_ - pred) * size == tokens - pred * size
    {
      assert tokens == real_ * size;
      assert (real_ - pred) * size == real_ * size - pred * size;
    }
  }
}
