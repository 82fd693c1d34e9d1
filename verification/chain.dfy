/** Blocks linked by hashes, and what is determined by a block's ancestry alone. */
module Chains {

  type TxId = nat

  /** A digest without collisions: either that of a block or of nothing the chain knows. */
  datatype Hash = Raw(id: nat) | Of(block: Block)

  /** A block, or its header: a header commits to the transactions. `extra` stands for
      the fields that play no part here. */
  datatype Block = Block(parent: Hash, number: nat, difficulty: int, txs: seq<TxId>, extra: nat)

  /** `b` descends from `genesis` with numbers counting up by one. */
  ghost predicate Traced(b: Block, genesis: Block) {
    || b == genesis
    || (b.parent.Of? && b.number == b.parent.block.number + 1 && Traced(b.parent.block, genesis))
  }

  /** The total difficulty of a traced block, given that of the genesis block. */
  ghost function TotalDifficulty(b: Block, genesis: Block, base: int): int
    requires Traced(b, genesis)
  {
    if b == genesis then base else b.difficulty + TotalDifficulty(b.parent.block, genesis, base)
  }

  /** The block at height `n` on the way from `b` down to `genesis`. */
  ghost function AncestorAt(b: Block, genesis: Block, n: nat): (r: Block)
    requires Traced(b, genesis) && genesis.number == 0 && n <= b.number
    ensures r.number == n && Traced(r, genesis)
  {
    if b.number == n then b
    else if b == genesis then b
    else AncestorAt(b.parent.block, genesis, n)
  }

  lemma SelfAncestor(b: Block, genesis: Block)
    requires Traced(b, genesis) && genesis.number == 0
    ensures AncestorAt(b, genesis, b.number) == b
  {
  }

  lemma {:induction false} AncestorAtZero(b: Block, genesis: Block)
    requires Traced(b, genesis) && genesis.number == 0
    ensures AncestorAt(b, genesis, 0) == genesis
  {
    if b != genesis {
      AncestorAtZero(b.parent.block, genesis);
    }
  }

  /** Ancestors of an ancestor are ancestors. */
  lemma {:induction false} AncestorOfAncestor(b: Block, genesis: Block, m: nat, n: nat)
    requires Traced(b, genesis) && genesis.number == 0 && n <= m <= b.number
    ensures AncestorAt(AncestorAt(b, genesis, m), genesis, n) == AncestorAt(b, genesis, n)
  {
    if b.number != m && b != genesis {
      AncestorOfAncestor(b.parent.block, genesis, m, n);
    }
  }

  /** Two chains that share a block share everything below it. */
  lemma SharedBelow(b: Block, c: Block, genesis: Block, m: nat, n: nat)
    requires Traced(b, genesis) && Traced(c, genesis) && genesis.number == 0 && n <= m <= b.number && m <= c.number
    requires AncestorAt(b, genesis, m) == AncestorAt(c, genesis, m)
    ensures AncestorAt(b, genesis, n) == AncestorAt(c, genesis, n)
  {
    AncestorOfAncestor(b, genesis, m, n);
    AncestorOfAncestor(c, genesis, m, n);
  }

  /** The parent of the ancestor at a height is the ancestor one below. */
  lemma AncestorParent(b: Block, genesis: Block, n: nat)
    requires Traced(b, genesis) && genesis.number == 0 && 0 < n <= b.number
    ensures AncestorAt(b, genesis, n) != genesis
    ensures AncestorAt(b, genesis, n).parent == Of(AncestorAt(b, genesis, n - 1))
  {
    var a := AncestorAt(b, genesis, n);
    AncestorOfAncestor(b, genesis, n, n - 1);
    assert a.parent.block == AncestorAt(a, genesis, n - 1);
  }

  /** A table of total difficulties and blocks that is closed under parents. */
  ghost predicate Stored(blocks: map<Hash, Block>, tds: map<Hash, int>, genesis: Block, base: int) {
    && genesis.number == 0 && Of(genesis) in blocks && tds.Keys == blocks.Keys
    && forall h {:trigger StoredAt(blocks, tds, genesis, base, h)} :: h in blocks ==> StoredAt(blocks, tds, genesis, base, h)
  }

  ghost predicate StoredAt(blocks: map<Hash, Block>, tds: map<Hash, int>, genesis: Block, base: int, h: Hash)
    requires h in blocks && tds.Keys == blocks.Keys
  {
    var b := blocks[h];
    && h == Of(b) && Traced(b, genesis) && tds[h] == TotalDifficulty(b, genesis, base)
    && (b != genesis ==> b.parent in blocks)
  }

  /** Storing a child of a stored block keeps the table closed and exact. */
  lemma StoreChild(blocks: map<Hash, Block>, tds: map<Hash, int>, genesis: Block, base: int, b: Block)
    requires Stored(blocks, tds, genesis, base) && b.parent in blocks && b.number == blocks[b.parent].number + 1
    ensures Traced(b, genesis) && TotalDifficulty(b, genesis, base) == b.difficulty + tds[b.parent]
    ensures Stored(blocks[Of(b) := b], tds[Of(b) := b.difficulty + tds[b.parent]], genesis, base)
  {
    assert StoredAt(blocks, tds, genesis, base, b.parent);
    var blocks', tds' := blocks[Of(b) := b], tds[Of(b) := b.difficulty + tds[b.parent]];
    assert tds'.Keys == blocks'.Keys;
    forall h | h in blocks' ensures StoredAt(blocks', tds', genesis, base, h) {
      if h != Of(b) {
        assert StoredAt(blocks, tds, genesis, base, h);
      }
    }
  }

  /** Every ancestor of a stored block is stored. */
  lemma {:induction false} AncestorStored(blocks: map<Hash, Block>, tds: map<Hash, int>, genesis: Block, base: int, b: Block, n: nat)
    requires Stored(blocks, tds, genesis, base) && Of(b) in blocks && Traced(b, genesis) && n <= b.number
    ensures Of(AncestorAt(b, genesis, n)) in blocks
    decreases b
  {
    assert StoredAt(blocks, tds, genesis, base, Of(b));
    if b.number != n && b != genesis {
      AncestorStored(blocks, tds, genesis, base, b.parent.block, n);
    }
  }
}
