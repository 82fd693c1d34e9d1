/** BlockChain: fork choice, insertion and reorganisation over the block tables. */
module BlockChains {
  import opened Chains
  import opened TxIndex
  import opened Wrappers

  datatype WriteStatus = Canonical | SideChain | UnknownAncestor

  /** A block that has been processed, or one whose parent's state has been pruned. `lacking`
      names the blocks without state, `coins` those for which the coin falls, and `good` is the
      number of blocks that could be processed one after the other. */
  datatype Import = Processed(block: Block, coin: bool) | Pruned(block: Block, lacking: set<Hash>, coins: set<Hash>, good: nat)

  /** The stored blocks with their total difficulties, and the head. */
  datatype Tree = Tree(blocks: map<Hash, Block>, tds: map<Hash, int>, current: Block)
  {
    function Td(h: Hash): int {
      if h in tds then tds[h] else 0
    }

    /** The fork choice: heavier wins; of equally heavy blocks the lower one, or at the
        same number the coin decides. */
    predicate Wins(b: Block, td: int, coin: bool) {
      var local := Td(Of(current));
      td > local || (td == local && (b.number < current.number || (b.number == current.number && coin)))
    }

    /** A block whose parent is not stored changes nothing. */
    function With(b: Block, coin: bool): Tree {
      if b.parent !in blocks then this else
        var td := b.difficulty + Td(b.parent);
        Tree(blocks[Of(b) := b], tds[Of(b) := td], if Wins(b, td, coin) then b else current)
    }

    function WithAll(bs: seq<Block>, coins: set<Hash>): Tree {
      if bs == [] then this else
        var b := bs[|bs| - 1];
        WithAll(bs[..|bs| - 1], coins).With(b, Of(b) in coins)
    }

    /** insertChain. A block on a pruned parent is stored unprocessed as long as the chain of
        the head is heavier; otherwise the ancestors without state are processed first, up to
        the first block that turns out to be invalid. */
    function After(imp: Import): Tree {
      match imp
      case Processed(b, coin) => With(b, coin)
      case Pruned(b, lacking, coins, good) =>
        if b.parent !in blocks then this else
          var td := b.difficulty + Td(b.parent);
          if Td(Of(current)) > td then Tree(blocks[Of(b) := b], tds[Of(b) := td], current)
          else WithAll(UpTo(Unstated(blocks, b.parent, lacking) + [b], good), coins)
    }

    function AfterAll(imports: seq<Import>): Tree {
      if imports == [] then this else AfterAll(imports[..|imports| - 1]).After(imports[|imports| - 1])
    }
  }

  function UpTo(bs: seq<Block>, n: nat): seq<Block> {
    if n < |bs| then bs[..n] else bs
  }

  /** The stored blocks without state from the first one up to `h`. */
  function Unstated(blocks: map<Hash, Block>, h: Hash, lacking: set<Hash>): seq<Block> {
    if h in blocks && h.Of? && h in lacking then Unstated(blocks, h.block.parent, lacking) + [h.block] else []
  }

  lemma {:induction false} UnstatedStored(blocks: map<Hash, Block>, h: Hash, lacking: set<Hash>)
    ensures forall b :: b in Unstated(blocks, h, lacking) ==> Of(b) in blocks && Of(b) in lacking
  {
    if h in blocks && h.Of? && h in lacking {
      UnstatedStored(blocks, h.block.parent, lacking);
    }
  }

  /** They are the ancestors from `h` down without a gap, up to one that has state. */
  lemma {:induction false} UnstatedIs(blocks: map<Hash, Block>, h: Hash, lacking: set<Hash>)
    ensures var bs := Unstated(blocks, h, lacking);
            && (bs != [] <==> h in blocks && h.Of? && h in lacking) && (bs != [] ==> Of(bs[|bs| - 1]) == h)
            && (forall i :: 0 < i < |bs| ==> bs[i].parent == Of(bs[i - 1]))
            && (bs != [] ==> bs[0].parent !in blocks || bs[0].parent.Raw? || bs[0].parent !in lacking)
  {
    if h in blocks && h.Of? && h in lacking {
      UnstatedIs(blocks, h.block.parent, lacking);
    }
  }

  /** Blocks are filed under their hashes with exact total difficulties, which grow. */
  ghost predicate Weighed(t: Tree, genesis: Block) {
    && t.tds.Keys == t.blocks.Keys && Of(t.current) in t.blocks
    && (forall b: Block :: Of(b) in t.blocks && b != genesis ==>
          t.blocks[Of(b)] == b && b.parent in t.blocks && b.difficulty > 0 && t.tds[Of(b)] == b.difficulty + t.tds[b.parent])
    && forall h :: h in t.tds ==> t.tds[h] <= t.tds[Of(t.current)]
  }

  lemma {:induction false} UnstatedLighter(t: Tree, genesis: Block, h: Hash, lacking: set<Hash>)
    requires Weighed(t, genesis) && Of(genesis) !in lacking && h in t.blocks
    ensures forall b :: b in Unstated(t.blocks, h, lacking) ==> Of(b) in t.blocks && b != genesis && t.tds[Of(b)] <= t.tds[h]
  {
    if h.Of? && h in lacking {
      UnstatedLighter(t, genesis, h.block.parent, lacking);
    }
  }

  lemma RestoredOne(t: Tree, genesis: Block, b: Block, coin: bool)
    requires Weighed(t, genesis) && Of(b) in t.blocks && b != genesis
    ensures var t' := t.With(b, coin);
            && t'.blocks == t.blocks && t'.tds == t.tds && Weighed(t', genesis) && t'.Td(Of(t'.current)) == t.Td(Of(t.current))
            && (t.Td(Of(b)) < t.Td(Of(t.current)) ==> t' == t)
  {
    assert t.blocks[Of(b) := b] == t.blocks && t.tds[Of(b) := t.tds[Of(b)]] == t.tds;
  }

  /** Processing stored blocks again stores nothing new, and leaves the head if they are lighter. */
  lemma {:induction false} Restored(t: Tree, genesis: Block, bs: seq<Block>, coins: set<Hash>)
    requires Weighed(t, genesis) && forall b :: b in bs ==> Of(b) in t.blocks && b != genesis
    ensures var t' := t.WithAll(bs, coins);
            && t'.blocks == t.blocks && t'.tds == t.tds && Weighed(t', genesis) && t'.Td(Of(t'.current)) == t.Td(Of(t.current))
            && ((forall b :: b in bs ==> t.Td(Of(b)) < t.Td(Of(t.current))) ==> t' == t)
  {
    hide Weighed, Tree.With, Tree.Td;
    if bs != [] {
      var n := |bs| - 1;
      assert forall b :: b in bs[..n] ==> b in bs;
      assert bs[n] in bs;
      Restored(t, genesis, bs[..n], coins);
      RestoredOne(t.WithAll(bs[..n], coins), genesis, bs[n], Of(bs[n]) in coins);
    }
  }

  /** A block on a pruned parent, in numbers and total difficulties. Lighter than the head, it is
      stored and nothing else. Otherwise it is stored, if it and its ancestors are valid, and takes
      the head if it is heavier, or as heavy and lower, or at the same number by the coin. */
  lemma PrunedInFields(t: Tree, genesis: Block, b: Block, lacking: set<Hash>, coins: set<Hash>, good: nat)
    requires Weighed(t, genesis) && Of(genesis) !in lacking && b.parent in t.blocks && b.difficulty > 0
    ensures var t', td, local := t.After(Pruned(b, lacking, coins, good)), b.difficulty + t.tds[b.parent], t.tds[Of(t.current)];
            && (td < local ==> t' == Tree(t.blocks[Of(b) := b], t.tds[Of(b) := td], t.current))
            && (td >= local && good <= |Unstated(t.blocks, b.parent, lacking)| ==> t'.blocks == t.blocks && t'.tds == t.tds)
            && (td >= local && good > |Unstated(t.blocks, b.parent, lacking)| ==> t'.blocks == t.blocks[Of(b) := b] && t'.tds == t.tds[Of(b) := td])
            && (td > local && good > |Unstated(t.blocks, b.parent, lacking)| ==> t'.current == b)
            && (td == local && good > |Unstated(t.blocks, b.parent, lacking)| ==>
                  t'.current == if b.number < t.current.number || (b.number == t.current.number && Of(b) in coins) then b else t.current)
  {
    var bs := Unstated(t.blocks, b.parent, lacking);
    UnstatedLighter(t, genesis, b.parent, lacking);
    if b.difficulty + t.tds[b.parent] >= t.tds[Of(t.current)] {
      if good <= |bs| {
        assert UpTo(bs + [b], good) == bs[..good];
        Restored(t, genesis, bs[..good], coins);
      } else {
        assert UpTo(bs + [b], good) == bs + [b] && (bs + [b])[..|bs|] == bs;
        Restored(t, genesis, bs, coins);
      }
    }
  }

  lemma {:induction false} WithAllKeys(t: Tree, bs: seq<Block>, coins: set<Hash>)
    ensures t.blocks.Keys <= t.WithAll(bs, coins).blocks.Keys
    ensures forall h :: h in t.WithAll(bs, coins).blocks ==> h in t.blocks || exists b :: b in bs && h == Of(b)
  {
    if bs != [] {
      var n := |bs| - 1;
      WithAllKeys(t, bs[..n], coins);
      assert bs == bs[..n] + [bs[n]];
    }
  }

  lemma AfterKeys(t: Tree, imp: Import)
    ensures t.blocks.Keys <= t.After(imp).blocks.Keys <= t.blocks.Keys + {Of(imp.block)}
    ensures imp.Processed? && imp.block.parent in t.blocks ==> Of(imp.block) in t.After(imp).blocks
  {
    if imp.Pruned? {
      UnstatedStored(t.blocks, imp.block.parent, imp.lacking);
      WithAllKeys(t, UpTo(Unstated(t.blocks, imp.block.parent, imp.lacking) + [imp.block], imp.good), imp.coins);
    }
  }

  /** No block is ever lost, none is stored that was not given, and each processed one is
      whose parent was there by then. */
  lemma {:induction false} RunStores(t: Tree, imports: seq<Import>)
    ensures t.blocks.Keys <= t.AfterAll(imports).blocks.Keys
    ensures forall h :: h in t.AfterAll(imports).blocks ==> h in t.blocks || exists imp :: imp in imports && h == Of(imp.block)
    ensures forall i :: 0 <= i < |imports| && imports[i].Processed? && imports[i].block.parent in t.AfterAll(imports[..i]).blocks ==>
              Of(imports[i].block) in t.AfterAll(imports).blocks
  {
    if imports != [] {
      var n := |imports| - 1;
      RunStores(t, imports[..n]);
      AfterKeys(t.AfterAll(imports[..n]), imports[n]);
      assert imports == imports[..n] + [imports[n]];
      forall i | 0 <= i < n ensures imports[..n][..i] == imports[..i] {
      }
    }
  }

  ghost predicate Linked(blocks: map<Hash, Block>, genesis: Block, h: Hash)
    requires h in blocks
  {
    h == Of(blocks[h]) && Traced(blocks[h], genesis) && (blocks[h] != genesis ==> blocks[h].parent in blocks)
  }

  /** The stored blocks are filed under their hashes and closed under parents. */
  ghost predicate Closed(blocks: map<Hash, Block>, genesis: Block) {
    && genesis.number == 0 && Of(genesis) in blocks
    && forall h {:trigger Linked(blocks, genesis, h)} :: h in blocks ==> Linked(blocks, genesis, h)
  }

  lemma StoredIsClosed(blocks: map<Hash, Block>, tds: map<Hash, int>, genesis: Block, base: int)
    requires Stored(blocks, tds, genesis, base)
    ensures Closed(blocks, genesis)
  {
    forall h | h in blocks ensures Linked(blocks, genesis, h) {
      assert StoredAt(blocks, tds, genesis, base, h);
    }
  }

  /** Up to its number, the canonical table is the ancestry of `b`. */
  ghost predicate CanonTo(canon: map<nat, Hash>, b: Block, genesis: Block)
    requires Traced(b, genesis) && genesis.number == 0
  {
    forall n: nat :: n <= b.number ==> n in canon && canon[n] == Of(AncestorAt(b, genesis, n))
  }

  lemma {:induction false} ExtendCanon(canon: map<nat, Hash>, p: Block, b: Block, genesis: Block)
    requires Traced(b, genesis) && Traced(p, genesis) && genesis.number == 0 && b != genesis && b.parent == Of(p)
    requires CanonTo(canon, p, genesis)
    ensures CanonTo(canon[b.number := Of(b)], b, genesis)
  {
  }

  lemma {:induction false} SameCanon(canon: map<nat, Hash>, b: Block, genesis: Block)
    requires Traced(b, genesis) && genesis.number == 0 && CanonTo(canon, b, genesis)
    ensures canon == canon[b.number := Of(b)]
  {
    SelfAncestor(b, genesis);
  }

  lemma {:induction false} CanonBelow(canon: map<nat, Hash>, b: Block, genesis: Block, k: nat)
    requires Traced(b, genesis) && genesis.number == 0 && k <= b.number && CanonTo(canon, b, genesis)
    ensures CanonTo(canon, AncestorAt(b, genesis, k), genesis)
  {
    hide AncestorAt, Traced;
    forall n: nat | n <= k ensures n in canon && canon[n] == Of(AncestorAt(AncestorAt(b, genesis, k), genesis, n)) {
      AncestorOfAncestor(b, genesis, k, n);
    }
  }

  ghost predicate AllFresh(blocks: map<Hash, Block>, genesis: Block) {
    forall h :: h in blocks ==> Traced(blocks[h], genesis) && NoRepeats(blocks[h], genesis)
  }

  /** TxDifference: the transactions of `a` that are not in `b`, in order. */
  method TxDifference(a: seq<TxId>, b: seq<TxId>) returns (keep: seq<TxId>)
    ensures keep == Kept(a, b)
  {
    var remove: set<TxId> := {};
    for i := 0 to |b|
      invariant forall t :: t in remove <==> t in b[..i]
    {
      remove := remove + {b[i]};
    }
    assert b[..|b|] == b;
    keep := [];
    for i := 0 to |a|
      invariant keep == Kept(a[..i], b)
    {
      assert a[..i + 1][..i] == a[..i];
      if a[i] !in remove {
        keep := keep + [a[i]];
      }
    }
    assert a[..|a|] == a;
  }

  function Kept(a: seq<TxId>, b: seq<TxId>): (keep: seq<TxId>) {
    if a == [] then [] else Kept(a[..|a| - 1], b) + if a[|a| - 1] in b then [] else [a[|a| - 1]]
  }

  lemma {:induction false} KeptMember(a: seq<TxId>, b: seq<TxId>, t: TxId)
    ensures t in Kept(a, b) <==> t in a && t !in b
  {
    if a != [] {
      KeptMember(a[..|a| - 1], b, t);
      assert a == a[..|a| - 1] + [a[|a| - 1]];
    }
  }

  lemma {:induction false} PathLength(b: Block, genesis: Block, k: nat)
    requires Traced(b, genesis) && genesis.number == 0 && k <= b.number
    ensures |Path(b, genesis, k)| == b.number - k
  {
    if k < b.number {
      PathAt(b, genesis, k, 0);
    }
  }

  lemma {:induction false} NothingIndexed(b: Block, genesis: Block, k: nat)
    requires Traced(b, genesis) && genesis.number == 0 && k <= b.number
    ensures IndexAbove(AncestorAt(b, genesis, k), genesis, k) == map[]
  {
  }

  lemma {:induction false} IndexAboveStep(p: Block, b: Block, genesis: Block, k: nat)
    requires Traced(b, genesis) && Traced(p, genesis) && genesis.number == 0 && k < b.number && b.parent == Of(p)
    ensures IndexAbove(b, genesis, k) == IndexAbove(p, genesis, k) + Entries(b)
    ensures forall t :: t in Entries(b) <==> t in b.txs
  {
    forall t ensures t in Entries(b) <==> t in b.txs {
      BlockKeys(b, t);
    }
  }

  /** Every canonical entry, also a stale one above the head, names a stored block. */
  ghost predicate Known(canon: map<nat, Hash>, blocks: map<Hash, Block>) {
    forall n :: n in canon ==> canon[n] in blocks
  }

  ghost predicate Positive(blocks: map<Hash, Block>, genesis: Block) {
    forall h :: h in blocks && blocks[h] != genesis ==> blocks[h].difficulty > 0
  }

  /** What storing a block that extends its parent keeps. */
  lemma {:induction false} StoreFresh(blocks: map<Hash, Block>, tds: map<Hash, int>, genesis: Block, base: int, b: Block)
    requires Stored(blocks, tds, genesis, base) && AllFresh(blocks, genesis)
    requires b.parent in blocks && b.number == blocks[b.parent].number + 1
    requires Traced(b, genesis) ==> b == genesis || Fresh(b, genesis)
    ensures Traced(b, genesis) && b != genesis && AllFresh(blocks[Of(b) := b], genesis)
    ensures Stored(blocks[Of(b) := b], tds[Of(b) := b.difficulty + tds[b.parent]], genesis, base)
    ensures TotalDifficulty(b, genesis, base) == b.difficulty + tds[b.parent]
    ensures Of(b) in blocks ==> tds[Of(b)] == b.difficulty + tds[b.parent]
  {
    StoreChild(blocks, tds, genesis, base, b);
    assert StoredAt(blocks, tds, genesis, base, b.parent);
    assert Of(b) in blocks ==> StoredAt(blocks, tds, genesis, base, Of(b));
  }

  /** With positive difficulties an ancestor is strictly lighter. */
  lemma {:induction false} LighterAncestor(blocks: map<Hash, Block>, genesis: Block, base: int, b: Block, n: nat)
    requires Closed(blocks, genesis) && Positive(blocks, genesis) && Of(b) in blocks && Traced(b, genesis) && n < b.number
    ensures TotalDifficulty(AncestorAt(b, genesis, n), genesis, base) < TotalDifficulty(b, genesis, base)
    decreases b
  {
    assert Linked(blocks, genesis, Of(b));
    if n + 1 < b.number {
      LighterAncestor(blocks, genesis, base, b.parent.block, n);
    }
  }

  /** A winning block that is already canonical at its number is the head itself. */
  lemma {:induction false} RewrittenHead(blocks: map<Hash, Block>, tds: map<Hash, int>, canon: map<nat, Hash>, genesis: Block, base: int, head: Block, b: Block)
    requires Stored(blocks, tds, genesis, base) && Of(head) in blocks && Traced(head, genesis) && CanonTo(canon, head, genesis)
    requires Known(canon, blocks) && Positive(blocks, genesis) && Traced(b, genesis)
    requires b.number in canon && canon[b.number] == Of(b)
    requires TotalDifficulty(b, genesis, base) > tds[Of(head)] || (TotalDifficulty(b, genesis, base) == tds[Of(head)] && b.number <= head.number)
    requires forall h :: h in tds ==> tds[h] <= tds[Of(head)]
    ensures b == head
  {
    hide AncestorAt, Traced, TotalDifficulty;
    StoredIsClosed(blocks, tds, genesis, base);
    assert StoredAt(blocks, tds, genesis, base, Of(b));
    assert StoredAt(blocks, tds, genesis, base, Of(head));
    assert b == AncestorAt(head, genesis, b.number);
    if b.number < head.number {
      LighterAncestor(blocks, genesis, base, head, b.number);
    } else {
      SelfAncestor(head, genesis);
    }
  }

  /** The canonical entries up to a stored block are stored blocks. */
  lemma {:induction false} CanonKnown(before: map<nat, Hash>, canon: map<nat, Hash>, blocks: map<Hash, Block>, tds: map<Hash, int>, genesis: Block, base: int, b: Block)
    requires Stored(blocks, tds, genesis, base) && Of(b) in blocks && Traced(b, genesis) && CanonTo(canon, b, genesis)
    requires Known(before, blocks)
    requires forall n :: n in canon ==> (n in before && canon[n] == before[n]) || n <= b.number
    ensures Known(canon, blocks)
  {
    hide AncestorAt, Traced, TotalDifficulty, Stored;
    forall n | n in canon ensures canon[n] in blocks {
      if n <= b.number {
        AncestorStored(blocks, tds, genesis, base, b, n);
      }
    }
  }

  lemma AlignedKept(canon: map<nat, Hash>, blocks: map<Hash, Block>, genesis: Block, b: Block)
    requires Known(canon, blocks) && Positive(blocks, genesis) && b.difficulty > 0
    ensures Known(canon, blocks[Of(b) := b]) && Positive(blocks[Of(b) := b], genesis)
  {
  }

  /** What block validation has established: the number follows the parent's, the
      difficulty is positive, and no transaction of the chain is repeated. */
  ghost predicate Proper(b: Block, genesis: Block) {
    && (b.parent.Of? ==> b.number == b.parent.block.number + 1) && b.difficulty > 0
    && (Traced(b, genesis) ==> b == genesis || Fresh(b, genesis))
  }

  class BlockChain {
    const genesis: Block
    ghost const base: int
    var blocks: map<Hash, Block>
    var tds: map<Hash, int>
    var canon: map<nat, Hash>
    var headHash: Hash
    var current: Block
    var headHeader: Block
    var headFast: Block
    var lookup: Lookup

    ghost predicate Valid()
      reads this
    {
      && Stored(blocks, tds, genesis, base) && AllFresh(blocks, genesis)
      && Of(current) in blocks && headHash == Of(current)
      && Traced(current, genesis) && CanonTo(canon, current, genesis) && lookup == Index(current, genesis)
      && (forall h :: h in tds ==> tds[h] <= tds[Of(current)])
    }

    constructor (genesisBlock: Block)
      requires genesisBlock.number == 0 && genesisBlock.txs == []
      ensures Valid() && Aligned() && current == genesisBlock == genesis
    {
      genesis, base := genesisBlock, genesisBlock.difficulty;
      blocks, tds := map[Of(genesisBlock) := genesisBlock], map[Of(genesisBlock) := genesisBlock.difficulty];
      canon, lookup := map[0 := Of(genesisBlock)], map[];
      headHash, current, headHeader, headFast := Of(genesisBlock), genesisBlock, genesisBlock, genesisBlock;
      new;
      assert blocks.Keys == {Of(genesis)} == tds.Keys;
      assert StoredAt(blocks, tds, genesis, base, Of(genesis));
    }

    function GetBlock(hash: Hash, number: nat): (r: Option<Block>)
      reads this`blocks
      ensures r.Some? <==> hash in blocks && blocks[hash].number == number
      ensures r.Some? ==> r.value == blocks[hash]
    {
      if hash in blocks && blocks[hash].number == number then Some(blocks[hash]) else None
    }

    /** insert: makes a block the head. The head header and the head fast block follow
        unless the block is already the canonical one at its number. */
    method Insert(block: Block)
      modifies this`canon, this`headHash, this`current, this`headHeader, this`headFast
      ensures canon == old(canon)[block.number := Of(block)] && current == block && headHash == Of(block)
      ensures if block.number in old(canon) && old(canon)[block.number] == Of(block)
              then headHeader == old(headHeader) && headFast == old(headFast)
              else headHeader == headFast == block
    {
      var updateHeads := !(block.number in canon && canon[block.number] == Of(block));
      canon := canon[block.number := Of(block)];
      headHash := Of(block);
      current := block;
      if updateHeads {
        headHeader := block;
        headFast := block;
      }
    }

    /** WriteTxLookupEntries. */
    method WriteTxLookupEntries(block: Block)
      modifies this`lookup
      ensures lookup == old(lookup) + Entries(block)
    {
      for i := 0 to |block.txs|
        invariant lookup == old(lookup) + EntriesTo(block, i)
      {
        lookup := lookup[block.txs[i] := Entry(Of(block), block.number, i)];
      }
    }

    /** The blocks from `block` down to the given number, and their transactions. */
    method Reduce(block: Block, number: nat) returns (at: Block, chain: seq<Block>, txs: seq<TxId>)
      requires Closed(blocks, genesis) && Traced(block, genesis) && number <= block.number
      requires block != genesis ==> block.parent in blocks
      ensures at == AncestorAt(block, genesis, number) && (at != genesis ==> at.parent in blocks)
      ensures chain == Path(block, genesis, number) && txs == Txs(chain)
    {
      hide AncestorAt, Traced, Path, Txs;
      at, chain, txs := block, [], [];
      SelfAncestor(block, genesis);
      PathEmpty(block, genesis, block.number);
      NoTxs();
      while at.number != number
        invariant number <= at.number <= block.number && at == AncestorAt(block, genesis, at.number)
        invariant at != genesis ==> at.parent in blocks
        invariant chain == Path(block, genesis, at.number) && txs == Txs(chain)
        decreases at.number
      {
        Down(block, at);
        chain, txs := chain + [at], txs + at.txs;
        at := GetBlock(at.parent, at.number - 1).value;
      }
    }

    lemma NoTxs()
      ensures Txs([]) == []
    {
    }

    /** One step of a walk towards genesis. */
    lemma {:induction false} Down(block: Block, at: Block)
      requires Closed(blocks, genesis) && Traced(block, genesis) && 0 < at.number <= block.number
      requires at == AncestorAt(block, genesis, at.number) && (at != genesis ==> at.parent in blocks)
      ensures at.parent in blocks && blocks[at.parent].number == at.number - 1
      ensures blocks[at.parent] == AncestorAt(block, genesis, at.number - 1)
      ensures blocks[at.parent] != genesis ==> blocks[at.parent].parent in blocks
      ensures Path(block, genesis, at.number - 1) == Path(block, genesis, at.number) + [at]
      ensures Txs(Path(block, genesis, at.number) + [at]) == Txs(Path(block, genesis, at.number)) + at.txs
    {
      hide AncestorAt, Traced, Path, Txs;
      AncestorParent(block, genesis, at.number);
      PathStep(block, genesis, at.number);
      TxsAppend(Path(block, genesis, at.number), at);
      assert Linked(blocks, genesis, at.parent);
    }

    /** The walk of reorg: both chains down to the block they share. Neither can run out,
        since every stored block's parent is stored and genesis is shared. */
    method Fork(oldBlock: Block, newBlock: Block) returns (oldChain: seq<Block>, newChain: seq<Block>, deleted: seq<TxId>, ghost k: nat)
      requires Closed(blocks, genesis) && Of(oldBlock) in blocks && blocks[Of(oldBlock)] == oldBlock
      requires Traced(oldBlock, genesis) && Traced(newBlock, genesis) && (newBlock != genesis ==> newBlock.parent in blocks)
      ensures k <= oldBlock.number && k <= newBlock.number
      ensures AncestorAt(oldBlock, genesis, k) == AncestorAt(newBlock, genesis, k)
      ensures oldChain == Path(oldBlock, genesis, k) && newChain == Path(newBlock, genesis, k) && deleted == Txs(oldChain)
      ensures forall n: nat :: k < n <= oldBlock.number && n <= newBlock.number ==> AncestorAt(oldBlock, genesis, n) != AncestorAt(newBlock, genesis, n)
    {
      hide AncestorAt, Traced, Path, Txs;
      assert Linked(blocks, genesis, Of(oldBlock));
      var o, n := oldBlock, newBlock;
      SelfAncestor(oldBlock, genesis);
      SelfAncestor(newBlock, genesis);
      if oldBlock.number > newBlock.number {
        o, oldChain, deleted := Reduce(oldBlock, newBlock.number);
        newChain := [];
        PathEmpty(newBlock, genesis, newBlock.number);
      } else {
        var added: seq<TxId>;
        n, newChain, added := Reduce(newBlock, oldBlock.number);
        oldChain, deleted := [], [];
        PathEmpty(oldBlock, genesis, oldBlock.number);
        NoTxs();
      }
      AncestorAtZero(oldBlock, genesis);
      AncestorAtZero(newBlock, genesis);
      while o != n
        invariant o.number == n.number <= oldBlock.number && n.number <= newBlock.number
        invariant o == AncestorAt(oldBlock, genesis, o.number) && n == AncestorAt(newBlock, genesis, n.number)
        invariant (o != genesis ==> o.parent in blocks) && (n != genesis ==> n.parent in blocks)
        invariant oldChain == Path(oldBlock, genesis, o.number) && newChain == Path(newBlock, genesis, n.number)
        invariant deleted == Txs(oldChain)
        invariant forall i: nat :: o.number < i <= oldBlock.number && i <= newBlock.number ==> AncestorAt(oldBlock, genesis, i) != AncestorAt(newBlock, genesis, i)
        decreases o.number
      {
        Down(oldBlock, o);
        Down(newBlock, n);
        oldChain, newChain, deleted := oldChain + [o], newChain + [n], deleted + o.txs;
        o, n := GetBlock(o.parent, o.number - 1).value, GetBlock(n.parent, n.number - 1).value;
      }
      k := o.number;
    }

    /** The blocks of the new chain become canonical one by one, lowest first. */
    method Adopt(newChain: seq<Block>, ghost newBlock: Block, ghost k: nat) returns (added: seq<TxId>)
      requires Traced(newBlock, genesis) && genesis.number == 0 && k <= newBlock.number
      requires newChain == Path(newBlock, genesis, k) && CanonTo(canon, AncestorAt(newBlock, genesis, k), genesis)
      modifies this`canon, this`headHash, this`current, this`headHeader, this`headFast, this`lookup
      ensures CanonTo(canon, newBlock, genesis) && lookup == old(lookup) + IndexAbove(newBlock, genesis, k)
      ensures forall t :: t in added <==> t in IndexAbove(newBlock, genesis, k)
      ensures forall n :: n in canon ==> (n in old(canon) && canon[n] == old(canon)[n]) || n <= newBlock.number
      ensures k == newBlock.number ==> headHeader == old(headHeader) && headFast == old(headFast)
      ensures k < newBlock.number && !(newBlock.number in old(canon) && old(canon)[newBlock.number] == Of(newBlock)) ==>
                headHeader == headFast == newBlock
    {
      hide AncestorAt, Traced, Path, IndexAbove, Entries, CanonTo;
      added := [];
      var i := |newChain|;
      PathLength(newBlock, genesis, k);
      NothingIndexed(newBlock, genesis, k);
      while i > 0
        invariant 0 <= i <= |newChain| == newBlock.number - k
        invariant CanonTo(canon, AncestorAt(newBlock, genesis, newBlock.number - i), genesis)
        invariant lookup == old(lookup) + IndexAbove(AncestorAt(newBlock, genesis, newBlock.number - i), genesis, k)
        invariant forall t :: t in added <==> t in IndexAbove(AncestorAt(newBlock, genesis, newBlock.number - i), genesis, k)
        invariant forall n :: n in canon ==> (n in old(canon) && canon[n] == old(canon)[n]) || n <= newBlock.number - i
        invariant i > 0 && newBlock.number in canon ==> newBlock.number in old(canon) && canon[newBlock.number] == old(canon)[newBlock.number]
        invariant |newChain| == 0 ==> headHeader == old(headHeader) && headFast == old(headFast)
        invariant i == 0 < |newChain| && !(newBlock.number in old(canon) && old(canon)[newBlock.number] == Of(newBlock)) ==>
                    headHeader == headFast == newBlock
      {
        i := i - 1;
        ghost var p := AncestorAt(newBlock, genesis, newBlock.number - i - 1);
        PathAt(newBlock, genesis, k, i);
        AncestorParent(newBlock, genesis, newBlock.number - i);
        SelfAncestor(newBlock, genesis);
        ExtendCanon(canon, p, newChain[i], genesis);
        IndexAboveStep(p, newChain[i], genesis, k);
        Insert(newChain[i]);
        WriteTxLookupEntries(newChain[i]);
        added := added + newChain[i].txs;
      }
      SelfAncestor(newBlock, genesis);
    }

    /** reorg: afterwards table and index describe the chain of the new block. */
    method Reorg(oldBlock: Block, newBlock: Block)
      requires Closed(blocks, genesis) && Of(oldBlock) in blocks && blocks[Of(oldBlock)] == oldBlock
      requires Traced(oldBlock, genesis) && Traced(newBlock, genesis) && (newBlock != genesis ==> newBlock.parent in blocks)
      requires CanonTo(canon, oldBlock, genesis) && lookup == Index(oldBlock, genesis) && NoRepeats(oldBlock, genesis)
      modifies this`canon, this`headHash, this`current, this`headHeader, this`headFast, this`lookup
      ensures CanonTo(canon, newBlock, genesis) && lookup == Index(newBlock, genesis)
      ensures forall n :: n in canon ==> (n in old(canon) && canon[n] == old(canon)[n]) || n <= newBlock.number
      ensures (newBlock.number in old(canon) && old(canon)[newBlock.number] == Of(newBlock)) || headHeader == headFast == newBlock
      ensures oldBlock == newBlock ==> headHeader == old(headHeader) && headFast == old(headFast)
    {
      hide AncestorAt, Traced, Path, Txs, Index, IndexAbove, NoRepeats;
      var oldChain, newChain, deleted, k := Fork(oldBlock, newBlock);
      CanonBelow(canon, oldBlock, genesis, k);
      SelfAncestor(newBlock, genesis);
      var added := Adopt(newChain, newBlock, k);
      var diff := TxDifference(deleted, added);
      DropEntries(diff);
      Relink(oldBlock, newBlock, k, added, diff);
    }

    /** What was deleted is what the old blocks have and the new ones lack. */
    lemma {:induction false} Relink(oldBlock: Block, newBlock: Block, k: nat, added: seq<TxId>, diff: seq<TxId>)
      requires Traced(oldBlock, genesis) && Traced(newBlock, genesis) && genesis.number == 0
      requires k <= oldBlock.number && k <= newBlock.number && NoRepeats(oldBlock, genesis)
      requires AncestorAt(oldBlock, genesis, k) == AncestorAt(newBlock, genesis, k)
      requires forall t :: t in added <==> t in IndexAbove(newBlock, genesis, k)
      requires diff == Kept(Txs(Path(oldBlock, genesis, k)), added)
      ensures Index(oldBlock, genesis) + IndexAbove(newBlock, genesis, k) - (set t | t in diff) == Index(newBlock, genesis)
    {
      hide AncestorAt, Traced, Path, Txs, Index, IndexAbove, NoRepeats, Kept;
      forall t ensures t in diff <==> t in Txs(Path(oldBlock, genesis, k)) && t !in Txs(Path(newBlock, genesis, k)) {
        KeptMember(Txs(Path(oldBlock, genesis, k)), added, t);
        AboveKeys(newBlock, genesis, k, t);
      }
      ReorgIndex(oldBlock, newBlock, genesis, k);
      assert (set t | t in diff) == set t | t in Txs(Path(oldBlock, genesis, k)) && t !in Txs(Path(newBlock, genesis, k));
    }

    method DropEntries(diff: seq<TxId>)
      modifies this`lookup
      ensures lookup == old(lookup) - (set t | t in diff)
    {
      for i := 0 to |diff|
        invariant lookup == old(lookup) - (set t | t in diff[..i])
      {
        lookup := lookup - {diff[i]};
        assert diff[..i + 1] == diff[..i] + [diff[i]];
      }
      assert diff[..|diff|] == diff;
    }

    function T(): Tree
      reads this
    {
      Tree(blocks, tds, current)
    }

    /** Head header and head fast block are the head block. */
    ghost predicate Aligned()
      reads this
    {
      headHeader == headFast == current && Known(canon, blocks) && Positive(blocks, genesis)
    }

    /** The block follows a stored parent and repeats no transaction of its chain. */
    ghost predicate Extends(block: Block)
      reads `blocks
    {
      && block.parent in blocks && block.number == blocks[block.parent].number + 1
      && (Traced(block, genesis) ==> block == genesis || Fresh(block, genesis))
    }

    function GetTd(hash: Hash, number: nat): (td: Option<int>)
      requires tds.Keys == blocks.Keys
      reads `blocks, `tds
      ensures td.Some? <==> hash in blocks && blocks[hash].number == number
      ensures td.Some? ==> td.value == tds[hash]
    {
      if hash in tds && blocks[hash].number == number then Some(tds[hash]) else None
    }

    /** WriteBlockWithState. The caller has processed the block on its parent's state, so
        that a block with a stored parent extends it. */
    method WriteBlockWithState(block: Block, coin: bool) returns (status: WriteStatus)
      requires Valid() && (block.parent in blocks ==> Extends(block))
      modifies this
      ensures Valid()
      ensures status == UnknownAncestor <==> block.parent !in old(blocks)
      ensures status == UnknownAncestor ==> unchanged(this)
      ensures T() == old(T()).With(block, coin)
      ensures status == Canonical <==> block.parent in old(blocks) && old(T()).Wins(block, block.difficulty + old(tds)[block.parent], coin)
      ensures old(tds[Of(current)]) <= tds[Of(current)]
      ensures old(Aligned()) && block.difficulty > 0 ==> Aligned()
      // In numbers and total difficulties: the heavier block wins, then the lower one, then the coin.
      ensures block.parent in old(blocks) ==>
                var td, local, head := block.difficulty + old(tds)[block.parent], old(tds[Of(current)]), old(current);
                && blocks == old(blocks)[Of(block) := block] && tds == old(tds)[Of(block) := td]
                && (td > local ==> status == Canonical && current == block)
                && (td < local ==> status == SideChain && current == head)
                && (td == local && block.number < head.number ==> status == Canonical && current == block)
                && (td == local && block.number > head.number ==> status == SideChain && current == head)
                && (td == local && block.number == head.number ==> if coin then status == Canonical && current == block else status == SideChain && current == head)
    {
      hide AncestorAt, Traced, CanonTo, Index, NoRepeats, Fresh, TotalDifficulty, Stored, Known, Positive, AllFresh;
      CurrentStored();
      var ptd := if block.number == 0 then None else GetTd(block.parent, block.number - 1);
      if ptd.None? {
        return UnknownAncestor;
      }
      StoreFresh(blocks, tds, genesis, base, block);
      var localTd := GetTd(Of(current), current.number).value;
      var externTd := block.difficulty + ptd.value;
      tds := tds[Of(block) := externTd];
      var reorg := externTd > localTd || (externTd == localTd && (block.number < current.number || (block.number == current.number && coin)));
      assert reorg <==> old(T()).Wins(block, externTd, coin);
      if reorg {
        Crown(block);
        status := Canonical;
        if old(Aligned()) && block.difficulty > 0 {
          if block.number in old(canon) && old(canon)[block.number] == Of(block) {
            RewrittenHead(old(blocks), old(tds), old(canon), genesis, base, old(current), block);
          }
          AlignedKept(old(canon), old(blocks), genesis, block);
          CanonKnown(old(canon), canon, blocks, tds, genesis, base, block);
        }
      } else {
        blocks := blocks[Of(block) := block];
        status := SideChain;
        if old(Aligned()) && block.difficulty > 0 {
          AlignedKept(old(canon), old(blocks), genesis, block);
        }
      }
    }

    lemma CurrentStored()
      requires Valid()
      ensures Closed(blocks, genesis) && tds.Keys == blocks.Keys && blocks[Of(current)] == current && NoRepeats(current, genesis)
    {
      StoredIsClosed(blocks, tds, genesis, base);
      assert Linked(blocks, genesis, Of(current));
    }

    /** Makes index and table those of the winning block, short of its own number. */
    method Switch(block: Block)
      requires Closed(blocks, genesis) && Of(current) in blocks && blocks[Of(current)] == current && AllFresh(blocks, genesis)
      requires Traced(current, genesis) && CanonTo(canon, current, genesis) && lookup == Index(current, genesis)
      requires Extends(block) && Traced(block, genesis) && block != genesis
      modifies this`canon, this`headHash, this`current, this`headHeader, this`headFast, this`lookup
      ensures CanonTo(canon[block.number := Of(block)], block, genesis) && lookup == Index(block, genesis)
      ensures forall n :: n in canon ==> (n in old(canon) && canon[n] == old(canon)[n]) || n <= block.number
      ensures var at := if block.number in canon then Some(canon[block.number]) else None;
              if block.number in old(canon) && old(canon)[block.number] == Of(block)
              then block == old(current) ==> headHeader == old(headHeader) && headFast == old(headFast)
              else at == Some(Of(block)) ==> headHeader == headFast == block
    {
      hide AncestorAt, Traced, CanonTo, NoRepeats, Fresh;
      if block.parent != Of(current) {
        Reorg(current, block);
        SelfAncestor(block, genesis);
        SameCanon(canon, block, genesis);
      } else {
        ExtendCanon(canon, current, block, genesis);
      }
      WriteTxLookupEntries(block);
    }

    /** Stores the winning block as the head. */
    method Crown(block: Block)
      requires Closed(blocks, genesis) && Of(current) in blocks && blocks[Of(current)] == current && AllFresh(blocks, genesis)
      requires Traced(current, genesis) && CanonTo(canon, current, genesis) && lookup == Index(current, genesis)
      requires Extends(block) && Traced(block, genesis) && block != genesis
      modifies this`blocks, this`canon, this`headHash, this`current, this`headHeader, this`headFast, this`lookup
      ensures blocks == old(blocks)[Of(block) := block] && current == block && headHash == Of(block)
      ensures CanonTo(canon, block, genesis) && lookup == Index(block, genesis)
      ensures forall n :: n in canon ==> (n in old(canon) && canon[n] == old(canon)[n]) || n <= block.number
      ensures if block.number in old(canon) && old(canon)[block.number] == Of(block)
              then block == old(current) == old(headHeader) == old(headFast) ==> headHeader == headFast == block
              else headHeader == headFast == block
    {
      hide AncestorAt, Traced, CanonTo, Index, NoRepeats, Fresh, Closed, AllFresh;
      Switch(block);
      blocks := blocks[Of(block) := block];
      Insert(block);
    }

    /** WriteBlockWithoutState. The head is the heaviest block still if and only if the one
        written is not heavier. */
    method WriteBlockWithoutState(block: Block, td: int)
      requires Valid() && Extends(block) && td == block.difficulty + tds[block.parent]
      modifies `blocks, `tds
      ensures blocks == old(blocks)[Of(block) := block] && tds == old(tds)[Of(block) := td]
      ensures Valid() <==> td <= old(tds[Of(current)])
      ensures tds[Of(current)] == old(tds[Of(current)])
      ensures old(Aligned()) && block.difficulty > 0 ==> Aligned()
    {
      hide AncestorAt, Traced, CanonTo, Index, NoRepeats, Fresh, TotalDifficulty, Stored, Known, Positive, AllFresh;
      CurrentStored();
      StoreFresh(blocks, tds, genesis, base, block);
      if Aligned() && block.difficulty > 0 {
        AlignedKept(canon, blocks, genesis, block);
      }
      tds := tds[Of(block) := td];
      blocks := blocks[Of(block) := block];
      assert tds[Of(block)] == td;
    }

    /** The stored blocks without state from the first one up to `hash`, gathered from the
        top and turned round. */
    method GatherUnstated(hash: Hash, lacking: set<Hash>) returns (winner: seq<Block>)
      requires Stored(blocks, tds, genesis, base) && hash in blocks && Of(genesis) !in lacking
      ensures winner == Unstated(blocks, hash, lacking)
    {
      winner := [];
      var parent := blocks[hash];
      assert StoredAt(blocks, tds, genesis, base, hash);
      while Of(parent) in lacking
        invariant Of(parent) in blocks && blocks[Of(parent)] == parent
        invariant Unstated(blocks, hash, lacking) == Unstated(blocks, Of(parent), lacking) + winner
        decreases parent
      {
        assert StoredAt(blocks, tds, genesis, base, Of(parent)) && StoredAt(blocks, tds, genesis, base, parent.parent);
        winner := [parent] + winner;
        parent := blocks[parent.parent];
      }
    }

    /** Processes blocks in order, each the child of a stored one. */
    method InsertAll(winner: seq<Block>, coins: set<Hash>)
      requires Valid() && Aligned() && forall i :: 0 <= i < |winner| ==> Proper(winner[i], genesis)
      modifies this
      ensures Valid() && Aligned() && T() == old(T()).WithAll(winner, coins) && old(tds[Of(current)]) <= tds[Of(current)]
    {
      hide AncestorAt, Traced, CanonTo, Index, NoRepeats, Fresh, TotalDifficulty, Known, Positive, AllFresh;
      assert winner[..0] == [];
      for i := 0 to |winner|
        invariant Valid() && Aligned() && T() == old(T()).WithAll(winner[..i], coins) && old(tds[Of(current)]) <= tds[Of(current)]
      {
        ProperExtends(winner[i]);
        var _ := WriteBlockWithState(winner[i], Of(winner[i]) in coins);
        assert winner[..i + 1][..i] == winner[..i];
      }
      assert winner[..|winner|] == winner;
    }

    lemma ProperExtends(block: Block)
      requires Valid() && Proper(block, genesis)
      ensures block.difficulty > 0 && (block.parent in blocks ==> Extends(block))
    {
      hide AncestorAt, Traced, CanonTo, Index, NoRepeats, Fresh, TotalDifficulty, AllFresh;
      CurrentStored();
      assert block.parent in blocks ==> Linked(blocks, genesis, block.parent);
    }

    /** Every stored block but the first is a proper one. */
    lemma StoredProper(b: Block)
      requires Valid() && Aligned() && Of(b) in blocks && b != genesis
      ensures Proper(b, genesis)
    {
      CurrentStored();
      assert Linked(blocks, genesis, Of(b));
    }

    lemma TablesWeighed()
      requires Valid() && Aligned()
      ensures Weighed(T(), genesis)
    {
      hide AncestorAt, CanonTo, Index, NoRepeats, Fresh, Known, AllFresh;
      forall b | Of(b) in blocks && b != genesis
        ensures blocks[Of(b)] == b && b.parent in blocks && b.difficulty > 0 && tds[Of(b)] == b.difficulty + tds[b.parent]
      {
        assert StoredAt(blocks, tds, genesis, base, Of(b));
        assert StoredAt(blocks, tds, genesis, base, b.parent);
      }
    }

    /** Stores the block unprocessed, or processes it after its ancestors without state. */
    method InsertPruned(block: Block, lacking: set<Hash>, coins: set<Hash>, good: nat)
      requires Valid() && Aligned() && block.parent in blocks && Proper(block, genesis) && Of(genesis) !in lacking
      modifies this
      ensures Valid() && Aligned() && T() == old(T()).After(Pruned(block, lacking, coins, good)) && old(tds[Of(current)]) <= tds[Of(current)]
    {
      hide AncestorAt, Traced, CanonTo, Index, NoRepeats, Fresh, TotalDifficulty, Known, Positive, AllFresh, Proper;
      CurrentStored();
      ProperExtends(block);
      var localTd := GetTd(Of(current), current.number).value;
      var externTd := block.difficulty + GetTd(block.parent, block.number - 1).value;
      if localTd > externTd {
        WriteBlockWithoutState(block, externTd);
      } else {
        var winner := GatherUnstated(block.parent, lacking);
        UnstatedStored(blocks, block.parent, lacking);
        forall b | b in winner ensures Proper(b, genesis) {
          StoredProper(b);
        }
        InsertAll(UpTo(winner + [block], good), coins);
      }
    }

    /** insertChain on a block whose parent's state is pruned. In numbers and total
        difficulties: a block lighter than the head is stored and nothing else. A heavier or as
        heavy one is stored if it and the `n` ancestors without state are valid, and takes the
        head if it is heavier, or as heavy and lower, or at the same number by the coin. */
    method ImportPruned(block: Block, lacking: set<Hash>, coins: set<Hash>, good: nat)
      requires Valid() && Aligned() && block.parent in blocks && Proper(block, genesis) && Of(genesis) !in lacking
      modifies this
      ensures Valid() && Aligned() && T() == old(T()).After(Pruned(block, lacking, coins, good)) && old(tds[Of(current)]) <= tds[Of(current)]
      ensures var td, local, head := block.difficulty + old(tds)[block.parent], old(tds[Of(current)]), old(current);
              var n := |Unstated(old(blocks), block.parent, lacking)|;
              && (if td >= local && good <= n then blocks == old(blocks) && tds == old(tds)
                  else blocks == old(blocks)[Of(block) := block] && tds == old(tds)[Of(block) := td])
              && (td < local ==> current == head)
              && (td > local && good > n ==> current == block)
              && (td == local && good > n && block.number < head.number ==> current == block)
              && (td == local && good > n && block.number > head.number ==> current == head)
              && (td == local && good > n && block.number == head.number ==> current == if Of(block) in coins then block else head)
    {
      hide AncestorAt, Traced, CanonTo, Index, NoRepeats, Fresh, TotalDifficulty, Known, Positive, AllFresh, Proper, Unstated, Weighed, Tree.After;
      CurrentStored();
      ProperExtends(block);
      TablesWeighed();
      PrunedInFields(T(), genesis, block, lacking, coins, good);
      InsertPruned(block, lacking, coins, good);
    }

    /** Every run of imports stores and chooses just what the fork choice says, and keeps
        table, index and heads those of the heaviest chain. */
    method Run(imports: seq<Import>)
      requires Valid() && Aligned()
      requires forall i :: 0 <= i < |imports| ==> Proper(imports[i].block, genesis) && (imports[i].Pruned? ==> Of(genesis) !in imports[i].lacking)
      modifies this
      ensures Valid() && Aligned() && T() == old(T()).AfterAll(imports) && old(tds[Of(current)]) <= tds[Of(current)]
    {
      hide AncestorAt, Traced, CanonTo, Index, NoRepeats, Fresh, TotalDifficulty, Known, Positive, AllFresh, Proper;
      assert imports[..0] == [];
      for i := 0 to |imports|
        invariant Valid() && Aligned() && T() == old(T()).AfterAll(imports[..i]) && old(tds[Of(current)]) <= tds[Of(current)]
      {
        var block := imports[i].block;
        ProperExtends(block);
        assert imports[..i + 1][..i] == imports[..i];
        if imports[i].Processed? {
          var _ := WriteBlockWithState(block, imports[i].coin);
        } else if block.parent in blocks {
          ImportPruned(block, imports[i].lacking, imports[i].coins, imports[i].good);
        }
      }
      assert imports[..|imports|] == imports;
    }

    /** Up to the head the canonical table is a hash-linked chain without gaps, and the
        lookup table maps exactly the chain's transactions to exactly their places. */
    lemma Describes(n: nat, t: TxId, e: Entry)
      requires Valid()
      ensures canon[0] == Of(genesis) && canon[current.number] == Of(current)
      ensures 0 < n <= current.number ==>
                canon[n] in blocks && blocks[canon[n]].number == n && blocks[canon[n]].parent == canon[n - 1]
      ensures t in lookup && lookup[t] == e <==> Located(current, genesis, t, e)
    {
      hide AncestorAt, Traced, Index, NoRepeats, Fresh, TotalDifficulty;
      CurrentStored();
      AncestorAtZero(current, genesis);
      SelfAncestor(current, genesis);
      IndexIsExact(current, genesis, t, e);
      if 0 < n <= current.number {
        AncestorParent(current, genesis, n);
        AncestorStored(blocks, tds, genesis, base, current, n);
        assert Linked(blocks, genesis, canon[n]);
      }
    }

    /** What the transaction pool reinjects when the head moves off the parent of the new
        one by no more than 64 numbers: the transactions of the abandoned branch that the
        new branch lacks, in the order of the walk. */
    method Reinjection(oldHead: Block, newHead: Block) returns (reinject: seq<TxId>)
      requires Closed(blocks, genesis) && Of(oldHead) in blocks && blocks[Of(oldHead)] == oldHead && Of(newHead) in blocks
      requires blocks[Of(newHead)] == newHead && Traced(oldHead, genesis) && Traced(newHead, genesis) && NoRepeats(oldHead, genesis)
      ensures var depth := if oldHead.number < newHead.number then newHead.number - oldHead.number else oldHead.number - newHead.number;
              if newHead.parent == Of(oldHead) || depth > 64 then reinject == []
              else forall t :: t in reinject <==> t in Index(oldHead, genesis) && t !in Index(newHead, genesis)
    {
      hide AncestorAt, Traced, Path, Txs, Index, IndexAbove, NoRepeats, Kept;
      reinject := [];
      var depth := if oldHead.number < newHead.number then newHead.number - oldHead.number else oldHead.number - newHead.number;
      if newHead.parent != Of(oldHead) && depth <= 64 {
        assert Linked(blocks, genesis, Of(newHead));
        var oldChain, newChain, discarded, k := Fork(oldHead, newHead);
        reinject := TxDifference(discarded, Txs(newChain));
        forall t ensures t in reinject <==> t in Index(oldHead, genesis) && t !in Index(newHead, genesis) {
          Abandoned(oldHead, newHead, k, t);
        }
      }
    }

    /** Above the fork a transaction of the old branch is either on the new one or lost. */
    lemma {:induction false} Abandoned(oldHead: Block, newHead: Block, k: nat, t: TxId)
      requires Traced(oldHead, genesis) && Traced(newHead, genesis) && genesis.number == 0
      requires k <= oldHead.number && k <= newHead.number && NoRepeats(oldHead, genesis)
      requires AncestorAt(oldHead, genesis, k) == AncestorAt(newHead, genesis, k)
      ensures t in Kept(Txs(Path(oldHead, genesis, k)), Txs(Path(newHead, genesis, k)))
              <==> t in Index(oldHead, genesis) && t !in Index(newHead, genesis)
    {
      hide AncestorAt, Traced, Path, Txs, Index, IndexAbove, NoRepeats, Kept;
      KeptMember(Txs(Path(oldHead, genesis, k)), Txs(Path(newHead, genesis, k)), t);
      AboveKeys(oldHead, genesis, k, t);
      AboveKeys(newHead, genesis, k, t);
      IndexSplits(oldHead, genesis, k);
      IndexSplits(newHead, genesis, k);
      if t in IndexAbove(oldHead, genesis, k) {
        AboveIsFresh(oldHead, genesis, k, t);
      }
    }
  }
}
