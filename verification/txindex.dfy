/** The transaction lookup index of a chain, and what a reorganisation does to it. */
module TxIndex {
  import opened Chains

  /** Where a transaction was included. */
  datatype Entry = Entry(blockHash: Hash, blockNumber: nat, index: nat)

  type Lookup = map<TxId, Entry>

  /** The entries of the first `n` transactions of a block; a later one overwrites. */
  function EntriesTo(b: Block, n: nat): Lookup
    requires n <= |b.txs|
  {
    if n == 0 then map[] else EntriesTo(b, n - 1)[b.txs[n - 1] := Entry(Of(b), b.number, n - 1)]
  }

  function Entries(b: Block): Lookup {
    EntriesTo(b, |b.txs|)
  }

  /** The index of the chain that ends in `b`. The genesis block carries no transactions. */
  ghost function Index(b: Block, genesis: Block): Lookup
    requires Traced(b, genesis)
  {
    if b == genesis then map[] else Index(b.parent.block, genesis) + Entries(b)
  }

  /** The part of the index that stems from the blocks above height `k`. */
  ghost function IndexAbove(b: Block, genesis: Block, k: nat): Lookup
    requires Traced(b, genesis) && genesis.number == 0
  {
    if b.number <= k || b == genesis then map[] else IndexAbove(b.parent.block, genesis, k) + Entries(b)
  }

  /** No transaction is included twice on the way to `b`. */
  ghost predicate NoRepeats(b: Block, genesis: Block)
    requires Traced(b, genesis)
  {
    b == genesis || (NoRepeats(b.parent.block, genesis) && Fresh(b, genesis))
  }

  /** None of the block's transactions is in its parent's chain or twice in the block. */
  ghost predicate Fresh(b: Block, genesis: Block)
    requires Traced(b, genesis) && b != genesis
  {
    && (forall i :: 0 <= i < |b.txs| ==> b.txs[i] !in Index(b.parent.block, genesis))
    && (forall i, j :: 0 <= i < j < |b.txs| ==> b.txs[i] != b.txs[j])
  }

  /** The blocks from `b` down to height `k`, the latter excluded. */
  ghost function Path(b: Block, genesis: Block, k: nat): seq<Block>
    requires Traced(b, genesis) && genesis.number == 0
  {
    if b.number <= k || b == genesis then [] else [b] + Path(b.parent.block, genesis, k)
  }

  function Txs(chain: seq<Block>): seq<TxId> {
    if chain == [] then [] else chain[0].txs + Txs(chain[1..])
  }

  lemma {:induction false} TxsAppend(chain: seq<Block>, b: Block)
    ensures Txs(chain + [b]) == Txs(chain) + b.txs
  {
    if chain == [] {
      assert chain + [b] == [b];
      assert Txs([]) == [];
    } else {
      assert (chain + [b])[1..] == chain[1..] + [b];
      TxsAppend(chain[1..], b);
    }
  }

  lemma {:induction false} PathStep(b: Block, genesis: Block, k: nat)
    requires Traced(b, genesis) && genesis.number == 0 && 0 < k <= b.number
    ensures Path(b, genesis, k - 1) == Path(b, genesis, k) + [AncestorAt(b, genesis, k)]
    decreases b
  {
    if k < b.number {
      PathStep(b.parent.block, genesis, k);
    }
  }

  lemma {:induction false} PathAt(b: Block, genesis: Block, k: nat, i: nat)
    requires Traced(b, genesis) && genesis.number == 0 && k <= b.number && i < b.number - k
    ensures |Path(b, genesis, k)| == b.number - k && Path(b, genesis, k)[i] == AncestorAt(b, genesis, b.number - i)
    decreases b
  {
    if k + 1 < b.number {
      PathAt(b.parent.block, genesis, k, if i == 0 then 0 else i - 1);
    }
  }

  lemma {:induction false} PathEmpty(b: Block, genesis: Block, k: nat)
    requires Traced(b, genesis) && genesis.number == 0 && b.number <= k
    ensures Path(b, genesis, k) == []
  {
  }

  lemma {:induction false} EntriesKeys(b: Block, n: nat, t: TxId)
    requires n <= |b.txs|
    ensures t in EntriesTo(b, n) <==> t in b.txs[..n]
  {
    if n > 0 {
      EntriesKeys(b, n - 1, t);
      assert b.txs[..n] == b.txs[..n - 1] + [b.txs[n - 1]];
    }
  }

  lemma BlockKeys(b: Block, t: TxId)
    ensures t in Entries(b) <==> t in b.txs
  {
    EntriesKeys(b, |b.txs|, t);
    assert b.txs[..|b.txs|] == b.txs;
  }

  /** The index splits at any height. */
  lemma {:induction false} IndexSplits(b: Block, genesis: Block, k: nat)
    requires Traced(b, genesis) && genesis.number == 0 && k <= b.number
    ensures Index(b, genesis) == Index(AncestorAt(b, genesis, k), genesis) + IndexAbove(b, genesis, k)
    decreases b
  {
    if k < b.number {
      IndexSplits(b.parent.block, genesis, k);
    }
  }

  lemma {:induction false} AboveKeys(b: Block, genesis: Block, k: nat, t: TxId)
    requires Traced(b, genesis) && genesis.number == 0
    ensures t in IndexAbove(b, genesis, k) <==> t in Txs(Path(b, genesis, k))
    decreases b
  {
    if b.number > k && b != genesis {
      AboveKeys(b.parent.block, genesis, k, t);
      BlockKeys(b, t);
    }
  }

  /** On a chain without repeats nothing above a height is also below it. */
  lemma {:induction false} AboveIsFresh(b: Block, genesis: Block, k: nat, t: TxId)
    requires Traced(b, genesis) && genesis.number == 0 && k <= b.number && NoRepeats(b, genesis)
    requires t in IndexAbove(b, genesis, k)
    ensures t !in Index(AncestorAt(b, genesis, k), genesis)
    decreases b
  {
    if k < b.number {
      var p := b.parent.block;
      if t in IndexAbove(p, genesis, k) {
        AboveIsFresh(p, genesis, k, t);
      } else {
        BlockKeys(b, t);
        IndexSplits(p, genesis, k);
        var i :| 0 <= i < |b.txs| && b.txs[i] == t;
        assert Fresh(b, genesis) && b.txs[i] !in Index(p, genesis);
      }
    }
  }

  /** The entry of one transaction of the chain: its block is the canonical one at its
      number and holds it at the index. */
  ghost predicate Located(b: Block, genesis: Block, t: TxId, e: Entry)
    requires Traced(b, genesis) && genesis.number == 0
  {
    && 0 < e.blockNumber <= b.number
    && var a := AncestorAt(b, genesis, e.blockNumber);
       e.blockHash == Of(a) && e.index < |a.txs| && a.txs[e.index] == t
  }

  lemma {:induction false} EntryAt(b: Block, n: nat, t: TxId)
    requires n <= |b.txs| && t in EntriesTo(b, n)
    ensures var e := EntriesTo(b, n)[t]; e.blockHash == Of(b) && e.blockNumber == b.number && e.index < n && b.txs[e.index] == t
  {
    if t != b.txs[n - 1] {
      EntryAt(b, n - 1, t);
    }
  }

  /** Every entry of the index points at its transaction, on the chain itself. */
  lemma {:induction false} IndexIsLocated(b: Block, genesis: Block, t: TxId)
    requires Traced(b, genesis) && genesis.number == 0 && t in Index(b, genesis)
    ensures Located(b, genesis, t, Index(b, genesis)[t])
    decreases b
  {
    if t in Entries(b) {
      EntryAt(b, |b.txs|, t);
    } else {
      IndexIsLocated(b.parent.block, genesis, t);
    }
  }

  /** And every transaction on the chain is in the index. */
  lemma {:induction false} LocatedIsIndexed(b: Block, genesis: Block, t: TxId, e: Entry)
    requires Traced(b, genesis) && genesis.number == 0 && Located(b, genesis, t, e)
    ensures t in Index(b, genesis)
    decreases b
  {
    if e.blockNumber == b.number {
      BlockKeys(b, t);
    } else {
      LocatedIsIndexed(b.parent.block, genesis, t, e);
    }
  }

  /** A transaction of a chain without repeats has one location. */
  lemma {:induction false} LocationUnique(b: Block, genesis: Block, t: TxId, e: Entry, f: Entry)
    requires Traced(b, genesis) && genesis.number == 0 && NoRepeats(b, genesis)
    requires Located(b, genesis, t, e) && Located(b, genesis, t, f)
    ensures e == f
    decreases b
  {
    var p := b.parent.block;
    if e.blockNumber < b.number && f.blockNumber < b.number {
      LocationUnique(p, genesis, t, e, f);
    } else if e.blockNumber < b.number {
      LocatedIsIndexed(p, genesis, t, e);
    } else if f.blockNumber < b.number {
      LocatedIsIndexed(p, genesis, t, f);
    }
  }

  /** The index maps exactly the transactions of the chain to exactly their places. */
  lemma IndexIsExact(b: Block, genesis: Block, t: TxId, e: Entry)
    requires Traced(b, genesis) && genesis.number == 0 && NoRepeats(b, genesis)
    ensures Located(b, genesis, t, e) <==> t in Index(b, genesis) && Index(b, genesis)[t] == e
  {
    if t in Index(b, genesis) {
      IndexIsLocated(b, genesis, t);
    }
    if Located(b, genesis, t, e) {
      LocatedIsIndexed(b, genesis, t, e);
      LocationUnique(b, genesis, t, e, Index(b, genesis)[t]);
    }
  }

  /** What a reorganisation from `from` to `dest` leaves in the lookup table: entries of
      the new blocks are written over the old index, then those transactions of the old
      blocks that the new ones lack are deleted. */
  ghost function Relinked(from: Block, dest: Block, genesis: Block, k: nat): Lookup
    requires Traced(from, genesis) && Traced(dest, genesis) && genesis.number == 0
  {
    var gone := set t | t in Txs(Path(from, genesis, k)) && t !in Txs(Path(dest, genesis, k));
    Index(from, genesis) + IndexAbove(dest, genesis, k) - gone
  }

  /** The result is the new chain's index if and only if no transaction of the shared
      part is repeated above it on the old chain and missing from the new one. */
  lemma {:induction false} RelinkedIsIndex(from: Block, dest: Block, genesis: Block, k: nat)
    requires Traced(from, genesis) && Traced(dest, genesis) && genesis.number == 0 && k <= from.number && k <= dest.number
    requires AncestorAt(from, genesis, k) == AncestorAt(dest, genesis, k)
    ensures Relinked(from, dest, genesis, k) == Index(dest, genesis)
            <==> forall t :: t in Txs(Path(from, genesis, k)) && t in Index(AncestorAt(from, genesis, k), genesis) ==> t in Txs(Path(dest, genesis, k))
  {
    hide AncestorAt, Traced, Index, IndexAbove, Path, Txs;
    var shared := Index(AncestorAt(from, genesis, k), genesis);
    IndexSplits(from, genesis, k);
    IndexSplits(dest, genesis, k);
    forall t ensures t in IndexAbove(from, genesis, k) <==> t in Txs(Path(from, genesis, k)) {
      AboveKeys(from, genesis, k, t);
    }
    forall t ensures t in IndexAbove(dest, genesis, k) <==> t in Txs(Path(dest, genesis, k)) {
      AboveKeys(dest, genesis, k, t);
    }
    RelinkedMaps(shared, IndexAbove(from, genesis, k), IndexAbove(dest, genesis, k),
                 set t | t in Txs(Path(from, genesis, k)) && t !in Txs(Path(dest, genesis, k)));
  }

  /** The same on plain maps. */
  lemma RelinkedMaps(shared: Lookup, left: Lookup, right: Lookup, gone: set<TxId>)
    requires gone == left.Keys - right.Keys
    ensures shared + left + right - gone == shared + right <==> forall t :: t in left && t in shared ==> t in right
  {
    var a, b := shared + left + right - gone, shared + right;
    if forall t :: t in left && t in shared ==> t in right {
      assert a.Keys == b.Keys;
    }
    if a == b {
      forall t | t in left && t in shared ensures t in right {
        assert t in b && t in a;
      }
    }
  }

  /** Without repeats on the old chain a reorganisation yields the new chain's index. */
  lemma {:induction false} ReorgIndex(from: Block, dest: Block, genesis: Block, k: nat)
    requires Traced(from, genesis) && Traced(dest, genesis) && genesis.number == 0 && k <= from.number && k <= dest.number
    requires AncestorAt(from, genesis, k) == AncestorAt(dest, genesis, k) && NoRepeats(from, genesis)
    ensures Relinked(from, dest, genesis, k) == Index(dest, genesis)
  {
    hide AncestorAt, Traced, Index, IndexAbove, Path, Txs;
    RelinkedIsIndex(from, dest, genesis, k);
    forall t | t in Txs(Path(from, genesis, k)) ensures t !in Index(AncestorAt(from, genesis, k), genesis) {
      AboveKeys(from, genesis, k, t);
      AboveIsFresh(from, genesis, k, t);
    }
  }
}
