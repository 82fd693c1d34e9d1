/** HeaderChain: the header and total-difficulty tables, the canonical number table and
    the current header, with the caches in front of the tables. */
module HeaderChains {
  import opened Chains
  import opened Wrappers

  datatype WriteStatus = Canonical | SideChain | UnknownAncestor

  /** The canonical table names exactly the ancestors of `head`, each at its number. */
  ghost predicate Canon(canon: map<nat, Hash>, head: Block, genesis: Block)
    requires Traced(head, genesis) && genesis.number == 0
  {
    && (forall n: nat :: n in canon <==> n <= head.number)
    && (forall n: nat :: n in canon ==> canon[n] == Of(AncestorAt(head, genesis, n)))
  }

  /** A hash-linked chain without gaps from genesis to the head, and nothing above it. */
  lemma CanonIsLinked(canon: map<nat, Hash>, head: Block, genesis: Block)
    requires Traced(head, genesis) && genesis.number == 0 && Canon(canon, head, genesis)
    ensures canon[0] == Of(genesis) && canon[head.number] == Of(head)
    ensures forall n: nat :: 0 < n <= head.number ==> canon[n].Of? && canon[n].block.number == n && canon[n].block.parent == canon[n - 1]
    ensures forall n: nat :: n > head.number ==> n !in canon
  {
    AncestorAtZero(head, genesis);
    forall n: nat | 0 < n <= head.number
      ensures canon[n].Of? && canon[n].block.number == n && canon[n].block.parent == canon[n - 1]
    {
      AncestorParent(head, genesis, n);
    }
  }

  /** The canonical table of `head`, cut off above `number`. */
  ghost predicate CanonUpTo(canon: map<nat, Hash>, head: Block, genesis: Block, number: nat)
    requires Traced(head, genesis) && genesis.number == 0
  {
    && (forall n: nat :: n in canon <==> n <= number && n <= head.number)
    && (forall n: nat :: n in canon ==> canon[n] == Of(AncestorAt(head, genesis, n)))
  }

  /** Every number below the new head names its ancestor, and none above it is left. */
  ghost predicate Rerouted(canon: map<nat, Hash>, header: Block, genesis: Block)
    requires Traced(header, genesis) && genesis.number == 0
  {
    && (forall n: nat :: n in canon ==> n <= header.number)
    && (forall n: nat :: n < header.number ==> n in canon && canon[n] == Of(AncestorAt(header, genesis, n)))
  }

  /** The walk has overwritten the numbers above `k` and left those up to `k` alone. */
  ghost predicate Walked(before: map<nat, Hash>, canon: map<nat, Hash>, header: Block, genesis: Block, k: nat)
    requires Traced(header, genesis) && genesis.number == 0
  {
    && (forall n: nat :: n in canon <==> n in before || k < n < header.number)
    && (forall n: nat :: n <= k && n in canon ==> canon[n] == before[n])
    && (forall n: nat :: k < n < header.number ==> canon[n] == Of(AncestorAt(header, genesis, n)))
  }

  lemma WalkStart(before: map<nat, Hash>, head: Block, header: Block, genesis: Block)
    requires Traced(header, genesis) && genesis.number == 0 && 0 < header.number
    ensures Walked(before, before, header, genesis, header.number - 1)
  {
  }

  lemma WalkStep(before: map<nat, Hash>, canon: map<nat, Hash>, header: Block, genesis: Block, k: nat)
    requires Traced(header, genesis) && genesis.number == 0 && 0 < k < header.number
    requires Walked(before, canon, header, genesis, k)
    ensures Walked(before, canon[k := Of(AncestorAt(header, genesis, k))], header, genesis, k - 1)
  {
  }

  /** The walk cannot miss genesis. */
  lemma WalkNotDone(before: map<nat, Hash>, canon: map<nat, Hash>, head: Block, header: Block, genesis: Block, k: nat)
    requires Traced(header, genesis) && Traced(head, genesis) && genesis.number == 0 && k < header.number
    requires CanonUpTo(before, head, genesis, header.number) && Walked(before, canon, header, genesis, k)
    requires !(k in canon && canon[k] == Of(AncestorAt(header, genesis, k)))
    ensures 0 < k
  {
    AncestorAtZero(head, genesis);
    AncestorAtZero(header, genesis);
    assert 0 in before;
  }

  /** Where the walk meets the old chain, the two chains are one from there down. */
  lemma {:induction false} WalkDone(before: map<nat, Hash>, canon: map<nat, Hash>, head: Block, header: Block, genesis: Block, k: nat)
    requires Traced(header, genesis) && Traced(head, genesis) && genesis.number == 0 && k < header.number
    requires CanonUpTo(before, head, genesis, header.number) && Walked(before, canon, header, genesis, k)
    requires k in canon && canon[k] == Of(AncestorAt(header, genesis, k))
    ensures Rerouted(canon, header, genesis)
  {
    hide AncestorAt, Traced;
    assert k in before && canon[k] == before[k];
    forall n: nat | n < header.number ensures n in canon && canon[n] == Of(AncestorAt(header, genesis, n)) {
      if n < k {
        assert n in before && canon[n] == before[n] == Of(AncestorAt(head, genesis, n));
        SharedBelow(header, head, genesis, k, n);
      }
    }
  }

  lemma ReroutedIsCanon(canon: map<nat, Hash>, header: Block, genesis: Block)
    requires Traced(header, genesis) && genesis.number == 0 && Rerouted(canon, header, genesis)
    ensures Canon(canon[header.number := Of(header)], header, genesis)
  {
    SelfAncestor(header, genesis);
  }

  /** The hashes of the canonical blocks above `k`. */
  ghost function Above(head: Block, genesis: Block, k: nat): set<Hash>
    requires Traced(head, genesis) && genesis.number == 0
  {
    set n: nat | k < n <= head.number :: Of(AncestorAt(head, genesis, n))
  }

  lemma {:induction false} AboveStep(head: Block, genesis: Block, k: nat)
    requires Traced(head, genesis) && genesis.number == 0 && 0 < k <= head.number
    ensures Above(head, genesis, k - 1) == Above(head, genesis, k) + {Of(AncestorAt(head, genesis, k))}
  {
    hide AncestorAt, Traced;
    forall h | h in Above(head, genesis, k - 1)
      ensures h in Above(head, genesis, k) + {Of(AncestorAt(head, genesis, k))}
    {
      var n: nat :| k - 1 < n <= head.number && h == Of(AncestorAt(head, genesis, n));
      assert n == k || k < n;
    }
  }

  lemma {:induction false} NothingAbove(head: Block, genesis: Block, k: nat)
    requires Traced(head, genesis) && genesis.number == 0 && head.number <= k
    ensures Above(head, genesis, k) == {}
  {
  }

  /** The block that `head` is rewound to. */
  ghost function Rewound(head: Block, genesis: Block, k: nat): Block
    requires Traced(head, genesis) && genesis.number == 0
  {
    if k < head.number then AncestorAt(head, genesis, k) else head
  }

  /** Cutting the canonical table above `k` leaves that of the rewound head. */
  lemma {:induction false} CutIsCanon(before: map<nat, Hash>, canon: map<nat, Hash>, head: Block, genesis: Block, k: nat)
    requires Traced(head, genesis) && genesis.number == 0 && Canon(before, head, genesis)
    requires canon == map n: nat | n in before && !(k < n <= head.number) :: before[n]
    ensures Traced(Rewound(head, genesis, k), genesis) && Canon(canon, Rewound(head, genesis, k), genesis)
  {
    hide AncestorAt, Traced;
    if k < head.number {
      forall n: nat | n in canon ensures canon[n] == Of(AncestorAt(AncestorAt(head, genesis, k), genesis, n)) {
        AncestorOfAncestor(head, genesis, k, n);
      }
    } else {
      assert canon == before;
    }
  }

  /** The rewound head and its ancestors are not among the deleted blocks. */
  lemma {:induction false} StillThere(headers: map<Hash, Block>, tds: map<Hash, int>, genesis: Block, base: int, head: Block, k: nat)
    requires Stored(headers, tds, genesis, base) && Of(head) in headers && Traced(head, genesis)
    ensures forall n: nat :: n <= k && n <= head.number ==> Of(AncestorAt(head, genesis, n)) in headers - Above(head, genesis, k)
  {
    hide AncestorAt, Traced, TotalDifficulty;
    forall n: nat | n <= k && n <= head.number ensures Of(AncestorAt(head, genesis, n)) in headers - Above(head, genesis, k) {
      AncestorStored(headers, tds, genesis, base, head, n);
    }
  }

  /** No header that stays is a child of one that goes. */
  ghost predicate NothingHangs(headers: map<Hash, Block>, genesis: Block, gone: set<Hash>) {
    forall h :: h in headers && h !in gone && headers[h] != genesis ==> headers[h].parent !in gone
  }

  /** No header that stays is heavier than `head`. */
  ghost predicate NoneHeavier(tds: map<Hash, int>, gone: set<Hash>, head: Hash) {
    head in tds && forall h :: h in tds && h !in gone ==> tds[h] <= tds[head]
  }

  lemma HeaviestLeft(tds: map<Hash, int>, gone: set<Hash>, head: Hash)
    requires head in tds - gone
    ensures NoneHeavier(tds, gone, head) <==> forall h :: h in tds - gone ==> (tds - gone)[h] <= (tds - gone)[head]
  {
    var rest := tds - gone;
    if forall h :: h in rest ==> rest[h] <= rest[head] {
      forall h | h in tds && h !in gone ensures tds[h] <= tds[head] {
        assert h in rest;
      }
    }
  }

  /** After the blocks above `k` are deleted the table is closed under parents again
      exactly when none of the blocks left hangs from a deleted one. */
  lemma {:induction false} RewindClosed(headers: map<Hash, Block>, tds: map<Hash, int>, genesis: Block, base: int, head: Block, k: nat)
    requires Stored(headers, tds, genesis, base) && Traced(head, genesis)
    ensures var gone := Above(head, genesis, k);
            Stored(headers - gone, tds - gone, genesis, base) <==> NothingHangs(headers, genesis, gone)
  {
    hide AncestorAt, Traced, TotalDifficulty;
    var gone := Above(head, genesis, k);
    var headers', tds' := headers - gone, tds - gone;
    forall h | h in headers ensures StoredAt(headers, tds, genesis, base, h) {
    }
    assert Of(genesis) in headers' && tds'.Keys == headers'.Keys;
    if Stored(headers', tds', genesis, base) {
      forall h | h in headers && h !in gone && headers[h] != genesis ensures headers[h].parent !in gone {
        assert StoredAt(headers', tds', genesis, base, h);
      }
    }
    if forall h :: h in headers && h !in gone && headers[h] != genesis ==> headers[h].parent !in gone {
      forall h | h in headers' ensures StoredAt(headers', tds', genesis, base, h) {
        assert StoredAt(headers, tds, genesis, base, h);
      }
    }
  }

  /** The headers known after a batch: those that extend a known one when their turn comes. */
  ghost function Gathered(headers: map<Hash, Block>, batch: seq<(Block, bool)>): map<Hash, Block> {
    if batch == [] then headers
    else
      var known, header := Gathered(headers, batch[..|batch| - 1]), batch[|batch| - 1].0;
      if header.parent in known then known[Of(header) := header] else known
  }

  /** The parent of header `i` is known when its turn comes. */
  ghost predicate Extends(headers: map<Hash, Block>, batch: seq<(Block, bool)>, i: nat) {
    i < |batch| && batch[i].0.parent in Gathered(headers, batch[..i])
  }

  lemma EarlierExtends(headers: map<Hash, Block>, batch: seq<(Block, bool)>, i: nat)
    requires 0 < |batch| && i < |batch| - 1
    ensures Extends(headers, batch[..|batch| - 1], i) <==> Extends(headers, batch, i)
  {
    assert batch[..|batch| - 1][..i] == batch[..i];
  }

  /** Over a batch no header is lost, none is stored that was not given, and each is stored whose
      parent is known when its turn comes. */
  lemma {:induction false} GatheredIs(headers: map<Hash, Block>, batch: seq<(Block, bool)>, h: Hash)
    ensures h in Gathered(headers, batch) <==> h in headers || exists i: nat :: Extends(headers, batch, i) && h == Of(batch[i].0)
  {
    if batch != [] {
      var n := |batch| - 1;
      GatheredIs(headers, batch[..n], h);
      assert Extends(headers, batch, n) <==> batch[n].0.parent in Gathered(headers, batch[..n]);
      hide Extends;
      forall i: nat | i < n ensures Extends(headers, batch[..n], i) <==> Extends(headers, batch, i) {
        EarlierExtends(headers, batch, i);
      }
      if exists i: nat :: Extends(headers, batch[..n], i) && h == Of(batch[..n][i].0) {
        var i: nat :| Extends(headers, batch[..n], i) && h == Of(batch[..n][i].0);
        assert Extends(headers, batch, i);
      }
    }
  }

  /** A least-recently-used cache may forget entries whenever one is added. */
  method Cached<V>(cache: map<Hash, V>, h: Hash, v: V) returns (r: map<Hash, V>)
    ensures h in r && r[h] == v
    ensures forall k :: k in r ==> k == h || (k in cache && r[k] == cache[k])
  {
    assert {} <= cache.Keys;
    var keep: set<Hash> :| keep <= cache.Keys;
    r := (map k | k in keep :: cache[k])[h := v];
  }

  class HeaderChain {
    const genesis: Block
    ghost const base: int
    var headers: map<Hash, Block>
    var tds: map<Hash, int>
    var canon: map<nat, Hash>
    var headHash: Hash
    var current: Block
    var currentHash: Hash
    var headerCache: map<Hash, Block>
    var tdCache: map<Hash, int>
    var numberCache: map<Hash, nat>

    /** What the caches hold is what the tables hold. */
    ghost predicate Coherent()
      reads `headers, `tds, `headerCache, `tdCache, `numberCache
    {
      && (forall h :: h in headerCache ==> h in headers && headerCache[h] == headers[h])
      && (forall h :: h in tdCache ==> h in tds && tdCache[h] == tds[h])
      && (forall h :: h in numberCache ==> h in headers && numberCache[h] == headers[h].number)
    }

    ghost predicate Tables()
      reads `headers, `tds, `headerCache, `tdCache, `numberCache
    {
      Stored(headers, tds, genesis, base) && Coherent()
    }

    ghost predicate Valid()
      reads this
    {
      && Tables() && currentHash == headHash == Of(current) && Of(current) in headers
      && Traced(current, genesis) && Canon(canon, current, genesis)
      && (forall h :: h in tds ==> tds[h] <= tds[currentHash])
    }

    constructor (genesisHeader: Block)
      requires genesisHeader.number == 0
      ensures Valid() && current == genesisHeader == genesis && base == genesisHeader.difficulty
    {
      genesis, base := genesisHeader, genesisHeader.difficulty;
      headers, tds := map[Of(genesisHeader) := genesisHeader], map[Of(genesisHeader) := genesisHeader.difficulty];
      canon := map[0 := Of(genesisHeader)];
      headHash, current, currentHash := Of(genesisHeader), genesisHeader, Of(genesisHeader);
      headerCache, tdCache, numberCache := map[], map[], map[];
      new;
      assert headers.Keys == {Of(genesis)} == tds.Keys;
      assert StoredAt(headers, tds, genesis, base, Of(genesis));
      assert AncestorAt(genesis, genesis, 0) == genesis;
    }

    method GetTd(hash: Hash, number: nat) returns (td: Option<int>)
      requires Tables()
      modifies this`tdCache
      ensures Tables()
      ensures td.Some? ==> hash in tds && td.value == tds[hash]
      ensures td.None? ==> hash !in tds || headers[hash].number != number
    {
      if hash in tdCache {
        return Some(tdCache[hash]);
      }
      if hash !in tds || headers[hash].number != number {
        return None;
      }
      td := Some(tds[hash]);
      tdCache := Cached(tdCache, hash, tds[hash]);
    }

    /** Every header, in the table or the cache, is filed under its own hash. */
    ghost predicate Named()
      reads `headers, `headerCache
    {
      && (forall h :: h in headers ==> h == Of(headers[h]))
      && (forall h :: h in headerCache ==> h == Of(headerCache[h]))
    }

    lemma TablesNamed()
      requires Tables()
      ensures Named()
    {
      forall h | h in headers ensures h == Of(headers[h]) {
        assert StoredAt(headers, tds, genesis, base, h);
      }
    }

    method GetHeader(hash: Hash, number: nat) returns (header: Option<Block>)
      modifies this`headerCache
      ensures old(Named()) ==> Named() && (header.Some? ==> hash == Of(header.value))
      ensures old(Tables()) ==> Tables() && (header.Some? ==> hash in headers && header.value == headers[hash])
      ensures header.None? ==> hash !in headers || headers[hash].number != number
    {
      if hash in headerCache {
        return Some(headerCache[hash]);
      }
      if hash !in headers || headers[hash].number != number {
        return None;
      }
      header := Some(headers[hash]);
      headerCache := Cached(headerCache, hash, headers[hash]);
    }

    method WriteTd(hash: Hash, td: int)
      modifies this`tds, this`tdCache
      ensures tds == old(tds)[hash := td]
      ensures forall h :: h in tdCache ==> (h == hash && tdCache[h] == td) || (h in old(tdCache) && tdCache[h] == old(tdCache)[h])
    {
      tds := tds[hash := td];
      tdCache := Cached(tdCache, hash, td);
    }

    /** WriteHeader: stores a header whose parent is known. If it is heavier than the
        current header, or as heavy and the coin says so, it becomes the head of the
        canonical chain. The caller has verified that its number follows its parent's. */
    method WriteHeader(header: Block, coin: bool) returns (status: WriteStatus)
      requires Valid()
      requires header.parent in headers ==> header.number == headers[header.parent].number + 1
      modifies this
      ensures Valid()
      ensures status == UnknownAncestor <==> header.parent !in old(headers)
      ensures status == UnknownAncestor ==> headers == old(headers) && tds == old(tds) && canon == old(canon) && current == old(current)
      ensures status != UnknownAncestor ==>
                && headers == old(headers)[Of(header) := header]
                && tds == old(tds)[Of(header) := header.difficulty + old(tds)[header.parent]]
                && (status == Canonical <==> tds[Of(header)] > old(tds[currentHash]) || (tds[Of(header)] == old(tds[currentHash]) && coin))
                && current == (if status == Canonical then header else old(current))
      ensures old(tds[currentHash]) <= tds[currentHash]
    {
      hide AncestorAt, Traced, Canon;
      assert header.parent in headers ==> StoredAt(headers, tds, genesis, base, header.parent);
      var number := header.number;
      if number == 0 {
        return UnknownAncestor;
      }
      var ptd := GetTd(header.parent, number - 1);
      if ptd.None? {
        return UnknownAncestor;
      }
      status := Insert(header, header.difficulty + ptd.value, coin);
    }

    /** WriteHeader once the parent's total difficulty is known. */
    method Insert(header: Block, externTd: int, coin: bool) returns (status: WriteStatus)
      requires Valid() && header.parent in headers && header.number == headers[header.parent].number + 1
      requires externTd == header.difficulty + tds[header.parent]
      modifies this
      ensures Valid() && status != UnknownAncestor
      ensures headers == old(headers)[Of(header) := header] && tds == old(tds)[Of(header) := externTd]
      ensures status == Canonical <==> externTd > old(tds[currentHash]) || (externTd == old(tds[currentHash]) && coin)
      ensures current == if status == Canonical then header else old(current)
      ensures old(tds[currentHash]) <= tds[currentHash]
    {
      hide AncestorAt, Traced, Canon, Stored, TotalDifficulty, Coherent;
      CurrentStored();
      var localTd := GetTd(currentHash, current.number);
      StoreChild(headers, tds, genesis, base, header);
      SameTd(header);
      Record(header, externTd);
      if externTd > localTd.value || (externTd == localTd.value && coin) {
        MakeHead(header);
        status := Canonical;
      } else {
        status := SideChain;
      }
      Remember(header);
    }

    lemma CurrentStored()
      requires Valid()
      ensures currentHash in tds && headers[currentHash] == current
    {
      assert StoredAt(headers, tds, genesis, base, currentHash);
    }

    /** Writing a stored header again writes the same total difficulty. */
    lemma SameTd(header: Block)
      requires Tables() && header.parent in headers && header.number == headers[header.parent].number + 1
      ensures Of(header) in headers ==> tds[Of(header)] == header.difficulty + tds[header.parent]
    {
      StoreChild(headers, tds, genesis, base, header);
      assert Of(header) in headers ==> StoredAt(headers, tds, genesis, base, Of(header));
    }

    method Remember(header: Block)
      requires Tables() && Of(header) in headers && headers[Of(header)] == header
      modifies this`headerCache, this`numberCache
      ensures Tables()
    {
      headerCache := Cached(headerCache, Of(header), header);
      numberCache := Cached(numberCache, Of(header), header.number);
    }

    /** Writes a header and its total difficulty to the tables. */
    method Record(header: Block, td: int)
      requires Tables() && Stored(headers[Of(header) := header], tds[Of(header) := td], genesis, base)
      requires Of(header) in headers ==> tds[Of(header)] == td
      modifies this`headers, this`tds, this`tdCache
      ensures Tables() && headers == old(headers)[Of(header) := header] && tds == old(tds)[Of(header) := td]
    {
      assert forall h :: h in headers ==> StoredAt(headers, tds, genesis, base, h);
      WriteTd(Of(header), td);
      headers := headers[Of(header) := header];
    }

    /** Makes a stored header the head of the canonical chain. */
    method MakeHead(header: Block)
      requires Tables() && Traced(current, genesis) && Canon(canon, current, genesis)
      requires Traced(header, genesis) && 0 < header.number && header.parent in headers
      modifies this`canon, this`headHash, this`currentHash, this`current, this`headerCache
      ensures Tables() && current == header && currentHash == headHash == Of(header)
      ensures Canon(canon, header, genesis)
    {
      assert genesis.number == 0;
      hide AncestorAt, Traced, Canon, Rerouted, CanonUpTo, Stored, Coherent;
      DeleteAbove(header.number);
      Reroute(header);
      ReroutedIsCanon(canon, header, genesis);
      canon := canon[header.number := Of(header)];
      headHash := Of(header);
      currentHash, current := Of(header), header;
    }

    /** The first loop: deletes canonical numbers above the new head, as far as they go. */
    method DeleteAbove(number: nat)
      requires Traced(current, genesis) && genesis.number == 0 && Canon(canon, current, genesis)
      modifies this`canon
      ensures CanonUpTo(canon, current, genesis, number)
    {
      hide AncestorAt, Traced;
      var i := number + 1;
      while i in canon
        invariant i >= number + 1
        invariant forall n: nat :: n in canon <==> n in old(canon) && !(number < n < i)
        invariant forall n: nat :: n in canon ==> canon[n] == old(canon)[n]
        decreases current.number + 1 - i
      {
        canon := canon - {i};
        i := i + 1;
      }
    }

    /** The second loop: walks down from the parent of the new head and overwrites
        canonical entries until it meets one that is already right. */
    method Reroute(header: Block)
      requires Tables() && Traced(current, genesis) && Traced(header, genesis) && 0 < header.number
      requires header.parent in headers && CanonUpTo(canon, current, genesis, header.number)
      modifies this`canon, this`headerCache
      ensures Tables() && Rerouted(canon, header, genesis)
    {
      hide AncestorAt, Traced, Walked, CanonUpTo, Rerouted, Coherent;
      assert StoredAt(headers, tds, genesis, base, header.parent);
      ghost var before := canon;
      var headHash, headNumber := header.parent, header.number - 1;
      AncestorParent(header, genesis, header.number);
      SelfAncestor(header, genesis);
      WalkStart(before, current, header, genesis);
      var headHeader := GetHeader(headHash, headNumber);
      while !(headNumber in canon && canon[headNumber] == headHash)
        invariant Tables() && 0 <= headNumber < header.number
        invariant headHash in headers && headHash == Of(AncestorAt(header, genesis, headNumber))
        invariant headHeader == Some(headers[headHash])
        invariant Walked(before, canon, header, genesis, headNumber)
        decreases headNumber
      {
        WalkNotDone(before, canon, current, header, genesis, headNumber);
        Descend(header, headNumber, headHash);
        WalkStep(before, canon, header, genesis, headNumber);
        canon := canon[headNumber := headHash];
        headHash := headHeader.value.parent;
        headNumber := headHeader.value.number - 1;
        headHeader := GetHeader(headHash, headNumber);
      }
      WalkDone(before, canon, current, header, genesis, headNumber);
    }

    /** Above genesis the walk can go on: the parent is stored, one number below. */
    lemma Descend(header: Block, n: nat, h: Hash)
      requires Tables() && Traced(header, genesis) && 0 < n < header.number
      requires h in headers && h == Of(AncestorAt(header, genesis, n))
      ensures headers[h].number == n && headers[h].parent in headers
      ensures headers[h].parent == Of(AncestorAt(header, genesis, n - 1)) && headers[headers[h].parent].number == n - 1
    {
      assert StoredAt(headers, tds, genesis, base, h);
      AncestorParent(header, genesis, n);
      assert StoredAt(headers, tds, genesis, base, headers[h].parent);
    }

    /** SetHead: deletes the current header and moves to its parent until the height is
        right, then drops the canonical numbers above and purges the caches. Headers of
        side branches stay, even where their parents are deleted or the head is lighter: the
        chain is whole again if and only if there are none of either kind. */
    method SetHead(head: nat)
      requires Valid()
      modifies this
      ensures old(Traced(current, genesis)) && Traced(current, genesis) && genesis.number == 0
      ensures current == Rewound(old(current), genesis, head) && currentHash == headHash == Of(current)
      ensures Canon(canon, current, genesis) && Coherent()
      ensures headers == old(headers) - Above(old(current), genesis, head) && tds == old(tds) - Above(old(current), genesis, head)
      ensures forall n: nat :: n <= current.number ==> Of(AncestorAt(current, genesis, n)) in headers
      ensures var gone := Above(old(current), genesis, head);
              Valid() <==> NothingHangs(old(headers), genesis, gone) && NoneHeavier(old(tds), gone, Of(Rewound(old(current), genesis, head)))
    {
      hide AncestorAt, Traced, Canon, TotalDifficulty, Above, Rewound, NothingHangs, NoneHeavier, Stored;
      RewindClosed(headers, tds, genesis, base, current, head);
      RewindTo(head);
      HeaviestLeft(old(tds), Above(old(current), genesis, head), currentHash);
    }

    method RewindTo(head: nat)
      requires Valid()
      modifies this
      ensures old(Traced(current, genesis)) && Traced(current, genesis) && genesis.number == 0
      ensures current == Rewound(old(current), genesis, head) && currentHash == headHash == Of(current)
      ensures Canon(canon, current, genesis) && Coherent() && Of(current) in headers && Of(current) in tds
      ensures headers == old(headers) - Above(old(current), genesis, head) && tds == old(tds) - Above(old(current), genesis, head)
      ensures forall n: nat :: n <= current.number ==> Of(AncestorAt(current, genesis, n)) in headers
    {
      hide AncestorAt, Traced, Canon, TotalDifficulty, Above;
      var height := current.number;
      Rewind(head);
      DropNumbers(height, head);
      CutIsCanon(old(canon), canon, old(current), genesis, head);
      headerCache, tdCache, numberCache := map[], map[], map[];
      currentHash := Of(current);
      headHash := currentHash;
    }

    /** The first loop of SetHead. */
    method Rewind(head: nat)
      requires Valid()
      modifies this`headers, this`tds, this`current, this`headerCache
      ensures old(Traced(current, genesis)) && Traced(current, genesis) && genesis.number == 0
      ensures current == Rewound(old(current), genesis, head)
      ensures headers == old(headers) - Above(old(current), genesis, head) && tds == old(tds) - Above(old(current), genesis, head)
      ensures forall n: nat :: n <= current.number ==> Of(AncestorAt(current, genesis, n)) in headers
      ensures Of(current) in headers && Of(current) in tds
    {
      hide AncestorAt, Traced, Canon, TotalDifficulty, Above;
      ghost var top, headers0, tds0 := current, headers, tds;
      TablesNamed();
      NothingAbove(top, genesis, top.number);
      SelfAncestor(top, genesis);
      while current.number > head
        invariant current.number <= top.number && (head <= current.number || current == top)
        invariant current == AncestorAt(top, genesis, current.number) && Named()
        invariant headers == headers0 - Above(top, genesis, current.number)
        invariant tds == tds0 - Above(top, genesis, current.number)
        decreases current.number
      {
        var hash, num := Of(current), current.number;
        AboveStep(top, genesis, num);
        AncestorParent(top, genesis, num);
        StillThere(headers0, tds0, genesis, base, top, num - 1);
        headers, tds := headers - {hash}, tds - {hash};
        assert headers == headers0 - Above(top, genesis, num - 1);
        assert tds == tds0 - Above(top, genesis, num - 1);
        var parent := GetHeader(current.parent, num - 1);
        current := parent.value;
      }
      if top.number <= head {
        NothingAbove(top, genesis, head);
      }
      StillThere(headers0, tds0, genesis, base, top, current.number);
      forall n: nat | n <= current.number ensures Of(AncestorAt(current, genesis, n)) in headers {
        AncestorOfAncestor(top, genesis, current.number, n);
      }
    }

    /** The second loop of SetHead. */
    method DropNumbers(height: nat, head: nat)
      modifies this`canon
      ensures canon == map n: nat | n in old(canon) && !(head < n <= height) :: old(canon)[n]
    {
      var i := height;
      while i > head
        invariant i <= height && (head <= i || i == height)
        invariant canon == map n: nat | n in old(canon) && !(i < n <= height) :: old(canon)[n]
      {
        canon := canon - {i};
        i := i - 1;
      }
    }

    /** NewHeaderChain on a database of earlier runs, which knows the first header. The header of
        the head block is taken up as the head header, or the first one if the head block is not
        known. The chain is whole if and only if the tables are closed, that is the header
        recorded last, the canonical table is its ancestry and no header is heavier. */
    constructor Reopened(genesisHeader: Block, ghost genesisTd: int, headers: map<Hash, Block>, tds: map<Hash, int>,
                         canon: map<nat, Hash>, headBlock: Hash, lastHeader: Hash)
      requires Of(genesisHeader) in headers
      ensures genesis == genesisHeader && base == genesisTd && this.headers == headers && this.tds == tds && this.canon == canon && headHash == lastHeader
      ensures current == (if headBlock in headers then headers[headBlock] else genesis) && currentHash == Of(current) && Coherent()
      ensures Valid() <==>
                && Stored(headers, tds, genesis, base) && lastHeader == currentHash
                && Traced(current, genesis) && Of(current) in headers && Canon(canon, current, genesis)
                && forall h :: h in tds ==> tds[h] <= tds[currentHash]
    {
      var head := if headBlock in headers then headers[headBlock] else genesisHeader;
      genesis, base, this.headers, this.tds, this.canon := genesisHeader, genesisTd, headers, tds, canon;
      headHash, current, currentHash := lastHeader, head, Of(head);
      headerCache, tdCache, numberCache := map[], map[], map[];
    }

    /** Every run of WriteHeader calls keeps the chain valid, stores exactly the headers
        whose parents it knows by then, and never lowers the head's total difficulty. */
    method Run(batch: seq<(Block, bool)>)
      requires Valid()
      requires forall i :: 0 <= i < |batch| && batch[i].0.parent.Of? ==> batch[i].0.number == batch[i].0.parent.block.number + 1
      modifies this
      ensures Valid() && old(tds[currentHash]) <= tds[currentHash] && headers == Gathered(old(headers), batch)
    {
      hide AncestorAt, Traced, Canon, TotalDifficulty;
      var i := 0;
      while i < |batch|
        invariant 0 <= i <= |batch| && Valid() && old(tds[currentHash]) <= tds[currentHash]
        invariant headers == Gathered(old(headers), batch[..i])
      {
        TablesNamed();
        assert batch[..i + 1][..i] == batch[..i];
        var _ := WriteHeader(batch[i].0, batch[i].1);
        i := i + 1;
      }
      assert batch[..i] == batch;
    }
  }

  /** A first header, two above it, and one more on the lower of these. */
  const FIRST := Block(Raw(0), 0, 1, [], 0)
  const LOWER := Block(Of(FIRST), 1, 5, [], 0)
  const UPPER := Block(Of(LOWER), 2, 5, [], 0)
  const ASIDE := Block(Of(LOWER), 2, 1, [], 1)

  /** Rewinding to the first header deletes the two canonical ones and leaves the one aside,
      which then hangs from a deleted header and is heavier than the head. */
  method Leftover() returns (hc: HeaderChain)
    ensures hc.current == FIRST && Of(ASIDE) in hc.headers && ASIDE.parent !in hc.headers
    ensures Of(ASIDE) in hc.tds && hc.currentHash in hc.tds && hc.tds[Of(ASIDE)] > hc.tds[hc.currentHash] && !hc.Valid()
  {
    hide Canon;
    hc := new HeaderChain(FIRST);
    assert StoredAt(hc.headers, hc.tds, FIRST, 1, Of(FIRST));
    var _ := hc.WriteHeader(LOWER, false);
    var _ := hc.WriteHeader(UPPER, false);
    var _ := hc.WriteHeader(ASIDE, false);
    assert Above(UPPER, FIRST, 0) == {Of(LOWER), Of(UPPER)} by {
      AboveStep(UPPER, FIRST, 1);
      AboveStep(UPPER, FIRST, 2);
      NothingAbove(UPPER, FIRST, 2);
    }
    hc.SetHead(0);
  }
}
