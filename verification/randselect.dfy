/** The weighted random selection tree of the light client's server pool. */
module RandSelect {
  import opened Wrappers
  import opened WeightedSlots

  /** How many items a node of a level can hold. */
  function Capacity(level: nat): (c: nat)
    ensures c > 0
  {
    if level == 0 then BRANCHES else BRANCHES * Capacity(level - 1)
  }

  function Reweighed(x: Slot, weight: int): Slot
    requires x.Held?
  {
    if weight == 0 then Free else Held(x.item, weight)
  }

  ghost predicate Apart(reprs: seq<set<object>>) {
    forall i, j :: 0 <= i < j < |reprs| ==> reprs[i] !! reprs[j]
  }

  /** A node holds items at level 0 and further nodes above. */
  class WrsNode {
    var items: seq<Option<Item>>
    var subs: seq<WrsNode?>
    var weights: seq<int>
    var sumWeight: int
    var itemCnt: int
    const level: nat
    const maxItems: nat
    ghost var slots: seq<Slot>
    ghost var Repr: set<object>
    ghost var reprs: seq<set<object>>

    ghost predicate Valid()
      reads this, Repr
      decreases level, 1
    {
      && this in Repr && Sized()
      && sumWeight == Sum(slots) && itemCnt == Count(slots) && Positive(slots)
      && if level == 0 then Leaf() else Apart(reprs) && forall i: nat :: i < BRANCHES ==> Branch(i)
    }

    ghost predicate Sized()
      reads this
    {
      |items| == |subs| == |weights| == |reprs| == BRANCHES && maxItems == Capacity(level) == |slots|
    }

    /** At level 0 items and weights are those of the slots. */
    ghost predicate Leaf()
      requires Sized() && level == 0
      reads this
    {
      forall i :: 0 <= i < BRANCHES ==>
        weights[i] == Weight(slots[i]) && items[i] == if slots[i].Held? then Some(slots[i].item) else None
    }

    /** Above, each branch accounts for one part of the slots. */
    ghost predicate Branch(i: nat)
      requires Sized() && level > 0 && i < BRANCHES
      reads this, Repr
      decreases level, 0
    {
      var part := Part(slots, Capacity(level - 1), i);
      && weights[i] == Sum(part)
      && (subs[i] == null ==> part == Frees(Capacity(level - 1)) && reprs[i] == {})
      && (subs[i] != null ==>
            && subs[i] in Repr && subs[i].Repr == reprs[i] <= Repr && this !in reprs[i]
            && subs[i].level == level - 1 && subs[i].Valid() && subs[i].slots == part)
    }

    /** An empty node. */
    constructor (level: nat, maxItems: nat)
      requires maxItems == Capacity(level)
      ensures Valid() && fresh(Repr) && slots == Frees(maxItems) && this.level == level
    {
      this.level, this.maxItems := level, maxItems;
      items, subs, weights := seq(BRANCHES, _ => None), seq(BRANCHES, _ => null), seq(BRANCHES, _ => 0);
      sumWeight, itemCnt := 0, 0;
      slots, Repr, reprs := Frees(maxItems), {this}, seq(BRANCHES, _ => {});
      new;
      SumFrees(maxItems);
      if level > 0 {
        SumFrees(Capacity(level - 1));
        forall i: nat | i < BRANCHES ensures Branch(i) {
          PartFrees(Capacity(level - 1), i);
        }
      }
    }

    /** A new root one level up, with the old root as its first branch. */
    constructor Over(root: WrsNode)
      requires root.Valid()
      ensures Valid() && fresh(Repr - root.Repr) && level == root.level + 1
      ensures slots == root.slots + Frees(maxItems - root.maxItems) && maxItems == BRANCHES * root.maxItems
    {
      level, maxItems := root.level + 1, root.maxItems * BRANCHES;
      items := seq(BRANCHES, _ => None);
      subs := seq<WrsNode?>(BRANCHES, _ => null)[0 := root];
      weights := seq<int>(BRANCHES, _ => 0)[0 := root.sumWeight];
      sumWeight, itemCnt := root.sumWeight, root.itemCnt;
      slots := root.slots + Frees((BRANCHES - 1) * root.maxItems);
      Repr, reprs := {this} + root.Repr, seq<set<object>>(BRANCHES, _ => {})[0 := root.Repr];
      new;
      hide Part, Sum, Count;
      var rest := (BRANCHES - 1) * root.maxItems;
      SumFrees(rest);
      SumConcat(root.slots, Frees(rest));
      SumFrees(root.maxItems);
      assert root.Valid();
      assert maxItems == Capacity(level) && maxItems - root.maxItems == rest;
      forall i: nat | i < BRANCHES ensures Branch(i) {
        GrownPart(root.slots, root.maxItems, i);
      }
    }

    /** The number of slots that one branch stands for. */
    ghost function Stride(): nat {
      if level == 0 then 1 else Capacity(level - 1)
    }

    /** Going on to the next branch adds its weight to the running sum. */
    lemma ScanStep(i: nat)
      requires Valid() && i < BRANCHES
      ensures i * Stride() <= |slots| && (i + 1) * Stride() <= |slots|
      ensures Sum(slots[..(i + 1) * Stride()]) == Sum(slots[..i * Stride()]) + weights[i]
    {
      if level == 0 {
        assert i * Stride() == i && (i + 1) * Stride() == i + 1;
        assert slots[..i + 1][..i] == slots[..i];
      } else {
        assert Branch(i);
        SumNextPart(slots, Stride(), i);
      }
    }

    /** A branch with weight has something to choose from. */
    lemma Heavy(i: nat)
      requires Valid() && i < BRANCHES && weights[i] > 0
      ensures level == 0 ==> slots[i].Held? && items[i] == Some(slots[i].item) && weights[i] == slots[i].weight
      ensures level > 0 ==> subs[i] != null && subs[i].Valid() && subs[i].sumWeight == weights[i] && subs[i].level == level - 1
      ensures level > 0 ==> subs[i].slots == Part(slots, Stride(), i)
    {
      if level > 0 {
        assert Branch(i);
        SumFrees(Stride());
      }
    }

    /** choose: the slot that the draw falls on. */
    method Choose(draw: int) returns (item: Item, weight: int)
      requires Valid() && 0 <= draw < sumWeight
      ensures Drawn(slots, draw, item, weight)
      decreases level
    {
      hide Branch, Leaf, Part, Sum, Drawn;
      var val, i := draw, 0;
      NothingBefore();
      while i < BRANCHES
        invariant 0 <= i <= BRANCHES && i * Stride() <= |slots|
        invariant val == draw - Sum(slots[..i * Stride()]) && val >= 0
      {
        ScanStep(i);
        if val < weights[i] {
          Heavy(i);
          if level == 0 {
            PickLeaf(i, draw, val);
            item, weight := items[i].value, weights[i];
            return;
          }
          item, weight := subs[i].Choose(val);
          DrawnInPart(slots, Stride(), i, val, item, weight);
          return;
        }
        val := val - weights[i];
        i := i + 1;
      }
      AllScanned();
      assert false;
    }

    lemma NothingBefore()
      ensures 0 * Stride() == 0 && Sum(slots[..0]) == 0
    {
    }

    lemma AllScanned()
      requires Sized()
      ensures BRANCHES * Stride() == |slots| && slots[..|slots|] == slots
    {
    }

    lemma PickLeaf(i: nat, draw: int, val: int)
      requires Valid() && level == 0 && i < BRANCHES && i * Stride() <= |slots| && val == draw - Sum(slots[..i * Stride()])
      requires 0 <= val < weights[i]
      ensures items[i].Some? && Drawn(slots, draw, items[i].value, weights[i])
    {
      assert i * Stride() == i;
      Heavy(i);
      assert Picks(slots, draw, i);
    }

    /** Whether a branch has no room, as its own counters tell. */
    predicate Taken(i: nat)
      requires |items| == |subs| == BRANCHES && i < BRANCHES
      reads this, subs[i]
    {
      if level == 0 then items[i].Some? else subs[i] != null && subs[i].itemCnt == subs[i].maxItems
    }

    ghost predicate NoRoom(i: nat)
      requires Sized() && i < BRANCHES
      reads this
    {
      if level == 0 then slots[i].Held? else Count(Part(slots, Stride(), i)) == Stride()
    }

    lemma TakenIsFull(i: nat)
      requires Valid() && i < BRANCHES
      ensures Taken(i) <==> NoRoom(i)
    {
      if level > 0 {
        assert Branch(i);
        SumFrees(Stride());
        assert subs[i] != null ==> subs[i].Valid();
      }
    }

    /** The first branch that still has room. */
    method FindRoom() returns (branch: nat)
      requires Valid() && itemCnt < maxItems
      ensures branch < BRANCHES && !NoRoom(branch) && !Taken(branch)
      ensures forall o: nat :: o < branch ==> NoRoom(o)
    {
      hide Branch, Leaf, NoRoom;
      branch := 0;
      TakenIsFull(branch);
      while Taken(branch)
        invariant branch < BRANCHES && (Taken(branch) <==> NoRoom(branch))
        invariant forall o: nat :: o < branch ==> NoRoom(o)
        decreases BRANCHES - branch
      {
        branch := branch + 1;
        if branch == BRANCHES {
          Full();
          assert false;
        }
        TakenIsFull(branch);
      }
    }

    /** If no branch has room, the node is full. */
    lemma Full()
      requires Valid() && forall o: nat :: o < BRANCHES ==> NoRoom(o)
      ensures itemCnt == maxItems
    {
      CountFull(slots);
      forall k | 0 <= k < |slots| ensures slots[k].Held? {
        if level == 0 {
          assert NoRoom(k);
        } else {
          DividePart(k, Stride(), BRANCHES);
          var o := k / Stride();
          assert NoRoom(o);
          PartAt(slots, Stride(), o, k - o * Stride());
          CountFull(Part(slots, Stride(), o));
        }
      }
    }

    /** Writes one slot of a level 0 node and accounts for it. */
    method WriteLeaf(k: nat, item: Option<Item>, weight: int)
      requires Valid() && level == 0 && k < BRANCHES
      requires if item.None? then weight == 0 else weight > 0
      modifies this
      ensures Valid() && Repr == old(Repr)
      ensures slots == old(slots)[k := if item.Some? then Held(item.value, weight) else Free]
    {
      var x := if item.Some? then Held(item.value, weight) else Free;
      SumUpdate(slots, k, x);
      sumWeight := sumWeight + weight - weights[k];
      itemCnt := itemCnt + (if item.Some? then 1 else 0) - (if items[k].Some? then 1 else 0);
      weights, items := weights[k := weight], items[k := item];
      slots := slots[k := x];
    }

    /** Gives an empty branch its node. */
    method Sprout(branch: nat)
      requires Valid() && level > 0 && branch < BRANCHES && subs[branch] == null
      modifies this
      ensures Valid() && fresh(Repr - old(Repr)) && slots == old(slots) && subs[branch] != null
    {
      assert forall o: nat :: o < BRANCHES ==> Branch(o);
      var sub := new WrsNode(level - 1, maxItems / BRANCHES);
      subs := subs[branch := sub];
      Repr := Repr + sub.Repr;
      reprs := reprs[branch := sub.Repr];
      forall o: nat | o < BRANCHES ensures Branch(o) {
        assert old(Branch(o));
        assert o != branch ==> subs[o] == old(subs[o]) && reprs[o] == old(reprs[o]);
        assert o != branch && subs[o] != null ==> old(subs[o].Valid());
        assert o != branch && subs[o] != null ==> subs[o].Valid();
      }
    }

    /** The node is in order but for one branch, whose node has had slot `j` set to `x`. */
    ghost predicate Behind(branch: nat, j: nat, x: Slot)
      requires Sized() && level > 0 && branch < BRANCHES && subs[branch] != null && j < Stride()
      reads this, Repr, subs[branch], subs[branch].Repr
    {
      var sub, part := subs[branch], Part(slots, Stride(), branch);
      && this in Repr && sumWeight == Sum(slots) && itemCnt == Count(slots) && Positive(slots) && Apart(reprs)
      && (forall o: nat :: o < BRANCHES && o != branch ==> Branch(o) && reprs[o] <= Repr)
      && sub in Repr && sub.level == level - 1 && sub.Valid() && sub.slots == part[j := x]
      && reprs[branch] <= Repr && this !in sub.Repr && (sub.Repr - reprs[branch]) !! Repr && weights[branch] == Sum(part)
    }

    /** Accounts for a change in a branch. */
    method Account(branch: nat, diff: int, count: int, ghost j: nat, ghost x: Slot)
      requires Sized() && level > 0 && branch < BRANCHES && subs[branch] != null && j < Stride() && Behind(branch, j, x)
      requires var was := Part(slots, Stride(), branch)[j];
               diff == Weight(x) - Weight(was) && count == (if x.Held? then 1 else 0) - (if was.Held? then 1 else 0)
      requires x.Held? ==> x.weight > 0
      modifies `itemCnt, `sumWeight, `weights, `slots, `Repr, `reprs
      ensures Valid() && Repr == old(Repr) + subs[branch].Repr
      ensures branch * Stride() + j < |old(slots)| && slots == old(slots)[branch * Stride() + j := x]
    {
      hide Sum, Count, Part;
      ghost var k := branch * Stride() + j;
      PartAt(slots, Stride(), branch, j);
      SumUpdate(slots, k, x);
      SumUpdate(Part(slots, Stride(), branch), j, x);
      PartUpdate(slots, Stride(), branch, j, x);
      itemCnt := itemCnt + count;
      sumWeight := sumWeight + diff;
      weights := weights[branch := weights[branch] + diff];
      slots := slots[k := x];
      Repr := Repr + subs[branch].Repr;
      reprs := reprs[branch := subs[branch].Repr];
      assert subs[branch].Valid();
      forall o: nat | o < BRANCHES ensures Branch(o) {
        if o != branch {
          PartOther(old(slots), Stride(), branch, j, x, o);
          assert old(Branch(o));
          assert subs[o] != null ==> old(subs[o].Valid());
          assert subs[o] != null ==> subs[o].Valid();
        }
      }
    }

    /** insert: the item goes to the leftmost free slot, whose index is returned. */
    method Insert(item: Item, weight: int) returns (idx: nat)
      requires Valid() && weight > 0 && itemCnt < maxItems
      modifies Repr
      ensures Valid() && fresh(Repr - old(Repr))
      ensures FirstFree(old(slots), idx) && slots == old(slots)[idx := Held(item, weight)]
      decreases level, 1
    {
      hide Branch, Leaf, Part, Sum, Count, Positive;
      var branch := FindRoom();
      Leftmost(branch);
      if level == 0 {
        WriteLeaf(branch, Some(item), weight);
        return branch;
      }
      if subs[branch] == null {
        Sprout(branch);
      }
      Roomy(branch);
      ghost var j;
      idx, j := InsertBelow(branch, item, weight);
      FirstFreeInPart(old(slots), Stride(), branch, j);
    }

    lemma Leftmost(branch: nat)
      requires Valid() && branch < BRANCHES && !NoRoom(branch) && forall o: nat :: o < branch ==> NoRoom(o)
      ensures level == 0 ==> FirstFree(slots, branch)
      ensures level > 0 ==> forall o: nat :: o < branch ==> Count(Part(slots, Stride(), o)) == Stride()
    {
      forall o: nat | o < branch ensures level == 0 ==> slots[o].Held? {
        assert NoRoom(o);
      }
      forall o: nat | o < branch ensures level > 0 ==> Count(Part(slots, Stride(), o)) == Stride() {
        assert NoRoom(o);
      }
    }

    lemma Roomy(branch: nat)
      requires Valid() && level > 0 && branch < BRANCHES && subs[branch] != null && !NoRoom(branch)
      ensures subs[branch].Valid() && subs[branch].itemCnt < subs[branch].maxItems && subs[branch].level == level - 1
    {
      assert Branch(branch);
      CountFull(subs[branch].slots);
    }

    method InsertBelow(branch: nat, item: Item, weight: int) returns (idx: nat, ghost j: nat)
      requires Valid() && weight > 0 && level > 0 && branch < BRANCHES && subs[branch] != null
      requires subs[branch].itemCnt < subs[branch].maxItems
      modifies Repr
      ensures Valid() && fresh(Repr - old(Repr))
      ensures FirstFree(old(Part(slots, Stride(), branch)), j) && idx == branch * Stride() + j
      ensures idx < |old(slots)| && slots == old(slots)[idx := Held(item, weight)]
      decreases level, 0
    {
      hide Sum, Count, Positive, Part;
      assert Branch(branch);
      var sub := subs[branch];
      assert sub.Valid();
      var subIdx := sub.Insert(item, weight);
      j := subIdx;
      forall o: nat | o < BRANCHES && o != branch ensures Branch(o) {
        assert old(Branch(o));
        assert reprs[o] !! reprs[branch];
        assert subs[o] != null ==> old(subs[o].Valid());
        assert subs[o] != null ==> subs[o].Valid();
      }
      Account(branch, weight, 1, subIdx, Held(item, weight));
      idx := sub.maxItems * branch + subIdx;
    }

    /** setWeight: reweighs the item at an index, or frees its slot at weight zero. */
    method SetWeight(idx: nat, weight: int) returns (diff: int)
      requires Valid() && idx < |slots| && slots[idx].Held? && weight >= 0
      modifies Repr
      ensures Valid() && fresh(Repr - old(Repr))
      ensures slots == old(slots)[idx := Reweighed(old(slots)[idx], weight)]
      ensures diff == weight - old(slots)[idx].weight
      decreases level, 1
    {
      hide Sum, Count, Positive, Part, Branch;
      if level == 0 {
        diff := weight - weights[idx];
        WriteLeaf(idx, if weight == 0 then None else items[idx], weight);
        return;
      }
      var branchItems := maxItems / BRANCHES;
      var branch := idx / branchItems;
      DividePart(idx, Stride(), BRANCHES);
      diff := SetBelow(branch, idx - branch * branchItems, weight);
    }

    method SetBelow(branch: nat, j: nat, weight: int) returns (diff: int)
      requires Valid() && level > 0 && branch < BRANCHES && j < Stride() && weight >= 0
      requires branch * Stride() + j < |slots| && slots[branch * Stride() + j].Held?
      modifies Repr
      ensures Valid() && fresh(Repr - old(Repr))
      ensures var k := branch * Stride() + j;
              slots == old(slots)[k := Reweighed(old(slots)[k], weight)] && diff == weight - old(slots)[k].weight
      decreases level, 0
    {
      hide Sum, Count, Positive, Part;
      Occupied(branch, j);
      var sub := subs[branch];
      diff := sub.SetWeight(j, weight);
      forall o: nat | o < BRANCHES && o != branch ensures Branch(o) {
        assert old(Branch(o));
        assert reprs[o] !! reprs[branch];
        assert subs[o] != null ==> old(subs[o].Valid());
        assert subs[o] != null ==> subs[o].Valid();
      }
      Account(branch, diff, if weight == 0 then -1 else 0, j, Reweighed(old(slots)[branch * Stride() + j], weight));
    }

    /** An occupied slot's branch has a node that holds it. */
    lemma Occupied(branch: nat, j: nat)
      requires Valid() && level > 0 && branch < BRANCHES && j < Stride()
      requires branch * Stride() + j < |slots| && slots[branch * Stride() + j].Held?
      ensures Branch(branch) && subs[branch] != null && subs[branch].Valid() && subs[branch].level == level - 1
      ensures subs[branch].slots == Part(slots, Stride(), branch) && subs[branch].slots[j] == slots[branch * Stride() + j]
    {
      assert Branch(branch);
      PartAt(slots, Stride(), branch, j);
    }
  }

  lemma GrownPart(s: seq<Slot>, c: nat, i: nat)
    requires |s| == c && i < BRANCHES
    ensures Part(s + Frees((BRANCHES - 1) * c), c, i) == if i == 0 then s else Frees(c)
  {
    PartBounds(c, i);
    if i > 0 {
      PartApart(c, 0, i);
    }
  }

  // The index of the items.

  /** The index knows exactly the held items, each at its slot. */
  ghost predicate Indexed(s: seq<Slot>, idx: map<Item, nat>) {
    && (forall x :: x in idx ==> idx[x] < |s| && s[idx[x]].Held? && s[idx[x]].item == x)
    && (forall k :: 0 <= k < |s| && s[k].Held? ==> s[k].item in idx && idx[s[k].item] == k)
  }

  /** The weights of the items. */
  ghost function Weights(s: seq<Slot>, idx: map<Item, nat>): map<Item, int>
    requires Indexed(s, idx)
  {
    map x | x in idx :: s[idx[x]].weight
  }

  lemma IndexedInsert(s: seq<Slot>, idx: map<Item, nat>, k: nat, x: Item, w: int)
    requires Indexed(s, idx) && k < |s| && s[k].Free? && x !in idx
    ensures Indexed(s[k := Held(x, w)], idx[x := k])
    ensures Weights(s[k := Held(x, w)], idx[x := k]) == Weights(s, idx)[x := w]
  {
  }

  lemma IndexedSet(s: seq<Slot>, idx: map<Item, nat>, x: Item, w: int)
    requires Indexed(s, idx) && x in idx
    ensures var s', idx' := s[idx[x] := Reweighed(s[idx[x]], w)], if w == 0 then idx - {x} else idx;
            Indexed(s', idx') && Weights(s', idx') == if w == 0 then Weights(s, idx) - {x} else Weights(s, idx)[x := w]
  {
  }

  lemma IndexedGrown(s: seq<Slot>, idx: map<Item, nat>, n: nat)
    requires Indexed(s, idx)
    ensures Indexed(s + Frees(n), idx) && Weights(s + Frees(n), idx) == Weights(s, idx)
  {
  }

  class WeightedRandomSelect {
    var root: WrsNode
    var idx: map<Item, nat>

    ghost predicate Valid()
      reads this, root, root.Repr
    {
      root.Valid() && this !in root.Repr && Indexed(root.slots, idx)
    }

    ghost function Contents(): map<Item, int>
      requires Valid()
      reads this, root, root.Repr
    {
      Weights(root.slots, idx)
    }

    constructor ()
      ensures Valid() && fresh(root.Repr) && Contents() == map[]
    {
      root := new WrsNode(0, BRANCHES);
      idx := map[];
    }

    /** setWeight: adds, reweighs or removes an item; the tree grows a level when full. */
    method SetWeight(item: Item, weight: int)
      requires Valid() && weight >= 0
      modifies this, root.Repr
      ensures Valid() && fresh(root.Repr - old(root.Repr))
      ensures Contents() == if weight == 0 then old(Contents()) - {item} else old(Contents())[item := weight]
      ensures root.sumWeight == old(root.sumWeight) + weight - (if item in old(Contents()) then old(Contents())[item] else 0)
    {
      hide Sum, Count, Positive;
      ghost var s := root.slots;
      if item in idx {
        var k := idx[item];
        IndexedSet(s, idx, item, weight);
        SumUpdate(s, k, Reweighed(s[k], weight));
        var _ := root.SetWeight(k, weight);
        if weight == 0 {
          idx := idx - {item};
        }
      } else if weight != 0 {
        if root.itemCnt == root.maxItems {
          Grow();
        }
        CountFull(root.slots);
        ghost var t := root.slots;
        var k := root.Insert(item, weight);
        IndexedInsert(t, idx, k, item, weight);
        SumUpdate(t, k, Held(item, weight));
        idx := idx[item := k];
      }
    }

    /** Adds a level: every item keeps its index. */
    method Grow()
      requires Valid() && root.itemCnt == root.maxItems
      modifies this`root
      ensures Valid() && fresh(root.Repr - old(root.Repr)) && Contents() == old(Contents())
      ensures root.itemCnt < root.maxItems && root.sumWeight == old(root.sumWeight)
    {
      ghost var s := root.slots;
      var newRoot := new WrsNode.Over(root);
      ghost var rest := newRoot.maxItems - root.maxItems;
      IndexedGrown(s, idx, rest);
      SumFrees(rest);
      SumConcat(s, Frees(rest));
      root := newRoot;
    }

    /** choose: draws an item by its stored weight. An item whose current weight has since
        fallen is reweighed and kept only with the matching chance; otherwise another draw
        follows, on a smaller total. */
    method Choose(current: Item -> int) returns (choice: Option<Item>)
      requires Valid() && forall x :: current(x) >= 0
      modifies this, root.Repr
      ensures Valid() && fresh(root.Repr - old(root.Repr))
      ensures choice.None? ==> Contents() == map[]
      ensures choice.Some? ==> choice.value in Contents() && Contents()[choice.value] == current(choice.value) > 0
      ensures Refreshed(old(Contents()), Contents(), current)
    {
      hide Sum, Count, Weights, Indexed;
      while true
        invariant Valid() && fresh(root.Repr - old(root.Repr)) && Refreshed(old(Contents()), Contents(), current)
        decreases root.sumWeight
      {
        ghost var before := Contents();
        if root.sumWeight == 0 {
          Emptied();
          return None;
        }
        Weighs();
        var val :| 0 <= val < root.sumWeight;
        var item, lastWeight := root.Choose(val);
        Chosen(val, item, lastWeight);
        var weight := current(item);
        if weight != lastWeight {
          SetWeight(item, weight);
        }
        var coin :| 0 <= coin < lastWeight;
        if weight >= lastWeight || coin < weight {
          return Some(item);
        }
        Weighs();
      }
    }

    lemma Weighs()
      requires Valid()
      ensures root.sumWeight >= 0
    {
      SumNonNegative(root.slots);
    }

    lemma Emptied()
      requires Valid() && root.sumWeight == 0
      ensures Contents() == map[]
    {
      SumZero(root.slots);
    }

    lemma Chosen(val: int, item: Item, weight: int)
      requires Valid() && Drawn(root.slots, val, item, weight)
      ensures item in Contents() && Contents()[item] == weight > 0
    {
    }
  }

  /** Weights may only have been brought up to date, and items dropped at weight zero. */
  ghost predicate Refreshed(before: map<Item, int>, after: map<Item, int>, current: Item -> int) {
    && after.Keys <= before.Keys
    && (forall x :: x in after ==> after[x] == before[x] || after[x] == current(x))
    && (forall x :: x in before && x !in after ==> current(x) == 0)
  }
}
