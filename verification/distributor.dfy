/** requestDistributor: requests wait in creation order for peers that can serve them. */
module Distributors {
  import opened Wrappers
  import W = RandSelect

  type Peer = nat

  /** One more than a share of the buffer. */
  type PeerWeight = w: int | w >= 1 witness 1

  class DistReq {
    var reqOrder: nat
    var open: bool  // whether its channel is still open, which is while it is queued

    constructor ()
      ensures reqOrder == 0 && !open
    {
      reqOrder, open := 0, false;
    }
  }

  /** What peers answer while the lock is held: which accept requests at all, which
      requests they can serve, how long each has to wait, and the buffer left. */
  datatype Net = Net(canQueue: Peer -> bool, canSend: (DistReq, Peer) -> bool, wait: (DistReq, Peer) -> nat, weight: (DistReq, Peer) -> PeerWeight)

  predicate Serves(net: Net, r: DistReq, p: Peer) {
    net.canQueue(p) && net.canSend(r, p)
  }

  /** The earliest request of the queue that a peer can serve. */
  ghost function First(net: Net, q: seq<DistReq>, p: Peer): Option<DistReq> {
    if q == [] then None
    else if First(net, q[..|q| - 1], p).Some? then First(net, q[..|q| - 1], p)
    else if Serves(net, q[|q| - 1], p) then Some(q[|q| - 1])
    else None
  }

  /** First is a request of the queue, and no earlier one can be served. */
  lemma {:induction false} FirstIsFirst(net: Net, q: seq<DistReq>, p: Peer)
    ensures First(net, q, p).None? <==> forall i :: 0 <= i < |q| ==> !Serves(net, q[i], p)
    ensures First(net, q, p).Some? ==>
              exists i :: 0 <= i < |q| && q[i] == First(net, q, p).value && Serves(net, q[i], p) && forall j :: 0 <= j < i ==> !Serves(net, q[j], p)
  {
    if q != [] {
      var n := |q| - 1;
      FirstIsFirst(net, q[..n], p);
      if First(net, q[..n], p).Some? {
        var i :| 0 <= i < n && q[..n][i] == First(net, q[..n], p).value && Serves(net, q[..n][i], p) && forall j :: 0 <= j < i ==> !Serves(net, q[..n][j], p);
        assert q[i] == q[..n][i];
        forall j | 0 <= j < i ensures !Serves(net, q[j], p) {
          assert q[j] == q[..n][j];
        }
      } else {
        forall j | 0 <= j < n ensures !Serves(net, q[j], p) {
          assert q[j] == q[..n][j];
        }
      }
    }
  }

  ghost predicate Servable(net: Net, peers: set<Peer>, r: DistReq) {
    exists p :: p in peers && Serves(net, r, p)
  }

  /** The peers that can serve something, each with the earliest such request. */
  ghost function Offers(net: Net, peers: set<Peer>, q: seq<DistReq>): map<Peer, DistReq> {
    map p | p in peers && First(net, q, p).Some? :: First(net, q, p).value
  }

  /** One more request is offered to the peers that had none so far. */
  lemma OffersNext(net: Net, peers: set<Peer>, q: seq<DistReq>, r: DistReq)
    ensures Offers(net, peers, q + [r])
            == Offers(net, peers, q) + Fresh(net, peers, Offers(net, peers, q), r)
  {
    assert (q + [r])[..|q|] == q;
  }

  /** What nextRequest has collected: the peers seen, those that could send at once with
      their requests, and the one with the shortest wait. */
  datatype Scan = Scan(checked: set<Peer>, ready: map<Peer, DistReq>, best: Option<(Peer, DistReq)>)

  /** The scan sums up the offers. */
  ghost predicate SumsUp(net: Net, offers: map<Peer, DistReq>, s: Scan) {
    && s.checked == offers.Keys
    && (forall p :: p in s.ready <==> p in offers && net.wait(offers[p], p) == 0)
    && (forall p :: p in s.ready ==> s.ready[p] == offers[p])
    && (s.best.None? ==> offers.Keys <= s.ready.Keys)
    && (s.best.Some? ==> Shortest(net, offers, s.best.value.0, s.best.value.1))
  }

  /** Of those that have to wait, nobody waits less. */
  ghost predicate Shortest(net: Net, offers: map<Peer, DistReq>, p: Peer, r: DistReq) {
    && p in offers && offers[p] == r && net.wait(r, p) > 0
    && forall o :: o in offers && net.wait(offers[o], o) > 0 ==> net.wait(r, p) <= net.wait(offers[o], o)
  }

  /** The scan after a peer has been offered a request. */
  function Noted(net: Net, s: Scan, p: Peer, r: DistReq): Scan {
    var s' := s.(checked := s.checked + {p});
    if net.wait(r, p) == 0 then s'.(ready := s.ready[p := r])
    else if s.best.None? || net.wait(r, p) < net.wait(s.best.value.1, s.best.value.0) then s'.(best := Some((p, r)))
    else s'
  }

  lemma NotedSumsUp(net: Net, offers: map<Peer, DistReq>, s: Scan, p: Peer, r: DistReq)
    requires SumsUp(net, offers, s) && p !in offers
    ensures SumsUp(net, offers[p := r], Noted(net, s, p, r))
  {
  }

  /** The weights with which the ready peers stand for selection. */
  ghost function Weighed(net: Net, ready: map<Peer, DistReq>): map<Peer, int> {
    map p | p in ready :: net.weight(ready[p], p)
  }

  /** The offers that a request makes to those among `asked` that had none. */
  ghost function Fresh(net: Net, asked: set<Peer>, offers: map<Peer, DistReq>, r: DistReq): map<Peer, DistReq> {
    map p | p in asked && p !in offers && Serves(net, r, p) :: r
  }

  lemma FreshStep(net: Net, asked: set<Peer>, offers: map<Peer, DistReq>, r: DistReq, p: Peer)
    requires p !in asked
    ensures p in offers + Fresh(net, asked, offers, r) <==> p in offers
    ensures Fresh(net, asked + {p}, offers, r) == if p !in offers && Serves(net, r, p) then Fresh(net, asked, offers, r)[p := r] else Fresh(net, asked, offers, r)
    ensures offers + Fresh(net, asked + {p}, offers, r)
            == if p !in offers && Serves(net, r, p) then (offers + Fresh(net, asked, offers, r))[p := r] else offers + Fresh(net, asked, offers, r)
  {
  }

  lemma FreshStart(net: Net, offers: map<Peer, DistReq>, r: DistReq)
    ensures Fresh(net, {}, offers, r) == map[] && offers + Fresh(net, {}, offers, r) == offers
  {
  }

  lemma NotedWeights(net: Net, s: Scan, p: Peer, r: DistReq)
    ensures Weighed(net, Noted(net, s, p, r).ready)
            == if net.wait(r, p) == 0 then Weighed(net, s.ready)[p := net.weight(r, p)] else Weighed(net, s.ready)
  {
  }

  /** The queue holds requests in creation order. */
  ghost predicate Sorted(q: seq<DistReq>)
    reads q`reqOrder
  {
    forall i, j :: 0 <= i < j < |q| ==> q[i].reqOrder < q[j].reqOrder
  }

  lemma SortedInsert(q: seq<DistReq>, k: nat, r: DistReq)
    requires Sorted(q) && k <= |q|
    requires forall i :: 0 <= i < k ==> q[i].reqOrder < r.reqOrder
    requires forall i :: k <= i < |q| ==> q[i].reqOrder > r.reqOrder
    ensures Sorted(q[..k] + [r] + q[k..])
    ensures forall s :: s in q[..k] + [r] + q[k..] <==> s == r || s in q
  {
    assert q == q[..k] + q[k..];
  }

  lemma SortedDelete(q: seq<DistReq>, k: nat)
    requires Sorted(q) && k < |q|
    ensures Sorted(q[..k] + q[k + 1..])
    ensures forall s :: s in q[..k] + q[k + 1..] <==> s != q[k] && s in q
  {
    var d := q[..k] + q[k + 1..];
    assert forall i :: 0 <= i < |d| ==> d[i] == q[if i < k then i else i + 1];
    forall s | s in q && s != q[k] ensures s in d {
      var i :| 0 <= i < |q| && q[i] == s;
      assert d[if i < k then i else i - 1] == s;
    }
  }

  class Distributor {
    var reqQueue: seq<DistReq>
    var lastReqOrder: nat
    var peers: set<Peer>
    ghost var known: set<DistReq>

    ghost predicate Valid()
      reads this, known
    {
      && (forall r :: r in reqQueue ==> r in known) && Sorted(reqQueue)
      && (forall r :: r in known ==> 0 < r.reqOrder <= lastReqOrder && (r.open <==> r in reqQueue))
      && (forall r, s :: r in known && s in known && r != s ==> r.reqOrder != s.reqOrder)
    }

    constructor ()
      ensures Valid() && reqQueue == [] && peers == {} && known == {}
    {
      reqQueue, lastReqOrder, peers, known := [], 0, {}, {};
    }

    /** queue: a new request gets the next order number; one that is sent again keeps its
        own and takes its old place among the others. */
    method Queue(r: DistReq) returns (ghost at: nat)
      requires Valid() && !r.open && (r.reqOrder == 0 <==> r !in known)
      modifies this, r
      ensures Valid() && r.open && known == old(known) + {r} && peers == old(peers)
      ensures r.reqOrder == if r in old(known) then old(r.reqOrder) else old(lastReqOrder) + 1
      ensures at <= |old(reqQueue)| && reqQueue == old(reqQueue)[..at] + [r] + old(reqQueue)[at..]
    {
      hide Sorted;
      Number(r);
      var k := Place(r);
      InsertAt(k, r);
      at := k;
    }

    method InsertAt(k: nat, r: DistReq)
      requires Valid() && r in known && r !in reqQueue && k <= |reqQueue|
      requires forall i :: 0 <= i < k ==> reqQueue[i].reqOrder < r.reqOrder
      requires forall i :: k <= i < |reqQueue| ==> reqQueue[i].reqOrder > r.reqOrder
      modifies `reqQueue, r`open
      ensures Valid() && r.open && reqQueue == old(reqQueue)[..k] + [r] + old(reqQueue)[k..]
    {
      SortedInsert(reqQueue, k, r);
      r.open := true;
      reqQueue := reqQueue[..k] + [r] + reqQueue[k..];
    }

    /** Gives a new request its order number. */
    method Number(r: DistReq)
      requires Valid() && !r.open && (r.reqOrder == 0 <==> r !in known)
      modifies `lastReqOrder, `known, r`reqOrder
      ensures Valid() && r !in reqQueue && known == old(known) + {r}
      ensures r.reqOrder == if r in old(known) then old(r.reqOrder) else old(lastReqOrder) + 1
    {
      if r.reqOrder == 0 {
        lastReqOrder := lastReqOrder + 1;
        r.reqOrder := lastReqOrder;
      }
      known := known + {r};
      assert Sorted(reqQueue) by {
        assert forall s :: s in reqQueue ==> s != r;
      }
    }

    /** The place of a request: at the back, or before the first with a higher order. */
    method Place(r: DistReq) returns (k: nat)
      requires Sorted(reqQueue)
      requires forall s :: s in reqQueue ==> s.reqOrder != r.reqOrder
      ensures k <= |reqQueue|
      ensures forall i :: 0 <= i < k ==> reqQueue[i].reqOrder < r.reqOrder
      ensures forall i :: k <= i < |reqQueue| ==> reqQueue[i].reqOrder > r.reqOrder
    {
      if reqQueue == [] || r.reqOrder > reqQueue[|reqQueue| - 1].reqOrder {
        return |reqQueue|;
      }
      k := 0;
      while reqQueue[k].reqOrder < r.reqOrder
        invariant k < |reqQueue| && forall i :: 0 <= i < k ==> reqQueue[i].reqOrder < r.reqOrder
        decreases |reqQueue| - k
      {
        k := k + 1;
      }
      assert reqQueue[k] in reqQueue;
    }

    /** remove. */
    method Remove(r: DistReq)
      requires Valid() && r in reqQueue
      modifies `reqQueue, r`open
      ensures Valid() && !r.open
      ensures exists k :: 0 <= k < |old(reqQueue)| && old(reqQueue)[k] == r && reqQueue == old(reqQueue)[..k] + old(reqQueue)[k + 1..]
    {
      var k :| 0 <= k < |reqQueue| && reqQueue[k] == r;
      RemoveAt(k, r);
    }

    method RemoveAt(k: nat, r: DistReq)
      requires Valid() && k < |reqQueue| && reqQueue[k] == r
      modifies `reqQueue, r`open
      ensures Valid() && !r.open && reqQueue == old(reqQueue)[..k] + old(reqQueue)[k + 1..]
    {
      assert r in reqQueue;
      SortedDelete(reqQueue, k);
      r.open := false;
      reqQueue := reqQueue[..k] + reqQueue[k + 1..];
    }

    /** cancel: false if the request has been sent or dropped already, or was never queued. */
    method Cancel(r: DistReq) returns (ok: bool)
      requires Valid() && (r in known || !r.open)
      modifies `reqQueue, r`open
      ensures Valid() && !r.open && ok == old(r.open)
      ensures if ok then exists k :: 0 <= k < |old(reqQueue)| && old(reqQueue)[k] == r && reqQueue == old(reqQueue)[..k] + old(reqQueue)[k + 1..]
              else reqQueue == old(reqQueue)
    {
      if !r.open {
        return false;
      }
      Remove(r);
      return true;
    }

    /** Offers one request to all peers that have none yet. */
    method OfferAll(net: Net, r: DistReq, scan: Scan, sel: W.WeightedRandomSelect, ghost q: seq<DistReq>) returns (s: Scan, canSend: bool)
      requires this !in sel.root.Repr && SumsUp(net, Offers(net, peers, q), scan) && sel.Valid() && sel.Contents() == Weighed(net, scan.ready)
      modifies sel, sel.root.Repr
      ensures SumsUp(net, Offers(net, peers, q + [r]), s)
      ensures sel.Valid() && fresh(sel.root.Repr - old(sel.root.Repr)) && sel.Contents() == Weighed(net, s.ready)
      ensures canSend <==> Fresh(net, peers, Offers(net, peers, q), r) != map[]
    {
      hide SumsUp, Noted, Fresh, Offers, Weighed;
      OffersNext(net, peers, q, r);
      ghost var offers := Offers(net, peers, q);
      FreshStart(net, offers, r);
      s, canSend := scan, false;
      var rest := peers;
      assert peers - rest == {};
      while rest != {}
        invariant rest <= peers && SumsUp(net, offers + Fresh(net, peers - rest, offers, r), s)
        invariant sel.Valid() && fresh(sel.root.Repr - old(sel.root.Repr)) && sel.Contents() == Weighed(net, s.ready)
        invariant canSend <==> Fresh(net, peers - rest, offers, r) != map[]
        decreases rest
      {
        var p :| p in rest;
        ghost var asked := peers - rest;
        FreshStep(net, asked, offers, r, p);
        SeenAre(net, offers + Fresh(net, asked, offers, r), s);
        rest := rest - {p};
        assert peers - rest == asked + {p};
        if p !in s.checked && net.canQueue(p) && net.canSend(r, p) {
          canSend := true;
          NotedSumsUp(net, offers + Fresh(net, asked, offers, r), s, p, r);
          NotedWeights(net, s, p, r);
          if net.wait(r, p) == 0 {
            sel.SetWeight(p, net.weight(r, p));
          }
          s := Noted(net, s, p, r);
        }
      }
      assert peers - rest == peers;
    }

    /** The walk of nextRequest over the queue. A request at the front that nobody can
        serve is dropped; with no peers at all that is every request. */
    method ScanQueue(net: Net) returns (s: Scan, sel: W.WeightedRandomSelect, ghost dropped: nat)
      requires Valid()
      modifies `reqQueue, reqQueue`open
      ensures Valid() && Leading(net, peers, old(reqQueue), dropped) && reqQueue == old(reqQueue)[dropped..]
      ensures SumsUp(net, Offers(net, peers, old(reqQueue)), s)
      ensures fresh(sel) && sel.Valid() && fresh(sel.root.Repr) && sel.Contents() == Weighed(net, s.ready)
    {
      hide *;
      ghost var q := reqQueue;
      sel := new W.WeightedRandomSelect();
      s, dropped := Scan({}, map[], None), 0;
      WalkStart(net);
      var i := 0;
      while (|peers| > 0 || i == 0) && i < |reqQueue|
        invariant dropped + i <= |q| && reqQueue == q[dropped..]
        invariant Valid() && Walk(net, q, dropped, i) && SumsUp(net, Offers(net, peers, q[..dropped + i]), s)
        invariant fresh(sel) && sel.Valid() && fresh(sel.root.Repr) && sel.Contents() == Weighed(net, s.ready)
        decreases |q| - dropped - i
      {
        assert known !! sel.root.Repr && reqQueue[i] == q[dropped + i] && q[dropped + i] in q;
        var drop;
        s, drop := ScanOne(net, i, reqQueue[i], s, sel, q, dropped);
        if drop {
          dropped := dropped + 1;
        } else {
          i := i + 1;
        }
      }
      WalkEnd(net, q, dropped, i);
    }

    lemma WalkStart(net: Net)
      ensures Walk(net, reqQueue, 0, 0) && SumsUp(net, Offers(net, peers, reqQueue[..0]), Scan({}, map[], None)) && Weighed(net, map[]) == map[]
    {
      NothingOffered(net, peers, reqQueue[..0]);
    }

    lemma WalkEnd(net: Net, q: seq<DistReq>, dropped: nat, i: nat)
      requires Walk(net, q, dropped, i) && !((|peers| > 0 || i == 0) && i < |reqQueue|)
      ensures Leading(net, peers, q, dropped) && reqQueue == q[dropped..] && q[..dropped + i] == q
    {
    }

    /** How far the walk is: `dropped` requests are gone and `i` more are scanned. */
    ghost predicate Walk(net: Net, q: seq<DistReq>, dropped: nat, i: nat)
      reads this
    {
      && dropped <= |q| && reqQueue == q[dropped..] && i <= |reqQueue|
      && (forall j :: 0 <= j < dropped ==> !Servable(net, peers, q[j]))
      && (i > 0 ==> Servable(net, peers, q[dropped]) && peers != {})
    }

    /** One iteration of the walk. */
    method ScanOne(net: Net, i: nat, r: DistReq, scan: Scan, sel: W.WeightedRandomSelect, ghost q: seq<DistReq>, ghost dropped: nat)
      returns (s: Scan, drop: bool)
      requires Valid() && Walk(net, q, dropped, i) && i < |reqQueue| && reqQueue[i] == r
      requires SumsUp(net, Offers(net, peers, q[..dropped + i]), scan)
      requires this !in sel.root.Repr && known !! sel.root.Repr && sel.Valid() && sel.Contents() == Weighed(net, scan.ready)
      modifies `reqQueue, r`open, sel, sel.root.Repr
      ensures Valid() && SumsUp(net, Offers(net, peers, q[..dropped + i + 1]), s)
      ensures if drop then i == 0 && dropped < |q| && Walk(net, q, dropped + 1, 0) else Walk(net, q, dropped, i + 1)
      ensures reqQueue == old(reqQueue)[if drop then 1 else 0..]
      ensures sel.Valid() && fresh(sel.root.Repr - old(sel.root.Repr)) && sel.Contents() == Weighed(net, s.ready)
    {
      hide SumsUp, Offers, Fresh, Servable, Sorted;
      ghost var n := dropped + i;
      assert r == q[n] && q[..n + 1] == q[..n] + [r] && r in reqQueue && r in known;
      var canSend;
      s, canSend := OfferAll(net, r, scan, sel, q[..n]);
      if i == 0 {
        FirstOffer(net, peers, q[..n], r);
      }
      drop := !canSend && i == 0;
      if drop {
        assert known !! sel.root.Repr;
        RemoveAt(0, r);
      }
    }

    /** nextRequest: a peer and the earliest request it can serve, such that nobody could
        send its earliest request sooner. */
    method NextRequest(net: Net) returns (peer: Option<Peer>, req: Option<DistReq>, wait: nat, ghost dropped: nat)
      requires Valid()
      modifies `reqQueue, reqQueue`open
      ensures Valid() && Leading(net, peers, old(reqQueue), dropped) && reqQueue == old(reqQueue)[dropped..]
      ensures Verdict(net, Offers(net, peers, old(reqQueue)), peer, req, wait) && (req.Some? ==> req.value in reqQueue)
    {
      hide SumsUp, Offers, Leading, Sorted, Verdict, Valid;
      var s, sel;
      s, sel, dropped := ScanQueue(net);
      assert known !! sel.root.Repr;
      peer, req, wait := Decide(net, s, sel, Offers(net, peers, old(reqQueue)));
      if req.Some? {
        OfferedStays(net, peers, old(reqQueue), dropped, peer, req.value, wait);
      }
    }

    /** One round of the main loop: the chosen request leaves the queue if it can be sent
        at once. The queue shrinks with every request sent, so the rounds come to an end. */
    method Distribute(net: Net) returns (peer: Option<Peer>, sent: Option<DistReq>, ghost dropped: nat)
      requires Valid()
      modifies `reqQueue, reqQueue`open
      ensures Valid() && peers == old(peers) && known == old(known)
      ensures Leading(net, peers, old(reqQueue), dropped)
      ensures sent.None? ==> reqQueue == old(reqQueue)[dropped..]
      ensures sent.Some? ==>
                exists k :: dropped <= k < |old(reqQueue)| && old(reqQueue)[k] == sent.value
                            && reqQueue == old(reqQueue)[dropped..k] + old(reqQueue)[k + 1..]
      ensures sent.Some? ==> !sent.value.open && |reqQueue| < |old(reqQueue)|
      ensures sent.Some? ==>
                var offers := Offers(net, peers, old(reqQueue));
                peer.Some? && peer.value in offers && offers[peer.value] == sent.value && net.wait(sent.value, peer.value) == 0
      ensures sent.None? ==> forall p :: p in Offers(net, peers, old(reqQueue)) ==> net.wait(Offers(net, peers, old(reqQueue))[p], p) > 0
      // In the peers' own answers.
      ensures forall i, p :: 0 <= i < dropped && p in peers && net.canQueue(p) ==> !net.canSend(old(reqQueue)[i], p)
      ensures dropped < |old(reqQueue)| ==> exists p :: p in peers && net.canQueue(p) && net.canSend(old(reqQueue)[dropped], p)
      ensures sent.Some? ==> peer.value in peers && exists i: nat :: Earliest(net, old(reqQueue), peer.value, i) && old(reqQueue)[i] == sent.value
      ensures sent.None? ==> forall p, i: nat :: p in peers && Earliest(net, old(reqQueue), p, i) ==> net.wait(old(reqQueue)[i], p) > 0
    {
      hide Offers, Leading, Sorted, Valid, Earliest;
      var req, wait;
      peer, req, wait, dropped := NextRequest(net);
      LeadingInFields(net, peers, old(reqQueue), dropped);
      VerdictInFields(net, peers, old(reqQueue), peer, req, wait);
      if req.Some? && wait == 0 {
        ghost var rest := reqQueue;
        Remove(req.value);
        sent := req;
        RemovedFrom(old(reqQueue), dropped, rest, reqQueue, req.value);
      } else {
        sent := None;
      }
    }
  }

  lemma RemovedFrom(q: seq<DistReq>, dropped: nat, rest: seq<DistReq>, left: seq<DistReq>, r: DistReq)
    requires dropped <= |q| && rest == q[dropped..]
    requires exists k :: 0 <= k < |rest| && rest[k] == r && left == rest[..k] + rest[k + 1..]
    ensures exists k :: dropped <= k < |q| && q[k] == r && left == q[dropped..k] + q[k + 1..]
  {
    var k :| 0 <= k < |rest| && rest[k] == r && left == rest[..k] + rest[k + 1..];
    assert rest[..k] == q[dropped..dropped + k] && rest[k + 1..] == q[dropped + k + 1..];
    assert q[dropped + k] == r;
  }

  /** The end of nextRequest: a draw among those that can send at once, or the one with
      the shortest wait. */
  method Decide(net: Net, s: Scan, sel: W.WeightedRandomSelect, ghost offers: map<Peer, DistReq>)
    returns (peer: Option<Peer>, req: Option<DistReq>, wait: nat)
    requires SumsUp(net, offers, s) && sel.Valid() && sel.Contents() == Weighed(net, s.ready)
    modifies sel, sel.root.Repr
    ensures Verdict(net, offers, peer, req, wait)
  {
    hide SumsUp, Verdict, Weighed;
    if s.ready != map[] {
      var ready := s.ready;
      var current := (p: Peer) => if p in ready then net.weight(ready[p], p) else 0;
      var choice := sel.Choose(current);
      Chosen(net, ready, sel.Contents(), current, choice);
      peer, req, wait := choice, Some(ready[choice.value]), 0;
      ReadyVerdict(net, offers, s, choice.value);
    } else if s.best.Some? {
      peer, req := Some(s.best.value.0), Some(s.best.value.1);
      wait := net.wait(req.value, peer.value);
      BestVerdict(net, offers, s);
    } else {
      peer, req, wait := None, None, 0;
      BestVerdict(net, offers, s);
    }
  }

  /** What is offered has not been dropped. */
  lemma OfferedStays(net: Net, peers: set<Peer>, q: seq<DistReq>, n: nat, peer: Option<Peer>, r: DistReq, wait: nat)
    requires Leading(net, peers, q, n) && Verdict(net, Offers(net, peers, q), peer, Some(r), wait)
    ensures r in q[n..]
  {
    var p := peer.value;
    FirstIsFirst(net, q, p);
    var i :| 0 <= i < |q| && q[i] == r && Serves(net, r, p);
    assert Servable(net, peers, q[i]);
    assert q[n..][i - n] == r;
  }

  lemma NothingOffered(net: Net, peers: set<Peer>, q: seq<DistReq>)
    requires forall j :: 0 <= j < |q| ==> !Servable(net, peers, q[j])
    ensures Offers(net, peers, q) == map[] && SumsUp(net, Offers(net, peers, q), Scan({}, map[], None)) && Weighed(net, map[]) == map[]
  {
    forall p | p in peers ensures First(net, q, p).None? {
      FirstIsFirst(net, q, p);
    }
  }

  /** After unservable requests only, a request is offered just when it is servable. */
  lemma FirstOffer(net: Net, peers: set<Peer>, q: seq<DistReq>, r: DistReq)
    requires forall j :: 0 <= j < |q| ==> !Servable(net, peers, q[j])
    ensures Fresh(net, peers, Offers(net, peers, q), r) != map[] <==> Servable(net, peers, r)
    ensures Servable(net, peers, r) ==> peers != {}
  {
    NothingOffered(net, peers, q);
    var offers := Offers(net, peers, q);
    if Servable(net, peers, r) {
      var p :| p in peers && Serves(net, r, p);
      assert p in Fresh(net, peers, offers, r);
    }
    if Fresh(net, peers, offers, r) != map[] {
      var p :| p in Fresh(net, peers, offers, r);
      assert Serves(net, r, p);
    }
  }

  /** The outcome: nothing if there are no offers, else one with the least wait. */
  ghost predicate Verdict(net: Net, offers: map<Peer, DistReq>, peer: Option<Peer>, req: Option<DistReq>, wait: nat) {
    if offers == map[] then peer.None? && req.None? && wait == 0
    else
      && peer.Some? && peer.value in offers && req == Some(offers[peer.value]) && wait == net.wait(req.value, peer.value)
      && forall p :: p in offers ==> wait <= net.wait(offers[p], p)
  }

  /** Request `i` is the first of the queue that the peer accepts and can serve. */
  ghost predicate Earliest(net: Net, q: seq<DistReq>, p: Peer, i: nat) {
    i < |q| && net.canQueue(p) && net.canSend(q[i], p) && forall j :: 0 <= j < i ==> !net.canSend(q[j], p)
  }

  lemma FirstIsEarliest(net: Net, q: seq<DistReq>, p: Peer, i: nat)
    requires Earliest(net, q, p, i)
    ensures First(net, q, p) == Some(q[i])
  {
    FirstIsFirst(net, q, p);
    assert Serves(net, q[i], p);
    var k :| 0 <= k < |q| && q[k] == First(net, q, p).value && Serves(net, q[k], p) && forall j :: 0 <= j < k ==> !Serves(net, q[j], p);
  }

  lemma FirstHasIndex(net: Net, q: seq<DistReq>, p: Peer) returns (i: nat)
    requires First(net, q, p).Some?
    ensures Earliest(net, q, p, i) && q[i] == First(net, q, p).value
  {
    FirstIsFirst(net, q, p);
    i :| 0 <= i < |q| && q[i] == First(net, q, p).value && Serves(net, q[i], p) && forall j :: 0 <= j < i ==> !Serves(net, q[j], p);
    assert forall j :: 0 <= j < i ==> !Serves(net, q[j], p);
  }

  /** What is chosen, in the peers' own answers: some peer's earliest request, such that nobody's
      earliest one could be sent sooner; nothing if no peer can serve any. */
  lemma VerdictInFields(net: Net, peers: set<Peer>, q: seq<DistReq>, peer: Option<Peer>, req: Option<DistReq>, wait: nat)
    requires Verdict(net, Offers(net, peers, q), peer, req, wait)
    ensures req.Some? ==>
              && peer.Some? && peer.value in peers && wait == net.wait(req.value, peer.value)
              && exists i: nat :: Earliest(net, q, peer.value, i) && q[i] == req.value
    ensures forall p, i: nat :: p in peers && Earliest(net, q, p, i) ==> req.Some? && wait <= net.wait(q[i], p)
  {
    if req.Some? {
      var i := FirstHasIndex(net, q, peer.value);
    }
    forall p, i: nat | p in peers && Earliest(net, q, p, i) ensures req.Some? && wait <= net.wait(q[i], p) {
      FirstIsEarliest(net, q, p, i);
      assert p in Offers(net, peers, q);
    }
  }

  /** The requests dropped are those before the first that some peer accepts and can serve. */
  lemma LeadingInFields(net: Net, peers: set<Peer>, q: seq<DistReq>, n: nat)
    requires Leading(net, peers, q, n)
    ensures forall i, p :: 0 <= i < n && p in peers && net.canQueue(p) ==> !net.canSend(q[i], p)
    ensures n < |q| ==> exists p :: p in peers && net.canQueue(p) && net.canSend(q[n], p)
  {
    forall i, p | 0 <= i < n && p in peers && net.canQueue(p) ensures !net.canSend(q[i], p) {
      assert !Servable(net, peers, q[i]);
      assert !Serves(net, q[i], p);
    }
  }

  lemma ReadyVerdict(net: Net, offers: map<Peer, DistReq>, s: Scan, p: Peer)
    requires SumsUp(net, offers, s) && p in s.ready
    ensures Verdict(net, offers, Some(p), Some(s.ready[p]), 0)
  {
    assert p in offers;
  }

  lemma BestVerdict(net: Net, offers: map<Peer, DistReq>, s: Scan)
    requires SumsUp(net, offers, s) && s.ready == map[]
    ensures s.best.Some? ==> Verdict(net, offers, Some(s.best.value.0), Some(s.best.value.1), net.wait(s.best.value.1, s.best.value.0))
    ensures s.best.None? ==> Verdict(net, offers, None, None, 0)
  {
    assert s.ready.Keys == {};
    assert s.best.None? ==> offers.Keys == {};
  }

  /** A selection with the weights unchanged yields one of the ready peers. */
  lemma Chosen(net: Net, ready: map<Peer, DistReq>, after: map<Peer, int>, current: Peer -> int, choice: Option<Peer>)
    requires ready != map[]
    requires forall p :: current(p) == if p in ready then net.weight(ready[p], p) else 0
    requires W.Refreshed(Weighed(net, ready), after, current)
    requires choice.None? ==> after == map[]
    requires choice.Some? ==> choice.value in after
    ensures choice.Some? && choice.value in ready
  {
    var p :| p in ready;
    assert p in Weighed(net, ready) && current(p) >= 1;
  }

  /** The dropped requests are the leading ones that no peer can serve. */
  ghost predicate Leading(net: Net, peers: set<Peer>, q: seq<DistReq>, n: nat) {
    && n <= |q| && (forall i :: 0 <= i < n ==> !Servable(net, peers, q[i]))
    && (n < |q| ==> Servable(net, peers, q[n]))
  }

  lemma SeenAre(net: Net, offers: map<Peer, DistReq>, s: Scan)
    requires SumsUp(net, offers, s)
    ensures s.checked == offers.Keys
  {
  }
}
