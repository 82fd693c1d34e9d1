/** ChainIndexer: the section index. New heads arrive under the lock; a section is
    processed with the lock released, so chain and index may change in between. */
module ChainIndexers {
  import opened Chains
  import opened Wrappers

  const ZERO: Hash := Raw(0)

  /** The hash reached by following `n` parent links. */
  ghost function Back(h: Hash, n: nat): Hash {
    if n == 0 || h.Raw? then h else Back(h.block.parent, n - 1)
  }

  /** `h` ends an unbroken chain of `n` headers, numbered from 0 on. */
  ghost predicate EndsChain(h: Hash, n: nat) {
    if n == 0 then h == ZERO else h.Of? && h.block.number == n - 1 && EndsChain(h.block.parent, n - 1)
  }

  lemma {:induction false} BackAgain(h: Hash, m: nat, n: nat)
    ensures Back(Back(h, m), n) == Back(h, m + n)
    decreases m
  {
    if m > 0 && h.Of? {
      BackAgain(h.block.parent, m - 1, n);
    }
  }

  /** Section heads are kept for exactly the stored sections; each ends a chain of whole
      sections that runs through the one before it. */
  ghost predicate Linked(heads: map<nat, Hash>, stored: nat, size: nat) {
    && (forall i: nat :: i in heads <==> i < stored)
    && (forall i: nat :: i < stored ==> EndsChain(heads[i], (i + 1) * size))
    && (forall i: nat :: 0 < i < stored ==> Back(heads[i], size) == heads[i - 1])
  }

  /** All stored section heads lie on the one chain that ends in the last of them. */
  lemma {:induction false} OneChain(heads: map<nat, Hash>, stored: nat, size: nat, i: nat, j: nat)
    requires Linked(heads, stored, size) && i <= j < stored
    ensures (j - i) * size >= 0 && Back(heads[j], (j - i) * size) == heads[i]
    decreases j - i
  {
    if i < j {
      OneChain(heads, stored, size, i, j - 1);
      assert (j - i) * size == size + (j - 1 - i) * size;
      BackAgain(heads[j], size, (j - 1 - i) * size);
    }
  }

  /** A quotient counts the whole sections among `a` headers. */
  lemma WholeSections(a: nat, size: nat, n: nat)
    requires size > 0
    ensures a / size * size <= a
    ensures n >= a / size ==> (n + 1) * size > a
  {
    var q := a / size;
    assert a == q * size + a % size;
    if n >= q {
      assert (n + 1) * size == q * size + size + (n - q) * size;
      Grows(n - q, size);
    }
  }

  lemma Grows(n: nat, size: nat)
    ensures n * size >= 0 && (n + 1) * size >= size
  {
  }

  /** Dropping the heads from `n` on. */
  function Cut(heads: map<nat, Hash>, n: nat): map<nat, Hash> {
    map i | i in heads && i < n :: heads[i]
  }

  lemma LinkedCut(heads: map<nat, Hash>, stored: nat, size: nat, n: nat)
    requires Linked(heads, stored, size) && n <= stored
    ensures Linked(Cut(heads, n), n, size)
  {
  }

  lemma LinkedGrow(heads: map<nat, Hash>, stored: nat, size: nat, h: Hash)
    requires Linked(heads, stored, size) && EndsChain(h, (stored + 1) * size)
    requires 0 < stored ==> Back(h, size) == heads[stored - 1]
    ensures Linked(heads[stored := h], stored + 1, size)
  {
  }

  /** Whether the headers are being read, the sections are being given up because the backend
      could not be reset, or processing has ended. */
  datatype Outcome = Working | GivingUp | Failed | Done

  /** A section being processed. `undercut` records whether a reorganisation has reached
      below it since. */
  datatype Flight = Flight(section: nat, oldHead: Hash, number: nat, lastHead: Hash, outcome: Outcome, undercut: bool)

  /** What the indexer keeps, in memory and in its database. */
  datatype Index = Index(stored: nat, known: nat, cascaded: nat, heads: map<nat, Hash>, flight: Option<Flight>)
  {
    /** SectionHead: the zero hash where none is stored, as for the section before the
        first, whose number wraps around to the largest one. */
    function SectionHead(section: int): Hash {
      if section >= 0 && section in heads then heads[section] else ZERO
    }
  }

  /** What holds of an index and of the section in processing: the headers seen so far continue
      the chain of the section before it, and that one is stored still unless it was undercut. */
  ghost predicate Sane(x: Index, size: nat) {
    Linked(x.heads, x.stored, size) && (x.flight.Some? ==> Flying(x, x.flight.value, size))
  }

  ghost predicate Flying(x: Index, f: Flight, size: nat) {
    && x.stored <= f.section
    && (f.undercut <==> x.stored < f.section)
    && (!f.undercut ==> f.oldHead == x.SectionHead(f.section - 1)) && (f.section > 0 ==> f.oldHead.Of?)
    && f.section * size <= f.number <= (f.section + 1) * size
    && EndsChain(f.lastHead, f.number) && Back(f.lastHead, f.number - f.section * size) == f.oldHead
    && (f.outcome.Done? ==> f.number == (f.section + 1) * size)
  }

  datatype Step = Head(head: nat, reorg: bool) | Update | Unresettable | GiveUp | Got(header: Option<Block>) | Committed(ok: bool) | Relock

  /** A reorganisation whose common ancestor lies before the section. */
  predicate Reaches(step: Step, section: nat, size: nat)
    requires size > 0
  {
    step.Head? && step.reorg && step.head / size < section
  }

  /** newHead. A reorganisation gives up the section that holds the common ancestor and all
      later ones; a new head makes the sections known that have enough headers above. */
  ghost predicate HeadStep(x: Index, head: nat, reorg: bool, x': Index, size: nat, confirms: nat)
    requires size > 0
  {
    if reorg then
      var changed := head / size;
      && x'.stored == (if changed < x.stored then changed else x.stored) && x'.heads == Cut(x.heads, x'.stored)
      && x'.known == (if changed < x.known then changed else x.known)
      && x'.cascaded == (if changed * size < x.cascaded then changed * size else x.cascaded)
      && x'.flight == if x.flight.Some? && changed < x.flight.value.section then Some(x.flight.value.(undercut := true)) else x.flight
    else
      && x' == x.(known := x'.known) && x'.known >= x.known && (x'.known + 1) * size + confirms > head + 1
      && (x'.known > x.known ==> x'.known * size + confirms <= head + 1)
  }

  lemma StoredOnly(x: Index, size: nat)
    requires Sane(x, size)
    ensures x.heads == Cut(x.heads, x.stored) && forall i: nat :: i in x.heads ==> i < x.stored
  {
  }

  lemma HeadSane(x: Index, head: nat, reorg: bool, x': Index, size: nat, confirms: nat)
    requires size > 0 && Sane(x, size) && HeadStep(x, head, reorg, x', size, confirms)
    ensures Sane(x', size)
  {
    hide EndsChain, Back;
    if reorg {
      LinkedCut(x.heads, x.stored, size, x'.stored);
      hide Linked;
    }
  }

  /** updateLoop takes up the next section, if one is known, and releases the lock. */
  ghost predicate UpdateStep(x: Index, x': Index, size: nat) {
    var last := x.SectionHead(x.stored - 1);
    x' == if x.flight.Some? || x.known <= x.stored then x
          else x.(flight := Some(Flight(x.stored, last, x.stored * size, last, Working, false)))
  }

  /** updateLoop takes the lock again. The section is stored exactly when processing has
      succeeded and no reorganisation has reached below it. */
  ghost predicate RelockStep(x: Index, x': Index, size: nat) {
    if x.flight.None? || !Ended(x.flight.value) then x' == x else
      var f := x.flight.value;
      if f.outcome.Done? && !f.undercut
      then (f.section + 1) * size >= 1 && x' == Index(f.section + 1, x.known, (f.section + 1) * size - 1, x.heads[f.section := f.lastHead], None)
      else x' == x.(known := x.stored, flight := None)
  }

  predicate Ended(f: Flight) {
    f.outcome.Failed? || f.outcome.Done?
  }

  predicate Lost(f: Flight) {
    f.outcome.Failed? || f.outcome.GivingUp?
  }

  /** A flight that is still at work and has come to this number. */
  predicate At(x: Index, number: nat) {
    x.flight.Some? && x.flight.value.outcome.Working? && x.flight.value.number == number
  }

  ghost predicate Next(x: Index, step: Step, x': Index, size: nat, confirms: nat)
    requires size > 0
  {
    match step
    case Head(head, reorg) => HeadStep(x, head, reorg, x', size, confirms)
    case Update => UpdateStep(x, x', size)
    case Relock => RelockStep(x, x', size)
    case Unresettable =>
      x' == if x.flight.Some? && At(x, x.flight.value.section * size)
            then x.(flight := Some(x.flight.value.(outcome := GivingUp)))
            else x
    case GiveUp =>
      x' == if x.flight.None? || !x.flight.value.outcome.GivingUp? then x
            else if x.stored == 0 then x.(flight := Some(x.flight.value.(outcome := Failed)))
            else x.(stored := x.stored - 1, heads := x.heads - {x.stored - 1}, flight := Some(x.flight.value.(undercut := true)))
    case Got(header) =>
      x' == if x.flight.Some? && x.flight.value.outcome.Working? && x.flight.value.number < (x.flight.value.section + 1) * size
               && (header.Some? ==> header.value.number == x.flight.value.number)
            then x.(flight := Some(Followed(x.flight.value, header)))
            else x
    case Committed(ok) =>
      x' == if x.flight.Some? && At(x, (x.flight.value.section + 1) * size)
            then x.(flight := Some(x.flight.value.(outcome := if ok then Done else Failed)))
            else x
  }

  /** processSection reads a header: it must continue the chain read so far. */
  function Followed(f: Flight, header: Option<Block>): Flight {
    if header.Some? && header.value.parent == f.lastHead
    then f.(number := f.number + 1, lastHead := Of(header.value))
    else f.(outcome := Failed)
  }

  /** `trace` leads through the steps. */
  ghost predicate Follows(trace: seq<Index>, steps: seq<Step>, size: nat, confirms: nat)
    requires size > 0
  {
    |trace| == |steps| + 1 && forall i :: 0 <= i < |steps| ==> Next(trace[i], steps[i], trace[i + 1], size, confirms)
  }

  /** No reorganisation between the steps `i` and `n` has reached below the section. */
  ghost predicate Undisturbed(steps: seq<Step>, i: nat, n: nat, section: nat, size: nat)
    requires size > 0 && n <= |steps|
  {
    forall j :: i < j < n ==> !Reaches(steps[j], section, size)
  }

  /** The flight at `n` was begun by step `i`, and unless it is lost it knows whether a
      reorganisation has reached below its section. */
  ghost predicate Since(trace: seq<Index>, steps: seq<Step>, i: nat, n: nat, size: nat)
    requires size > 0 && |trace| == |steps| + 1 && n <= |steps|
  {
    && i < n && steps[i] == Update && trace[i].flight.None? && trace[i + 1].flight.Some? && trace[n].flight.Some?
    && trace[i + 1].flight.value.section == trace[i].stored == trace[n].flight.value.section
    && (!Lost(trace[n].flight.value) ==> (trace[n].flight.value.undercut <==> !Undisturbed(steps, i, n, trace[i].stored, size)))
  }

  lemma {:induction false} FlightSince(trace: seq<Index>, steps: seq<Step>, n: nat, size: nat, confirms: nat) returns (i: nat)
    requires size > 0 && Follows(trace, steps, size, confirms) && n <= |steps| && trace[0].flight.None? && trace[n].flight.Some?
    ensures Since(trace, steps, i, n, size)
  {
    var m := n - 1;
    assert Next(trace[m], steps[m], trace[m + 1], size, confirms);
    if trace[m].flight.None? {
      i := m;
    } else {
      i := FlightSince(trace, steps, m, size, confirms);
      FlightGoesOn(trace[m], steps[m], trace[n], size, confirms);
      UndisturbedNext(steps, i, m, trace[i].stored, size);
    }
  }

  lemma UndisturbedNext(steps: seq<Step>, i: nat, n: nat, section: nat, size: nat)
    requires size > 0 && i < n < |steps|
    ensures Undisturbed(steps, i, n + 1, section, size) <==> Undisturbed(steps, i, n, section, size) && !Reaches(steps[n], section, size)
  {
  }

  lemma FlightGoesOn(x: Index, step: Step, x': Index, size: nat, confirms: nat)
    requires size > 0 && Next(x, step, x', size, confirms) && x.flight.Some? && x'.flight.Some?
    ensures x'.flight.value.section == x.flight.value.section && (Lost(x.flight.value) ==> Lost(x'.flight.value))
    ensures !Lost(x'.flight.value) ==> (x'.flight.value.undercut <==> x.flight.value.undercut || Reaches(step, x.flight.value.section, size))
  {
  }

  /** At any point of any run: a section that was processed to its end is stored if and only
      if no reorganisation has reached below it since it was taken up. */
  lemma StoredIffUndisturbed(trace: seq<Index>, steps: seq<Step>, n: nat, size: nat, confirms: nat)
    requires size > 0 && Follows(trace, steps, size, confirms) && trace[0].flight.None?
    requires n < |steps| && steps[n] == Relock && trace[n].flight.Some? && trace[n].flight.value.outcome.Done?
    ensures exists i: nat ::
              && Since(trace, steps, i, n, size)
              && var section := trace[i].stored;
                 if Undisturbed(steps, i, n, section, size)
                 then trace[n + 1].stored == section + 1 && trace[n + 1].heads == trace[n].heads[section := trace[n].flight.value.lastHead]
                 else trace[n + 1].stored == trace[n].stored && trace[n + 1].heads == trace[n].heads
  {
    var i := FlightSince(trace, steps, n, size, confirms);
    assert Next(trace[n], steps[n], trace[n + 1], size, confirms);
  }

  /** A new head was announced with the whole section and `confirms` headers below or at it. */
  ghost predicate Announced(steps: seq<Step>, n: nat, section: nat, size: nat, confirms: nat) {
    exists j: nat :: j < n && j < |steps| && steps[j].Head? && !steps[j].reorg && (section + 1) * size + confirms <= steps[j].head + 1
  }

  /** Every section known, in processing or stored has been announced. */
  ghost predicate AllAnnounced(x: Index, steps: seq<Step>, n: nat, size: nat, confirms: nat) {
    forall s: nat :: s < x.known || s < x.stored || (x.flight.Some? && s <= x.flight.value.section) ==> Announced(steps, n, s, size, confirms)
  }

  lemma AnnouncedLater(steps: seq<Step>, n: nat, section: nat, size: nat, confirms: nat)
    requires Announced(steps, n, section, size, confirms)
    ensures Announced(steps, n + 1, section, size, confirms)
  {
    var j: nat :| j < n && j < |steps| && steps[j].Head? && !steps[j].reorg && (section + 1) * size + confirms <= steps[j].head + 1;
    assert steps[j].Head?;
  }

  lemma NewlyAnnounced(x: Index, steps: seq<Step>, n: nat, x': Index, size: nat, confirms: nat, section: nat)
    requires size > 0 && n < |steps| && Next(x, steps[n], x', size, confirms) && x.known <= section < x'.known && x.stored <= section
    ensures Announced(steps, n + 1, section, size, confirms)
  {
    assert x'.known * size == (section + 1) * size + (x'.known - section - 1) * size;
    Grows(x'.known - section - 1, size);
    assert steps[n].Head?;
  }

  lemma AnnouncedNext(x: Index, steps: seq<Step>, n: nat, x': Index, size: nat, confirms: nat)
    requires size > 0 && n < |steps| && Next(x, steps[n], x', size, confirms) && AllAnnounced(x, steps, n, size, confirms)
    ensures AllAnnounced(x', steps, n + 1, size, confirms)
  {
    hide Announced;
    var m := n + 1;
    forall s: nat | s < x'.known || s < x'.stored || (x'.flight.Some? && s <= x'.flight.value.section)
      ensures Announced(steps, m, s, size, confirms)
    {
      if s < x.known || s < x.stored || (x.flight.Some? && s <= x.flight.value.section) {
        AnnouncedLater(steps, n, s, size, confirms);
      } else {
        NewlyAnnounced(x, steps, n, x', size, confirms, s);
      }
    }
  }

  /** At any point of any run of a new indexer: no section is known, processed or stored before a
      head is announced that has enough headers on top of it. */
  lemma {:induction false} SectionsConfirmed(trace: seq<Index>, steps: seq<Step>, n: nat, size: nat, confirms: nat)
    requires size > 0 && Follows(trace, steps, size, confirms) && n <= |steps| && trace[0] == Index(0, 0, 0, map[], None)
    ensures AllAnnounced(trace[n], steps, n, size, confirms)
  {
    hide Next, Announced;
    if n > 0 {
      SectionsConfirmed(trace, steps, n - 1, size, confirms);
      assert Next(trace[n - 1], steps[n - 1], trace[n - 1 + 1], size, confirms);
      AnnouncedNext(trace[n - 1], steps, n - 1, trace[n], size, confirms);
    }
  }

  // Which section heads are on the canonical chain, taking each change of the chain together
  // with its notification.

  /** `h` is the tip of the chain or one of its ancestors. */
  ghost predicate On(tip: Hash, h: Hash) {
    tip == h || (tip.Of? && On(tip.block.parent, h))
  }

  lemma {:induction false} OnTrans(tip: Hash, h: Hash, g: Hash)
    requires On(tip, h) && On(h, g)
    ensures On(tip, g)
  {
    if tip != h {
      OnTrans(tip.block.parent, h, g);
    }
  }

  /** What a step has to do with the chain: a new head extends it or, up to the common
      ancestor, leaves it as it is; the database returns headers of it. */
  ghost predicate Tipped(tip: Hash, step: Step, tip': Hash) {
    match step
    case Head(_, false) => On(tip', tip)
    case Head(head, true) => forall h: Hash :: h.Of? && h.block.number <= head && On(tip, h) ==> On(tip', h)
    case Got(Some(b)) => tip' == tip && On(tip, Of(b))
    case _ => tip' == tip
  }

  ghost predicate Complete(f: Flight, size: nat) {
    f.number == (f.section + 1) * size && !Lost(f)
  }

  /** A reorganisation that reaches into a section, not below it, after its last header was
      read and before it is stored. */
  ghost predicate Late(x: Index, step: Step, size: nat)
    requires size > 0
  {
    && step.Head? && step.reorg && x.flight.Some? && Complete(x.flight.value, size) && !x.flight.value.undercut
    && x.flight.value.section <= step.head / size && step.head + 1 < x.flight.value.number
  }

  /** Every stored section head is on the chain, and so is the one of a section that is about
      to be stored. */
  ghost predicate Canonical(x: Index, tip: Hash, size: nat) {
    && (forall i: nat :: i in x.heads ==> On(tip, x.heads[i]))
    && (x.flight.Some? && Complete(x.flight.value, size) && !x.flight.value.undercut ==> On(tip, x.flight.value.lastHead))
  }

  lemma CanonicalReorg(x: Index, head: nat, x': Index, tip: Hash, tip': Hash, size: nat, confirms: nat)
    requires size > 0 && Sane(x, size) && HeadStep(x, head, true, x', size, confirms) && Tipped(tip, Head(head, true), tip')
    requires Canonical(x, tip, size) && !Late(x, Head(head, true), size)
    ensures Canonical(x', tip', size)
  {
    WholeSections(head, size, 0);
    forall i: nat | i in x'.heads ensures On(tip', x'.heads[i]) {
      assert EndsChain(x.heads[i], (i + 1) * size);
      Within(i, head, size);
    }
    if x'.flight.Some? && Complete(x'.flight.value, size) && !x'.flight.value.undercut {
      Grows(x.flight.value.section, size);
    }
  }

  /** The last number of a section before the one that holds `head`. */
  lemma Within(i: nat, head: nat, size: nat)
    requires size > 0 && i < head / size
    ensures 0 < (i + 1) * size <= head
  {
    assert head == head / size * size + head % size;
    assert head / size * size == (i + 1) * size + (head / size - i - 1) * size;
    Grows(head / size - i - 1, size);
    Grows(i, size);
  }

  lemma CanonicalStep(x: Index, step: Step, x': Index, tip: Hash, tip': Hash, size: nat, confirms: nat)
    requires size > 0 && Sane(x, size) && Next(x, step, x', size, confirms) && Tipped(tip, step, tip')
    requires Canonical(x, tip, size) && !Late(x, step, size)
    ensures Canonical(x', tip', size)
  {
    hide Sane, Late, HeadStep, On;
    match step {
      case Head(head, reorg) =>
        if reorg {
          CanonicalReorg(x, head, x', tip, tip', size, confirms);
        } else {
          CanonicalGrowth(x, head, x', tip, tip', size, confirms);
        }
      case _ => CanonicalElse(x, step, x', tip, size, confirms);
    }
  }

  lemma CanonicalGrowth(x: Index, head: nat, x': Index, tip: Hash, tip': Hash, size: nat, confirms: nat)
    requires size > 0 && HeadStep(x, head, false, x', size, confirms) && On(tip', tip) && Canonical(x, tip, size)
    ensures Canonical(x', tip', size)
  {
    forall h | On(tip, h) ensures On(tip', h) {
      OnTrans(tip', tip, h);
    }
    hide On;
  }

  /** Steps that leave the chain alone. */
  lemma CanonicalElse(x: Index, step: Step, x': Index, tip: Hash, size: nat, confirms: nat)
    requires size > 0 && Sane(x, size) && Next(x, step, x', size, confirms) && Tipped(tip, step, tip) && !step.Head?
    requires Canonical(x, tip, size)
    ensures Canonical(x', tip, size)
  {
    hide Linked, EndsChain, Back, On;
    assert (x.stored + 1) * size == x.stored * size + size;
  }

  /** At any point of any run, if no reorganisation comes late: every stored section head is on
      the canonical chain. */
  lemma {:induction false} SectionsCanonical(trace: seq<Index>, steps: seq<Step>, tips: seq<Hash>, n: nat, size: nat, confirms: nat)
    requires size > 0 && Follows(trace, steps, size, confirms) && n <= |steps| && |tips| == |trace| && Canonical(trace[0], tips[0], size)
    requires forall i :: 0 <= i <= |steps| ==> Sane(trace[i], size)
    requires forall i :: 0 <= i < |steps| ==> Tipped(tips[i], steps[i], tips[i + 1]) && !Late(trace[i], steps[i], size)
    ensures Canonical(trace[n], tips[n], size)
  {
    hide Next, Sane, Late, Tipped, Canonical;
    if n > 0 {
      var m := n - 1;
      SectionsCanonical(trace, steps, tips, m, size, confirms);
      assert Next(trace[m], steps[m], trace[m + 1], size, confirms) && Tipped(tips[m], steps[m], tips[m + 1]);
      CanonicalStep(trace[m], steps[m], trace[n], tips[m], tips[n], size, confirms);
    }
  }

  /** After a late one that replaces the last header of the section, a head is stored that is
      not on the chain. */
  lemma LateIsStale(x: Index, head: nat, x1: Index, x2: Index, x3: Index, tip: Hash, size: nat, confirms: nat)
    requires size > 0 && Late(x, Head(head, true), size) && x.flight.value.outcome.Working? && !On(tip, x.flight.value.lastHead)
    requires Next(x, Head(head, true), x1, size, confirms) && Next(x1, Committed(true), x2, size, confirms) && Next(x2, Relock, x3, size, confirms)
    ensures var section := x.flight.value.section;
            x3.stored == section + 1 && section in x3.heads && !On(tip, x3.heads[section])
  {
  }

  class ChainIndexer {
    const sectionSize: nat
    const confirmsReq: nat
    var storedSections: nat
    var knownSections: nat
    var cascadedHead: nat
    var heads: map<nat, Hash>
    var flight: Option<Flight>

    ghost predicate Valid()
      reads this
    {
      sectionSize > 0 && Sane(I(), sectionSize)
    }

    constructor (section: nat, confirm: nat)
      requires section > 0
      ensures Valid() && I() == Index(0, 0, 0, map[], None) && sectionSize == section && confirmsReq == confirm
    {
      sectionSize, confirmsReq := section, confirm;
      storedSections, knownSections, cascadedHead, heads, flight := 0, 0, 0, map[], None;
    }

    function I(): Index
      reads this
    {
      Index(storedSections, knownSections, cascadedHead, heads, flight)
    }

    function SectionHead(section: int): Hash
      reads this
    {
      I().SectionHead(section)
    }

    /** setValidSections: removes the heads of sections beyond the count. */
    method SetValidSections(sections: nat)
      requires forall i: nat :: i in heads ==> i < storedSections || i < sections
      modifies `storedSections, `heads
      ensures storedSections == sections && heads == Cut(old(heads), sections)
    {
      while storedSections > sections
        invariant storedSections <= old(storedSections)
        invariant heads == map i | i in old(heads) && (i < storedSections || i < sections) :: old(heads)[i]
      {
        storedSections := storedSections - 1;
        heads := heads - {storedSections};
      }
      storedSections := sections;
    }

    method NewHead(head: nat, reorg: bool)
      requires Valid()
      modifies `storedSections, `knownSections, `cascadedHead, `heads, `flight
      ensures Valid() && HeadStep(old(I()), head, reorg, I(), sectionSize, confirmsReq)
    {
      hide Sane;
      ghost var x := I();
      StoredOnly(x, sectionSize);
      if reorg {
        var changed := head / sectionSize;
        if changed < knownSections {
          knownSections := changed;
        }
        if changed < storedSections {
          SetValidSections(changed);
        }
        if flight.Some? && changed < flight.value.section {
          flight := Some(flight.value.(undercut := true));
        }
        if changed * sectionSize < cascadedHead {
          cascadedHead := changed * sectionSize;
        }
        HeadSane(x, head, reorg, I(), sectionSize, confirmsReq);
        return;
      }
      Grows(knownSections, sectionSize);
      if head >= confirmsReq {
        var sections := (head + 1 - confirmsReq) / sectionSize;
        if sections > knownSections {
          knownSections := sections;
        }
        WholeSections(head + 1 - confirmsReq, sectionSize, knownSections);
      }
      HeadSane(x, head, reorg, I(), sectionSize, confirmsReq);
    }

    method Begin()
      requires Valid() && flight.None?
      modifies `flight
      ensures Valid() && UpdateStep(old(I()), I(), sectionSize)
    {
      if knownSections > storedSections {
        var section := storedSections;
        var oldHead := if section > 0 then SectionHead(section - 1) else ZERO;
        FirstOf(section);
        flight := Some(Flight(section, oldHead, section * sectionSize, oldHead, Working, false));
      }
    }

    lemma FirstOf(section: nat)
      requires Valid() && section == storedSections
      ensures section > 0 ==> section - 1 in heads && heads[section - 1].Of?
      ensures EndsChain(SectionHead(section - 1), section * sectionSize) && section * sectionSize <= (section + 1) * sectionSize
    {
      assert (section + 1) * sectionSize == section * sectionSize + sectionSize;
      if section > 0 {
        assert EndsChain(heads[section - 1], (section - 1 + 1) * sectionSize);
        assert section * sectionSize >= sectionSize;
      }
    }

    /** processSection when the backend cannot be reset. All sections are then given up, one
        after the other and without the lock. */
    method ResetFailed()
      requires Valid() && flight.Some? && flight.value.outcome.Working? && flight.value.number == flight.value.section * sectionSize
      modifies `flight
      ensures Valid() && Next(old(I()), Unresettable, I(), sectionSize, confirmsReq)
    {
      flight := Some(flight.value.(outcome := GivingUp));
    }

    /** One iteration of setValidSections on that way, or its end. Head notifications may come
        in between. */
    method DropSection()
      requires Valid() && flight.Some? && flight.value.outcome.GivingUp?
      modifies `storedSections, `heads, `flight
      ensures Valid() && Next(old(I()), GiveUp, I(), sectionSize, confirmsReq)
    {
      hide EndsChain, Back;
      if storedSections == 0 {
        flight := Some(flight.value.(outcome := Failed));
      } else {
        LinkedCut(heads, storedSections, sectionSize, storedSections - 1);
        assert Cut(heads, storedSections - 1) == heads - {storedSections - 1};
        storedSections := storedSections - 1;
        heads := heads - {storedSections};
        flight := Some(flight.value.(undercut := true));
      }
    }

    /** One iteration of the loop of processSection, given what the database holds at the
        number at this moment: the canonical header, if any. */
    method Process(header: Option<Block>)
      requires Valid() && flight.Some? && flight.value.outcome.Working? && flight.value.number < (flight.value.section + 1) * sectionSize
      requires header.Some? ==> header.value.number == flight.value.number
      modifies `flight
      ensures Valid() && flight == Some(Followed(old(flight).value, header))
    {
      var f := flight.value;
      if header.None? {
        flight := Some(f.(outcome := Failed));
      } else if header.value.parent != f.lastHead {
        flight := Some(f.(outcome := Failed));
      } else {
        flight := Some(f.(number := f.number + 1, lastHead := Of(header.value)));
      }
    }

    /** The backend commits the section, or fails to. */
    method Commit(ok: bool)
      requires Valid() && flight.Some? && flight.value.outcome.Working? && flight.value.number == (flight.value.section + 1) * sectionSize
      modifies `flight
      ensures Valid() && flight == Some(old(flight).value.(outcome := if ok then Done else Failed))
    {
      flight := Some(flight.value.(outcome := if ok then Done else Failed));
    }

    method Finish()
      requires Valid() && flight.Some? && Ended(flight.value)
      modifies `storedSections, `knownSections, `cascadedHead, `heads, `flight
      ensures Valid() && RelockStep(old(I()), I(), sectionSize)
    {
      var f := flight.value;
      Undercut();
      flight := None;
      if f.outcome.Done? && f.oldHead == SectionHead(f.section - 1) {
        LinkedGrow(heads, storedSections, sectionSize, f.lastHead);
        heads := heads[f.section := f.lastHead];
        assert heads == Cut(heads, f.section + 1);
        SetValidSections(f.section + 1);
        assert storedSections * sectionSize >= sectionSize;
        cascadedHead := storedSections * sectionSize - 1;
      } else {
        knownSections := storedSections;
      }
    }

    /** The head of the section before tells whether the one in flight was undercut. */
    lemma Undercut()
      requires Valid() && flight.Some?
      ensures flight.value.oldHead == SectionHead(flight.value.section - 1) <==> !flight.value.undercut
      ensures (flight.value.section + 1) * sectionSize - flight.value.section * sectionSize == sectionSize
    {
    }

    /** Takes a step if the indexer has come so far. */
    method Take(step: Step)
      requires Valid()
      modifies this
      ensures Valid() && Next(old(I()), step, I(), sectionSize, confirmsReq)
    {
      hide Linked, Back, EndsChain, HeadStep;
      var working := flight.Some? && flight.value.outcome.Working?;
      match step {
        case Head(head, reorg) => NewHead(head, reorg);
        case Update => if flight.None? { Begin(); }
        case Unresettable => if working && flight.value.number == flight.value.section * sectionSize { ResetFailed(); }
        case Got(header) =>
          if working && flight.value.number < (flight.value.section + 1) * sectionSize && (header.Some? ==> header.value.number == flight.value.number) {
            Process(header);
          }
        case Committed(ok) => if working && flight.value.number == (flight.value.section + 1) * sectionSize { Commit(ok); }
        case GiveUp => if flight.Some? && flight.value.outcome.GivingUp? { DropSection(); }
        case Relock => if flight.Some? && Ended(flight.value) { Finish(); }
      }
    }
  }

  /** Every interleaving of head notifications with the processing of sections takes exactly
      these steps, and the stored section heads form one chain at every point. */
  method Run(c: ChainIndexer, steps: seq<Step>) returns (ghost trace: seq<Index>)
    requires c.Valid()
    modifies c
    ensures c.Valid() && Follows(trace, steps, c.sectionSize, c.confirmsReq) && trace[0] == old(c.I()) && trace[|steps|] == c.I()
    ensures forall i :: 0 <= i <= |steps| ==> Sane(trace[i], c.sectionSize)
  {
    hide Sane, Next;
    trace := [c.I()];
    for i := 0 to |steps|
      invariant c.Valid() && |trace| == i + 1 && trace[0] == old(c.I()) && trace[i] == c.I()
      invariant forall k :: 0 <= k < i ==> Next(trace[k], steps[k], trace[k + 1], c.sectionSize, c.confirmsReq)
      invariant forall k :: 0 <= k <= i ==> Sane(trace[k], c.sectionSize)
    {
      c.Take(steps[i]);
      trace := trace + [c.I()];
    }
  }

  /** Two headers, and another one in place of the second. */
  const FIRST := Block(ZERO, 0, 1, [], 0)
  const SECOND := Block(Of(FIRST), 1, 1, [], 0)
  const OTHER := Block(Of(FIRST), 1, 2, [], 0)

  /** The chain switches to the other header after both have been read: the section is stored
      with a head that is not on the chain any more. */
  method Stale() returns (c: ChainIndexer)
    ensures c.Valid() && c.storedSections == 1 && 0 in c.heads && c.heads[0] == Of(SECOND) && !On(Of(OTHER), c.heads[0])
  {
    hide Sane;
    c := new ChainIndexer(2, 0);
    c.Take(Head(1, false));
    c.Take(Update);
    assert c.flight == Some(Flight(0, ZERO, 0, ZERO, Working, false));
    c.Take(Got(Some(FIRST)));
    c.Take(Got(Some(SECOND)));
    assert c.flight == Some(Flight(0, ZERO, 2, Of(SECOND), Working, false));
    c.Take(Head(0, true));
    c.Take(Committed(true));
    c.Take(Relock);
  }
}
