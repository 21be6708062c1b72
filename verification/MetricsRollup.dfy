/** Summing one cumulative counter over all threads while pools come and go.

    The state holds the pool-wide retired counter, one block per pool ever made, and the
    registry of weak references. Each event is one atomic operation on one memory location, or
    one action under the registry lock; they interleave freely (sequential consistency: the
    effects of relaxed ordering are not modelled). One scrape is followed; others only prune. */
module MetricsRollup {
  import opened Sums

  /** Live: its pool may still count. Swapped: its value was taken out and not yet added to the
      retired counter. Folded: it was. Freed: no strong reference is left. */
  datatype Phase = Live | Swapped | Folded | Freed

  /** `inTransit` is the value between the swap and the add; `given` is what was added to the
      retired counter (history). */
  datatype Block = Block(phase: Phase, value: nat, inTransit: nat, given: nat)

  /** Everything ever counted in block `b`. */
  function Ever(blocks: seq<Block>, b: nat): nat
    requires b < |blocks|
  {
    blocks[b].value + blocks[b].inTransit + blocks[b].given
  }

  /** The scrape has read the retired counter; holds the lock and stands at entry `pos`; has
      upgraded the reference at `pos` and not yet loaded; or is over. */
  datatype Stage = Idle | HaveRetired | Visiting(pos: nat) | Holding(pos: nat) | Reported

  /** `counted` splits the sum by block (history). */
  datatype Scrape = Scrape(at: Stage, sum: nat, counted: seq<nat>)

  datatype State = State(retired: nat, blocks: seq<Block>, registry: seq<nat>, scrape: Scrape)

  datatype Event =
    | Open                    // a pool is made: prune and register, under the lock
    | Add(b: nat, n: nat)     // the owner counts
    | Swap(b: nat)            // a dropping pool takes its value out ...
    | Fold(b: nat)            // ... and adds it to the retired counter
    | Free(b: nat)            // the last strong reference goes
    | Prune                   // another scrape, under the lock
    | Begin                   // the followed scrape reads the retired counter
    | Lock
    | Upgrade
    | Load
    | Unlock

  const INIT := State(0, [], [], Scrape(Idle, 0, []))

  predicate Locked(s: State) {
    s.scrape.at.Visiting? || s.scrape.at.Holding?
  }

  function Alive(s: State, registry: seq<nat>): (r: seq<nat>)
    ensures |r| <= |registry|
  {
    if registry == [] then []
    else
      var b := registry[|registry| - 1];
      var rest := Alive(s, registry[..|registry| - 1]);
      if b < |s.blocks| && !s.blocks[b].phase.Freed? then rest + [b] else rest
  }

  function SetBlock(s: State, b: nat, block: Block): State
    requires b < |s.blocks|
  {
    s.(blocks := s.blocks[b := block])
  }

  function Givens(blocks: seq<Block>): (r: seq<nat>)
    ensures |r| == |blocks|
    ensures forall b :: 0 <= b < |r| ==> r[b] == blocks[b].given
  {
    seq(|blocks|, b requires 0 <= b < |blocks| => blocks[b].given)
  }

  function Evers(blocks: seq<Block>): (r: seq<nat>)
    ensures |r| == |blocks|
    ensures forall b :: 0 <= b < |r| ==> r[b] == Ever(blocks, b)
  {
    seq(|blocks|, b requires 0 <= b < |blocks| => Ever(blocks, b))
  }

  /** The true total: everything ever counted anywhere. */
  function Total(s: State): nat {
    SumOf(Evers(s.blocks))
  }

  function Step(s: State, e: Event): State {
    var sc := s.scrape;
    match e
    case Open =>
      if Locked(s) then s
      else s.(blocks := s.blocks + [Block(Live, 0, 0, 0)],
              registry := Alive(s, s.registry) + [|s.blocks|],
              scrape := sc.(counted := if sc.at.Idle? then sc.counted else sc.counted + [0]))
    case Add(b, n) =>
      if b < |s.blocks| && s.blocks[b].phase.Live?
      then SetBlock(s, b, s.blocks[b].(value := s.blocks[b].value + n)) else s
    case Swap(b) =>
      if b < |s.blocks| && s.blocks[b].phase.Live?
      then SetBlock(s, b, s.blocks[b].(phase := Swapped, value := 0, inTransit := s.blocks[b].value)) else s
    case Fold(b) =>
      if b < |s.blocks| && s.blocks[b].phase.Swapped?
      then
        var v := s.blocks[b].inTransit;
        SetBlock(s, b, s.blocks[b].(phase := Folded, inTransit := 0, given := s.blocks[b].given + v)).(
        retired := s.retired + v)
      else s
    case Free(b) =>
      if b < |s.blocks| && s.blocks[b].phase.Folded?
         && !(sc.at.Holding? && sc.at.pos < |s.registry| && s.registry[sc.at.pos] == b)
      then SetBlock(s, b, s.blocks[b].(phase := Freed)) else s
    case Prune => if Locked(s) then s else s.(registry := Alive(s, s.registry))
    case Begin =>
      if sc.at.Idle? || sc.at.Reported? then s.(scrape := Scrape(HaveRetired, s.retired, Givens(s.blocks))) else s
    case Lock => if sc.at.HaveRetired? then s.(scrape := sc.(at := Visiting(0))) else s
    case Upgrade =>
      if !sc.at.Visiting? || sc.at.pos >= |s.registry| then s
      else
        var b := s.registry[sc.at.pos];
        if b < |s.blocks| && !s.blocks[b].phase.Freed? then s.(scrape := sc.(at := Holding(sc.at.pos)))
        else s.(scrape := sc.(at := Visiting(sc.at.pos + 1)))
    case Load =>
      if !sc.at.Holding? || sc.at.pos >= |s.registry| then s
      else
        var b := s.registry[sc.at.pos];
        if b < |s.blocks| && b < |sc.counted| then
          s.(scrape := Scrape(Visiting(sc.at.pos + 1), sc.sum + s.blocks[b].value,
                              sc.counted[b := sc.counted[b] + s.blocks[b].value]))
        else s
    case Unlock =>
      if sc.at.Visiting? && sc.at.pos >= |s.registry| then
        s.(registry := Alive(s, s.registry), scrape := sc.(at := Reported))
      else s
  }

  function Run(s: State, events: seq<Event>): State {
    if events == [] then s else Step(Run(s, events[..|events| - 1]), events[|events| - 1])
  }

  // ---- What every run keeps ----

  /** A live block gave nothing away, a block past its swap holds nothing, and only a block
      between swap and add has something in transit; it gave nothing yet. */
  ghost predicate BlockOk(b: Block) {
    && (b.phase.Live? ==> b.inTransit == 0 && b.given == 0)
    && (!b.phase.Live? ==> b.value == 0)
    && (if b.phase.Swapped? then b.given == 0 else b.inTransit == 0)
  }

  /** Block `b` is registered at `pos` or later. */
  ghost predicate Ahead(registry: seq<nat>, pos: nat, b: nat) {
    exists p :: pos <= p < |registry| && registry[p] == b
  }

  /** A block that is not freed is registered. */
  ghost predicate KeptRegistered(blocks: seq<Block>, registry: seq<nat>, b: nat) {
    b < |blocks| && !blocks[b].phase.Freed? ==> Ahead(registry, 0, b)
  }

  /** Strictly increasing, and all below `n`. */
  ghost predicate Increasing(registry: seq<nat>, n: nat) {
    && (forall p :: 0 <= p < |registry| ==> registry[p] < n)
    && (forall p, r :: 0 <= p < r < |registry| ==> registry[p] < registry[r])
  }

  ghost predicate Consistent(s: State) {
    && (forall b :: 0 <= b < |s.blocks| ==> BlockOk(s.blocks[b]))
    && s.retired == SumOf(Givens(s.blocks))
    && Increasing(s.registry, |s.blocks|)
    && (forall b :: KeptRegistered(s.blocks, s.registry, b))
  }

  lemma AheadLast(registry: seq<nat>, pos: nat, last: nat, b: nat)
    requires pos <= |registry|
    ensures Ahead(registry + [last], pos, b) <==> Ahead(registry, pos, b) || b == last
  {
    var all := registry + [last];
    if Ahead(registry, pos, b) {
      var p :| pos <= p < |registry| && registry[p] == b;
      assert all[p] == b;
    }
    assert all[|registry|] == last;
  }

  /** Pruning keeps exactly the registered blocks that are not freed, in order. */
  lemma {:induction false} AlivePrunes(s: State, registry: seq<nat>, n: nat, b: nat)
    requires Increasing(registry, n)
    ensures Increasing(Alive(s, registry), n)
    ensures Ahead(Alive(s, registry), 0, b) <==> Ahead(registry, 0, b) && b < |s.blocks| && !s.blocks[b].phase.Freed?
  {
    if registry != [] {
      var k := |registry| - 1;
      var last, rest := registry[k], Alive(s, registry[..k]);
      assert registry == registry[..k] + [last];
      AheadLast(registry[..k], 0, last, b);
      AheadLast(rest, 0, last, b);
      AlivePrunes(s, registry[..k], last, b);
    }
  }

  lemma PruneConsistent(s: State)
    requires Consistent(s)
    ensures Consistent(s.(registry := Alive(s, s.registry)))
  {
    AlivePrunes(s, s.registry, |s.blocks|, 0);
    forall b
      ensures KeptRegistered(s.blocks, Alive(s, s.registry), b)
    {
      AlivePrunes(s, s.registry, |s.blocks|, b);
      assert KeptRegistered(s.blocks, s.registry, b);
    }
  }

  lemma OpenConsistent(s: State)
    requires Consistent(s) && !Locked(s)
    ensures Consistent(Step(s, Open))
  {
    PruneConsistent(s);
    NewConsistent(s.(registry := Alive(s, s.registry)), Step(s, Open));
  }

  /** A new block, registered last. */
  lemma NewConsistent(s: State, s': State)
    requires Consistent(s) && s'.retired == s.retired
    requires s'.blocks == s.blocks + [Block(Live, 0, 0, 0)] && s'.registry == s.registry + [|s.blocks|]
    ensures Consistent(s')
  {
    assert Givens(s'.blocks) == Givens(s.blocks) + [0];
    SumOfAppend(Givens(s.blocks), 0);
    forall b
      ensures KeptRegistered(s'.blocks, s'.registry, b)
    {
      assert KeptRegistered(s.blocks, s.registry, b);
      AheadLast(s.registry, 0, |s.blocks|, b);
    }
  }

  /** One block changes, the retired counter by what it gave. */
  lemma BlockConsistent(s: State, b: nat, block: Block, retired: nat)
    requires Consistent(s) && b < |s.blocks| && BlockOk(block)
    requires s.blocks[b].phase.Freed? ==> block.phase.Freed?
    requires retired + s.blocks[b].given == s.retired + block.given
    ensures Consistent(SetBlock(s, b, block).(retired := retired))
  {
    assert Givens(s.blocks[b := block]) == Givens(s.blocks)[b := block.given];
    SumOfUpdate(Givens(s.blocks), b, block.given);
    var blocks := s.blocks[b := block];
    forall c
      ensures KeptRegistered(blocks, s.registry, c)
    {
      assert KeptRegistered(s.blocks, s.registry, c);
    }
  }

  lemma StepConsistent(s: State, e: Event)
    requires Consistent(s)
    ensures Consistent(Step(s, e))
  {
    match e
    case Open => if !Locked(s) { OpenConsistent(s); }
    case Add(b, n) => if Step(s, e) != s { BlockConsistent(s, b, Step(s, e).blocks[b], s.retired); }
    case Swap(b) => if Step(s, e) != s { BlockConsistent(s, b, Step(s, e).blocks[b], s.retired); }
    case Fold(b) => if Step(s, e) != s { BlockConsistent(s, b, Step(s, e).blocks[b], Step(s, e).retired); }
    case Free(b) => if Step(s, e) != s { BlockConsistent(s, b, Step(s, e).blocks[b], s.retired); }
    case Prune => PruneConsistent(s);
    case Unlock => PruneConsistent(s);
    case _ =>
  }

  // ---- The sum never exceeds the truth ----

  /** What the scrape has counted of each block it may still visit was already retired; of any
      block, it was ever counted. */
  ghost predicate Bounded(s: State) {
    var sc := s.scrape;
    !sc.at.Idle? ==>
      && |sc.counted| == |s.blocks| && sc.sum == SumOf(sc.counted)
      && (forall b :: 0 <= b < |s.blocks| ==> sc.counted[b] <= Ever(s.blocks, b))
      && (sc.at.HaveRetired? ==> forall b :: 0 <= b < |s.blocks| ==> sc.counted[b] <= s.blocks[b].given)
      && (Locked(s) ==> forall b :: 0 <= b < |s.blocks| && Ahead(s.registry, sc.at.pos, b) ==>
                          sc.counted[b] <= s.blocks[b].given)
  }

  /** Whatever is ahead of the next entry is ahead of this one, and another block. */
  lemma AheadNext(registry: seq<nat>, n: nat, pos: nat, b: nat)
    requires Increasing(registry, n) && pos < |registry|
    ensures Ahead(registry, pos, b) <==> Ahead(registry, pos + 1, b) || b == registry[pos]
    ensures Ahead(registry, pos + 1, b) ==> b != registry[pos]
  {
  }

  lemma LoadBounded(s: State)
    requires Consistent(s) && Bounded(s)
    ensures Bounded(Step(s, Load))
  {
    var sc, s' := s.scrape, Step(s, Load);
    if sc.at.Holding? && sc.at.pos < |s.registry| {
      var b := s.registry[sc.at.pos];
      SumOfUpdate(sc.counted, b, sc.counted[b] + s.blocks[b].value);
      AheadNext(s.registry, |s.blocks|, sc.at.pos, b);
      var next := sc.at.pos + 1;
      forall c | 0 <= c < |s.blocks| && Ahead(s.registry, next, c)
        ensures s'.scrape.counted[c] <= s.blocks[c].given
      {
        AheadNext(s.registry, |s.blocks|, sc.at.pos, c);
      }
    }
  }

  lemma UpgradeBounded(s: State)
    requires Consistent(s) && Bounded(s)
    ensures Bounded(Step(s, Upgrade))
  {
    var sc, s' := s.scrape, Step(s, Upgrade);
    if sc.at.Visiting? && sc.at.pos < |s.registry| {
      forall c | 0 <= c < |s.blocks| && Ahead(s.registry, s'.scrape.at.pos, c)
        ensures sc.counted[c] <= s.blocks[c].given
      {
        AheadNext(s.registry, |s.blocks|, sc.at.pos, c);
      }
    }
  }

  /** A block changes without losing anything it ever counted or gave. */
  lemma BlockBounded(s: State, b: nat, block: Block, retired: nat)
    requires Bounded(s) && b < |s.blocks|
    requires Ever(s.blocks, b) <= block.value + block.inTransit + block.given && s.blocks[b].given <= block.given
    ensures Bounded(SetBlock(s, b, block).(retired := retired))
  {
  }

  lemma OpenBounded(s: State)
    requires Bounded(s) && !Locked(s)
    ensures Bounded(Step(s, Open))
  {
    var sc, s' := s.scrape, Step(s, Open);
    if !sc.at.Idle? {
      SumOfAppend(sc.counted, 0);
      forall b | 0 <= b < |s'.blocks|
        ensures s'.scrape.counted[b] <= Ever(s'.blocks, b)
        ensures sc.at.HaveRetired? ==> s'.scrape.counted[b] <= s'.blocks[b].given
      {
        if b < |s.blocks| {
          assert s'.blocks[b] == s.blocks[b] && s'.scrape.counted[b] == sc.counted[b];
        }
      }
    }
  }

  lemma StepBounded(s: State, e: Event)
    requires Consistent(s) && Bounded(s)
    ensures Bounded(Step(s, e))
  {
    match e
    case Open => if !Locked(s) { OpenBounded(s); }
    case Load => LoadBounded(s);
    case Upgrade => UpgradeBounded(s);
    case Add(b, n) => if Step(s, e) != s { BlockBounded(s, b, Step(s, e).blocks[b], s.retired); }
    case Swap(b) => if Step(s, e) != s { BlockBounded(s, b, Step(s, e).blocks[b], s.retired); }
    case Fold(b) => if Step(s, e) != s { BlockBounded(s, b, Step(s, e).blocks[b], Step(s, e).retired); }
    case Free(b) => if Step(s, e) != s { BlockBounded(s, b, Step(s, e).blocks[b], s.retired); }
    case _ =>
  }

  /** No block ever loses count. */
  lemma StepGrowsBlock(s: State, e: Event, b: nat)
    requires Consistent(s) && b < |s.blocks|
    ensures b < |Step(s, e).blocks| && Ever(s.blocks, b) <= Ever(Step(s, e).blocks, b)
  {
    assert BlockOk(s.blocks[b]);
  }

  lemma StepGrows(s: State, e: Event)
    requires Consistent(s)
    ensures Total(s) <= Total(Step(s, e))
  {
    var s' := Step(s, e);
    forall b | 0 <= b < |s.blocks|
      ensures b < |s'.blocks| && Evers(s.blocks)[b] <= Evers(s'.blocks)[b]
    {
      StepGrowsBlock(s, e, b);
    }
    assert |s.blocks| > 0 ==> |s.blocks| - 1 < |s'.blocks|;
    SumOfBelow(Evers(s.blocks), Evers(s'.blocks));
  }

  lemma {:induction false} RunKeeps(s: State, events: seq<Event>)
    requires Consistent(s) && Bounded(s)
    ensures Consistent(Run(s, events)) && Bounded(Run(s, events)) && Total(s) <= Total(Run(s, events))
  {
    if events != [] {
      var before := events[..|events| - 1];
      RunKeeps(s, before);
      StepConsistent(Run(s, before), events[|events| - 1]);
      StepBounded(Run(s, before), events[|events| - 1]);
      StepGrows(Run(s, before), events[|events| - 1]);
    }
  }

  /** In every run: what a scrape reports is at most the true total when it ends. Nothing is
      counted twice, retirements in between or not. */
  lemma ScrapeNeverDoubleCounts(events: seq<Event>)
    requires Run(INIT, events).scrape.at.Reported?
    ensures Run(INIT, events).scrape.sum <= Total(Run(INIT, events))
  {
    var s := Run(INIT, events);
    InitKeeps(events);
    SumOfBelow(s.scrape.counted, Evers(s.blocks));
  }

  lemma InitKeeps(events: seq<Event>)
    ensures Consistent(Run(INIT, events)) && Bounded(Run(INIT, events))
  {
    assert Givens([]) == [];
    RunKeeps(INIT, events);
  }

  /** A block that the scrape has upgraded and not yet loaded is registered and not freed. */
  predicate HeldAlive(s: State) {
    var at := s.scrape.at;
    at.Holding? ==> at.pos < |s.registry| && s.registry[at.pos] < |s.blocks| && !s.blocks[s.registry[at.pos]].phase.Freed?
  }

  /** In every interleaving, no block is freed under a scrape that holds it. */
  lemma {:induction false} HeldStaysAlive(events: seq<Event>)
    ensures HeldAlive(Run(INIT, events))
  {
    if events != [] {
      HeldStaysAlive(events[..|events| - 1]);
      StepHeldAlive(Run(INIT, events[..|events| - 1]), events[|events| - 1]);
    }
  }

  lemma StepHeldAlive(s: State, e: Event)
    requires HeldAlive(s)
    ensures HeldAlive(Step(s, e))
  {
  }

  // ---- Exactly which blocks a scrape reports ----

  predicate NoBegin(events: seq<Event>) {
    forall k :: 0 <= k < |events| ==> !events[k].Begin?
  }

  predicate NoSwapOf(events: seq<Event>, b: nat) {
    forall k :: 0 <= k < |events| ==> events[k] != Swap(b)
  }

  /** The scrape loads block `b` in this step. */
  predicate LoadsNow(s: State, e: Event, b: nat) {
    e.Load? && s.scrape.at.Holding? && s.scrape.at.pos < |s.registry| && s.registry[s.scrape.at.pos] == b
  }

  /** The scrape loads block `b`, and no swap of `b` comes before. */
  ghost predicate LoadedBeforeSwap(s: State, events: seq<Event>, b: nat)
    decreases |events|
  {
    && events != []
    && var before := events[..|events| - 1];
    || LoadedBeforeSwap(s, before, b)
    || (NoSwapOf(before, b) && LoadsNow(Run(s, before), events[|events| - 1], b))
  }

  /** Not yet visited, and still with all that it held. */
  ghost predicate Waits(s: State, b: nat, v: nat)
    requires b < |s.blocks| == |s.scrape.counted|
  {
    var at := s.scrape.at;
    && s.blocks[b].phase.Live? && s.blocks[b].value >= v && s.scrape.counted[b] == 0
    && (at.HaveRetired? || (Locked(s) && Ahead(s.registry, at.pos, b)))
  }

  /** What became of block `b`, worth `v` when the scrape began: counted in full once it was
      loaded in time, not counted at all once it was swapped before, and waiting until then. */
  ghost predicate Fate(s: State, b: nat, v: nat, loaded: bool, swapped: bool) {
    && b < |s.blocks| == |s.scrape.counted| && !s.scrape.at.Idle?
    && if loaded then s.scrape.counted[b] >= v
       else if swapped then !s.blocks[b].phase.Live? && s.scrape.counted[b] == 0
       else Waits(s, b, v)
  }

  lemma FateVisit(s: State, e: Event, b: nat, v: nat, swapped: bool)
    requires Consistent(s) && Fate(s, b, v, false, swapped) && (e.Upgrade? || e.Load?)
    ensures Fate(Step(s, e), b, v, !swapped && LoadsNow(s, e, b), swapped)
  {
    var at := s.scrape.at;
    assert BlockOk(s.blocks[b]);
    if Locked(s) && at.pos < |s.registry| {
      AheadNext(s.registry, |s.blocks|, at.pos, b);
    }
  }

  lemma FateLock(s: State, b: nat, v: nat, swapped: bool)
    requires Consistent(s) && Fate(s, b, v, false, swapped)
    ensures Fate(Step(s, Lock), b, v, false, swapped)
  {
    assert KeptRegistered(s.blocks, s.registry, b);
  }

  lemma FateOther(s: State, e: Event, b: nat, v: nat, swapped: bool)
    requires Consistent(s) && Fate(s, b, v, false, swapped)
    requires !e.Upgrade? && !e.Load? && !e.Lock? && !e.Begin?
    ensures Fate(Step(s, e), b, v, false, swapped || e == Swap(b))
  {
  }

  lemma FateLoaded(s: State, e: Event, b: nat, v: nat, swapped: bool)
    requires Fate(s, b, v, true, swapped) && !e.Begin?
    ensures Fate(Step(s, e), b, v, true, swapped)
  {
  }

  lemma {:induction false} FateRun(s: State, events: seq<Event>, b: nat, v: nat, swapped: bool)
    requires Consistent(s) && Bounded(s) && Fate(s, b, v, false, swapped) && NoBegin(events)
    ensures Fate(Run(s, events), b, v, !swapped && LoadedBeforeSwap(s, events, b), swapped || !NoSwapOf(events, b))
    decreases |events|
  {
    if events != [] {
      var before, e := events[..|events| - 1], events[|events| - 1];
      var mid := Run(s, before);
      FateRun(s, before, b, v, swapped);
      RunKeeps(s, before);
      NoSwapLast(events, b);
      if !swapped && LoadedBeforeSwap(s, before, b) {
        FateLoaded(mid, e, b, v, swapped || !NoSwapOf(before, b));
      } else if e.Upgrade? || e.Load? {
        FateVisit(mid, e, b, v, swapped || !NoSwapOf(before, b));
      } else if e.Lock? {
        FateLock(mid, b, v, swapped || !NoSwapOf(before, b));
      } else {
        FateOther(mid, e, b, v, swapped || !NoSwapOf(before, b));
      }
    }
  }

  lemma NoSwapLast(events: seq<Event>, b: nat)
    requires events != []
    ensures NoSwapOf(events, b) <==> NoSwapOf(events[..|events| - 1], b) && events[|events| - 1] != Swap(b)
  {
    var before := events[..|events| - 1];
    assert forall k :: 0 <= k < |before| ==> before[k] == events[k];
    if NoSwapOf(before, b) && events[|events| - 1] != Swap(b) {
      forall k | 0 <= k < |events|
        ensures events[k] != Swap(b)
      {
        assert k == |events| - 1 || events[k] == before[k];
      }
    }
  }

  /** Whether the scrape that begins in `s0` reports what block `b` held then: a live block if it
      is loaded before any swap of it, one between swap and add never, one past its add always. */
  ghost predicate Counted(s0: State, during: seq<Event>, b: nat)
    requires b < |s0.blocks|
  {
    match s0.blocks[b].phase
    case Live => LoadedBeforeSwap(Step(s0, Begin), during, b)
    case Swapped => false
    case _ => true
  }

  /** A scrape may begin. */
  predicate Ready(s: State) {
    s.scrape.at.Idle? || s.scrape.at.Reported?
  }

  lemma {:induction false} LoadedRun(s: State, events: seq<Event>, b: nat, v: nat)
    requires Fate(s, b, v, true, true) && NoBegin(events)
    ensures Fate(Run(s, events), b, v, true, true)
  {
    if events != [] {
      LoadedRun(s, events[..|events| - 1], b, v);
      FateLoaded(Run(s, events[..|events| - 1]), events[|events| - 1], b, v, true);
    }
  }

  /** Of each block a finished scrape counted at least what the block held when the scrape began,
      or nothing at all, and which of the two is decided by `Counted`. */
  lemma BlockReportedExactly(s0: State, during: seq<Event>, b: nat)
    requires Consistent(s0) && Bounded(s0) && Ready(s0) && b < |s0.blocks| && NoBegin(during)
    requires Run(Step(s0, Begin), during).scrape.at.Reported?
    ensures var s := Run(Step(s0, Begin), during);
            && b < |s.scrape.counted|
            && (if Counted(s0, during, b) then s.scrape.counted[b] >= Ever(s0.blocks, b) else s.scrape.counted[b] == 0)
  {
    var s1 := Step(s0, Begin);
    assert BlockOk(s0.blocks[b]);
    StepConsistent(s0, Begin);
    StepBounded(s0, Begin);
    var v := Ever(s0.blocks, b);
    if s0.blocks[b].phase.Live? {
      FateRun(s1, during, b, v, false);
    } else if s0.blocks[b].phase.Swapped? {
      FateRun(s1, during, b, v, true);
    } else {
      LoadedRun(s1, during, b, v);
    }
  }

  /** In every run: what a block held when a scrape began is in its report if and only if the
      block was live and loaded before any swap of it, or already past its add. */
  lemma ReportedIffLoadedInTime(past: seq<Event>, during: seq<Event>, b: nat)
    requires var s0 := Run(INIT, past); Ready(s0) && b < |s0.blocks| && Ever(s0.blocks, b) > 0
    requires NoBegin(during) && Run(Step(Run(INIT, past), Begin), during).scrape.at.Reported?
    ensures var s0 := Run(INIT, past);
            var s := Run(Step(s0, Begin), during);
            && b < |s.scrape.counted|
            && (s.scrape.counted[b] >= Ever(s0.blocks, b) <==> Counted(s0, during, b))
            && (s.scrape.counted[b] == 0 <==> !Counted(s0, during, b))
  {
    InitKeeps(past);
    BlockReportedExactly(Run(INIT, past), during, b);
  }

  /** Some block's count is missed. */
  ghost predicate SomeMissed(s0: State, during: seq<Event>) {
    exists b :: 0 <= b < |s0.blocks| && Ever(s0.blocks, b) > 0 && !Counted(s0, during, b)
  }

  lemma NothingMissed(s0: State, during: seq<Event>)
    requires Consistent(s0) && Bounded(s0) && Ready(s0) && NoBegin(during)
    requires Run(Step(s0, Begin), during).scrape.at.Reported? && !SomeMissed(s0, during)
    ensures Run(Step(s0, Begin), during).scrape.sum >= Total(s0)
  {
    var s := Run(Step(s0, Begin), during);
    StepConsistent(s0, Begin);
    StepBounded(s0, Begin);
    RunKeeps(Step(s0, Begin), during);
    forall b | 0 <= b < |s0.blocks|
      ensures b < |s.scrape.counted| && Evers(s0.blocks)[b] <= s.scrape.counted[b]
    {
      BlockReportedExactly(s0, during, b);
    }
    RunOpens(Step(s0, Begin), during);
    SumOfBelow(Evers(s0.blocks), s.scrape.counted);
  }

  lemma {:induction false} RunOpens(s: State, events: seq<Event>)
    ensures |s.blocks| <= |Run(s, events).blocks|
  {
    if events != [] {
      RunOpens(s, events[..|events| - 1]);
    }
  }

  predicate NoSwap(events: seq<Event>) {
    forall k :: 0 <= k < |events| ==> !events[k].Swap?
  }

  /** Without an overlapping retirement every block is loaded in time. */
  lemma UndisturbedCounts(s0: State, during: seq<Event>, b: nat)
    requires Consistent(s0) && Bounded(s0) && Ready(s0) && b < |s0.blocks| && !s0.blocks[b].phase.Swapped?
    requires NoBegin(during) && NoSwap(during) && Run(Step(s0, Begin), during).scrape.at.Reported?
    ensures Counted(s0, during, b)
  {
    if s0.blocks[b].phase.Live? {
      assert BlockOk(s0.blocks[b]);
      StepConsistent(s0, Begin);
      StepBounded(s0, Begin);
      FateRun(Step(s0, Begin), during, b, Ever(s0.blocks, b), false);
      assert NoSwapOf(during, b);
    }
  }

  /** If no pool is between its swap and its add when the scrape begins, and none swaps while
      it runs, it reports at least the true total of when it began. */
  lemma UndisturbedScrapeMissesNothing(past: seq<Event>, during: seq<Event>)
    requires var s0 := Run(INIT, past);
             Ready(s0) && forall b :: 0 <= b < |s0.blocks| ==> !s0.blocks[b].phase.Swapped?
    requires NoBegin(during) && NoSwap(during) && Run(Step(Run(INIT, past), Begin), during).scrape.at.Reported?
    ensures Run(Step(Run(INIT, past), Begin), during).scrape.sum >= Total(Run(INIT, past))
  {
    InitKeeps(past);
    UndisturbedFrom(Run(INIT, past), during);
  }

  lemma UndisturbedFrom(s0: State, during: seq<Event>)
    requires Consistent(s0) && Bounded(s0) && Ready(s0)
    requires forall b :: 0 <= b < |s0.blocks| ==> !s0.blocks[b].phase.Swapped?
    requires NoBegin(during) && NoSwap(during) && Run(Step(s0, Begin), during).scrape.at.Reported?
    ensures Run(Step(s0, Begin), during).scrape.sum >= Total(s0)
  {
    forall b | 0 <= b < |s0.blocks|
      ensures Counted(s0, during, b)
    {
      UndisturbedCounts(s0, during, b);
    }
    NothingMissed(s0, during);
  }

  /** So a scrape that no retirement overlaps reports at least what any earlier one did. */
  lemma UndisturbedScrapesGrow(past: seq<Event>, between: seq<Event>, during: seq<Event>)
    requires Run(INIT, past).scrape.at.Reported?
    requires var s2 := Run(Run(INIT, past), between);
             && Ready(s2) && (forall b :: 0 <= b < |s2.blocks| ==> !s2.blocks[b].phase.Swapped?)
             && NoBegin(during) && NoSwap(during) && Run(Step(s2, Begin), during).scrape.at.Reported?
    ensures Run(INIT, past).scrape.sum <= Run(Step(Run(Run(INIT, past), between), Begin), during).scrape.sum
  {
    ScrapeNeverDoubleCounts(past);
    InitKeeps(past);
    RunKeeps(Run(INIT, past), between);
    UndisturbedFrom(Run(Run(INIT, past), between), during);
  }

  lemma {:induction false} RunConcat(s: State, first: seq<Event>, second: seq<Event>)
    ensures Run(s, first + second) == Run(Run(s, first), second)
  {
    if second == [] {
      assert first + second == first;
    } else {
      var n, e := |second| - 1, second[|second| - 1];
      RunConcat(s, first, second[..n]);
      RunSnoc(s, first + second[..n], e);
      RunSnoc(Run(s, first), second[..n], e);
      Resplit(first, second);
    }
  }

  lemma Resplit<T>(first: seq<T>, second: seq<T>)
    requires second != []
    ensures var n := |second| - 1;
            second[..n] + [second[n]] == second && first + second[..n] + [second[n]] == first + second
  {
  }

  lemma RunSnoc(s: State, events: seq<Event>, e: Event)
    ensures Run(s, events + [e]) == Step(Run(s, events), e)
  {
    assert (events + [e])[..|events|] == events;
  }

  // ---- What a missed block costs ----

  /** Past its swap, worth `v`, and counted with nothing. */
  ghost predicate Missed(s: State, b: nat, v: nat) {
    && b < |s.blocks| == |s.scrape.counted| && !s.scrape.at.Idle?
    && !s.blocks[b].phase.Live? && Ever(s.blocks, b) == v && s.scrape.counted[b] == 0
  }

  lemma StepMissed(s: State, e: Event, b: nat, v: nat)
    requires Consistent(s) && Missed(s, b, v) && !e.Begin?
    ensures Missed(Step(s, e), b, v)
  {
    if e.Load? {
      LoadMissed(s, b, v);
    } else {
      OtherMissed(s, e, b, v);
    }
  }

  lemma LoadMissed(s: State, b: nat, v: nat)
    requires Consistent(s) && Missed(s, b, v)
    ensures Missed(Step(s, Load), b, v)
  {
    assert BlockOk(s.blocks[b]);
  }

  lemma OtherMissed(s: State, e: Event, b: nat, v: nat)
    requires Consistent(s) && Missed(s, b, v) && !e.Begin? && !e.Load?
    ensures Missed(Step(s, e), b, v)
  {
    assert BlockOk(s.blocks[b]);
  }

  lemma {:induction false} RunMissed(s: State, events: seq<Event>, b: nat, v: nat)
    requires Consistent(s) && Bounded(s) && Missed(s, b, v) && NoBegin(events)
    ensures Missed(Run(s, events), b, v)
  {
    if events != [] {
      var before := events[..|events| - 1];
      RunMissed(s, before, b, v);
      RunKeeps(s, before);
      StepMissed(Run(s, before), events[|events| - 1], b, v);
    }
  }

  /** Counted with nothing, a block worth `v` keeps the report `v` below the total. */
  lemma MissedSum(s: State, b: nat, v: nat)
    requires Bounded(s) && !s.scrape.at.Idle? && b < |s.blocks| && s.scrape.counted[b] == 0 && v <= Ever(s.blocks, b)
    ensures s.scrape.sum + v <= Total(s)
  {
    var counted := s.scrape.counted;
    SumOfUpdate(counted, b, v);
    forall k | 0 <= k < |counted|
      ensures counted[b := v][k] <= Evers(s.blocks)[k]
    {
    }
    SumOfBelow(counted[b := v], Evers(s.blocks));
  }

  /** The scrape loads block `b` somewhere in the run. */
  ghost predicate Loaded(s: State, events: seq<Event>, b: nat)
    decreases |events|
  {
    && events != []
    && var before := events[..|events| - 1];
    Loaded(s, before, b) || LoadsNow(Run(s, before), events[|events| - 1], b)
  }

  /** Live and counted with nothing, as long as it is live. */
  ghost predicate UncountedIfLive(s: State, b: nat) {
    && !s.scrape.at.Idle? && |s.scrape.counted| == |s.blocks|
    && (b < |s.blocks| && s.blocks[b].phase.Live? ==> s.scrape.counted[b] == 0)
  }

  lemma UncountedStep(s: State, e: Event, b: nat)
    requires UncountedIfLive(s, b) && !e.Begin? && !LoadsNow(s, e, b)
    ensures UncountedIfLive(Step(s, e), b)
  {
  }

  /** A block that is live and was not loaded has not been counted, whenever it was opened. */
  lemma {:induction false} UncountedRun(s: State, events: seq<Event>, b: nat)
    requires UncountedIfLive(s, b) && NoBegin(events) && !Loaded(s, events, b)
    ensures UncountedIfLive(Run(s, events), b)
  {
    if events != [] {
      UncountedRun(s, events[..|events| - 1], b);
      UncountedStep(Run(s, events[..|events| - 1]), events[|events| - 1], b);
    }
  }

  /** A block swapped at any time after the scrape began and before it was loaded is missed
      altogether, whether it was opened before or after the beginning: from then on the sum stays
      below the true total by all that the block held. */
  lemma SwapDuringScrapeIsMissed(past: seq<Event>, before: seq<Event>, b: nat, after: seq<Event>)
    requires Ready(Run(INIT, past)) && NoBegin(before) && NoBegin(after)
    requires var s1 := Step(Run(INIT, past), Begin);
             b < |Run(s1, before).blocks| && Run(s1, before).blocks[b].phase.Live? && !Loaded(s1, before, b)
    ensures var s2 := Run(Step(Run(INIT, past), Begin), before);
            var s := Run(Step(s2, Swap(b)), after);
            s.scrape.sum + s2.blocks[b].value <= Total(s)
  {
    var s0 := Run(INIT, past);
    var s1 := Step(s0, Begin);
    InitKeeps(past);
    StepConsistent(s0, Begin);
    StepBounded(s0, Begin);
    assert b < |s0.blocks| ==> BlockOk(s0.blocks[b]);
    UncountedRun(s1, before, b);
    RunKeeps(s1, before);
    SwapMisses(Run(s1, before), b, after);
  }

  lemma SwapMisses(s: State, b: nat, after: seq<Event>)
    requires Consistent(s) && Bounded(s) && b < |s.blocks| == |s.scrape.counted| && !s.scrape.at.Idle?
    requires s.blocks[b].phase.Live? && s.scrape.counted[b] == 0 && NoBegin(after)
    ensures var s' := Run(Step(s, Swap(b)), after);
            s'.scrape.sum + s.blocks[b].value <= Total(s')
  {
    var s1 := Step(s, Swap(b));
    assert BlockOk(s.blocks[b]);
    StepConsistent(s, Swap(b));
    StepBounded(s, Swap(b));
    RunKeeps(s1, after);
    RunMissed(s1, after, b, s.blocks[b].value);
    MissedSum(Run(s1, after), b, s.blocks[b].value);
  }

  // ---- When a report falls ----

  predicate NoAdd(events: seq<Event>) {
    forall k :: 0 <= k < |events| ==> !events[k].Add?
  }

  lemma QuietBlock(s: State, e: Event, b: nat)
    requires Consistent(s) && !e.Add? && b < |s.blocks|
    ensures b < |Step(s, e).blocks| && Ever(Step(s, e).blocks, b) == Ever(s.blocks, b)
    ensures |Step(s, e).blocks| == |s.blocks| || Step(s, e).blocks == s.blocks + [Block(Live, 0, 0, 0)]
  {
    assert BlockOk(s.blocks[b]);
  }

  lemma QuietStep(s: State, e: Event)
    requires Consistent(s) && !e.Add?
    ensures Total(Step(s, e)) == Total(s)
    ensures forall b :: 0 <= b < |s.blocks| ==> b < |Step(s, e).blocks| && Ever(Step(s, e).blocks, b) == Ever(s.blocks, b)
  {
    forall b | 0 <= b < |s.blocks|
      ensures b < |Step(s, e).blocks| && Ever(Step(s, e).blocks, b) == Ever(s.blocks, b)
    {
      QuietBlock(s, e, b);
    }
    if s.blocks != [] {
      QuietBlock(s, e, 0);
    }
    SameTotal(s, Step(s, e));
  }

  lemma SameTotal(s: State, s': State)
    requires |s'.blocks| == |s.blocks| || s'.blocks == s.blocks + [Block(Live, 0, 0, 0)]
    requires forall b :: 0 <= b < |s.blocks| ==> Ever(s'.blocks, b) == Ever(s.blocks, b)
    ensures Total(s') == Total(s)
  {
    if |s'.blocks| == |s.blocks| {
      assert Evers(s'.blocks) == Evers(s.blocks);
    } else {
      assert Evers(s'.blocks) == Evers(s.blocks) + [0];
      SumOfAppend(Evers(s.blocks), 0);
    }
  }

  lemma {:induction false} QuietRun(s: State, events: seq<Event>)
    requires Consistent(s) && Bounded(s) && NoAdd(events)
    ensures Total(Run(s, events)) == Total(s)
    ensures forall b :: 0 <= b < |s.blocks| ==>
              b < |Run(s, events).blocks| && Ever(Run(s, events).blocks, b) == Ever(s.blocks, b)
  {
    if events != [] {
      var before := events[..|events| - 1];
      QuietRun(s, before);
      RunKeeps(s, before);
      QuietStep(Run(s, before), events[|events| - 1]);
    }
  }

  /** What the owners of live blocks counted in a run. */
  ghost function CountedIn(events: seq<Event>): nat {
    if events == [] then 0
    else
      var before, e := events[..|events| - 1], events[|events| - 1];
      var s := Run(INIT, before);
      CountedIn(before) + if e.Add? && e.b < |s.blocks| && s.blocks[e.b].phase.Live? then e.n else 0
  }

  /** Nothing counted is ever lost or made up: not by a swap, an add, a free, a prune or a scrape. */
  lemma {:induction false} TotalIsWhatWasCounted(events: seq<Event>)
    ensures Total(Run(INIT, events)) == CountedIn(events)
  {
    if events == [] {
      assert Evers([]) == [];
    } else {
      var before, e := events[..|events| - 1], events[|events| - 1];
      var s := Run(INIT, before);
      TotalIsWhatWasCounted(before);
      InitKeeps(before);
      if e.Add? {
        AddTotal(s, e.b, e.n);
      } else {
        QuietStep(s, e);
      }
    }
  }

  lemma AddTotal(s: State, b: nat, n: nat)
    ensures Total(Step(s, Add(b, n))) == Total(s) + if b < |s.blocks| && s.blocks[b].phase.Live? then n else 0
  {
    if b < |s.blocks| && s.blocks[b].phase.Live? {
      var total := Ever(s.blocks, b) + n;
      assert Evers(Step(s, Add(b, n)).blocks) == Evers(s.blocks)[b := total];
      SumOfUpdate(Evers(s.blocks), b, total);
    }
  }

  /** While nothing is counted, a report falls below the true total, and so below any earlier
      report that was right, if and only if some block that had counted was swapped before it was
      loaded, or was between swap and add when the scrape began. */
  lemma ReportFallsIffMissed(past: seq<Event>, during: seq<Event>)
    requires Ready(Run(INIT, past)) && NoBegin(during) && NoAdd(during)
    requires Run(Step(Run(INIT, past), Begin), during).scrape.at.Reported?
    ensures var s0 := Run(INIT, past);
            Run(Step(s0, Begin), during).scrape.sum < Total(s0) <==> SomeMissed(s0, during)
  {
    var s0 := Run(INIT, past);
    var s1 := Step(s0, Begin);
    var s := Run(s1, during);
    InitKeeps(past);
    if SomeMissed(s0, during) {
      var b :| 0 <= b < |s0.blocks| && Ever(s0.blocks, b) > 0 && !Counted(s0, during, b);
      BlockReportedExactly(s0, during, b);
      StepConsistent(s0, Begin);
      StepBounded(s0, Begin);
      RunKeeps(s1, during);
      QuietStep(s0, Begin);
      QuietRun(s1, during);
      MissedSum(s, b, Ever(s0.blocks, b));
    } else {
      NothingMissed(s0, during);
    }
  }

  /** Two scrapes of one run: if the first was right and nothing was counted since, the second
      reports less if and only if it misses some block that had counted. */
  lemma SecondReportFallsIffMissed(past: seq<Event>, between: seq<Event>, during: seq<Event>)
    requires var s1 := Run(INIT, past); s1.scrape.at.Reported? && s1.scrape.sum == Total(s1)
    requires NoAdd(between) && NoAdd(during) && NoBegin(during) && Ready(Run(Run(INIT, past), between))
    requires Run(Step(Run(Run(INIT, past), between), Begin), during).scrape.at.Reported?
    ensures var s1 := Run(INIT, past);
            var s2 := Run(s1, between);
            Run(Step(s2, Begin), during).scrape.sum < s1.scrape.sum <==> SomeMissed(s2, during)
  {
    InitKeeps(past);
    QuietRun(Run(INIT, past), between);
    RunConcat(INIT, past, between);
    ReportFallsIffMissed(past + between, during);
  }

  /** A scrape from its first read to its end over a single registered block. */
  lemma ScrapeOne(s: State, block: Block) returns (events: seq<Event>)
    requires s.blocks == [block] && s.registry == [0] && !block.phase.Freed? && s.scrape.at.HaveRetired?
    requires s.scrape.counted == [0] && s.scrape.sum == 0
    ensures Run(s, events) == s.(scrape := Scrape(Reported, block.value, [block.value]))
  {
    var s1 := s.(scrape := s.scrape.(at := Visiting(0)));
    var s2 := s.(scrape := s.scrape.(at := Holding(0)));
    var s3 := s.(scrape := Scrape(Visiting(1), block.value, [block.value]));
    assert Step(s, Lock) == s1;
    assert Step(s1, Upgrade) == s2;
    assert s.scrape.counted[0 := block.value] == [block.value];
    assert Step(s2, Load) == s3;
    assert Alive(s3, [0]) == [0];
    RunSnoc(s, [], Lock);
    RunSnoc(s, [] + [Lock], Upgrade);
    RunSnoc(s, [] + [Lock] + [Upgrade], Load);
    RunSnoc(s, [] + [Lock] + [Upgrade] + [Load], Unlock);
    events := [] + [Lock] + [Upgrade] + [Load] + [Unlock];
  }

  /** The documentation says that counters only ever grow. Two scrapes of one run, the second
      with a pool retiring in between its two reads, report 1 and then 0. */
  lemma CountersMayFall() returns (first: seq<Event>, second: seq<Event>)
    ensures Run(INIT, first).scrape == Scrape(Reported, 1, [1])
    ensures Run(Run(INIT, first), second).scrape == Scrape(Reported, 0, [0])
  {
    var s1 := State(0, [Block(Live, 1, 0, 0)], [0], Scrape(HaveRetired, 0, [0]));
    var empty := s1.(blocks := [Block(Live, 0, 0, 0)], scrape := Scrape(Idle, 0, []));
    var added := s1.(scrape := Scrape(Idle, 0, []));
    assert Step(INIT, Open) == empty;
    assert empty.blocks[0 := Block(Live, 1, 0, 0)] == added.blocks;
    assert Step(empty, Add(0, 1)) == added;
    assert Givens(s1.blocks) == [0];
    assert Step(added, Begin) == s1;
    RunSnoc(INIT, [], Open);
    RunSnoc(INIT, [] + [Open], Add(0, 1));
    RunSnoc(INIT, [] + [Open] + [Add(0, 1)], Begin);
    var scrape := ScrapeOne(s1, s1.blocks[0]);
    first := [] + [Open] + [Add(0, 1)] + [Begin] + scrape;
    RunConcat(INIT, [] + [Open] + [Add(0, 1)] + [Begin], scrape);

    var s2 := Run(INIT, first);
    var s3 := s1.(blocks := [Block(Swapped, 0, 1, 0)]);
    assert Step(s2, Begin) == s1;
    assert s1.blocks[0 := Block(Swapped, 0, 1, 0)] == s3.blocks;
    assert Step(s1, Swap(0)) == s3;
    RunSnoc(s2, [], Begin);
    RunSnoc(s2, [] + [Begin], Swap(0));
    var again := ScrapeOne(s3, s3.blocks[0]);
    second := [] + [Begin] + [Swap(0)] + again;
    RunConcat(s2, [] + [Begin] + [Swap(0)], again);
  }
}
