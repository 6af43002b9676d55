/**
 The thread-local cache in front of the table of worker buffers. Caches outlive phases and
 addresses are reused, but generations are not: a cache hit is always the buffers that the
 locked table lookup would return.
 */
module WorkerBufferCache {
  import opened AmMessage

  type Address = nat

  const MAX_GENERATION: nat := 0xFFFF_FFFF_FFFF_FFFF

  /** A thread inside allocate_am_cache_generation, or with a generation it has been given. */
  datatype Ticket = NoTicket | Loaded(value: nat) | Granted(generation: nat)

  /** The phase and the worker that a live set of buffers was made for. */
  datatype Owner = Owner(generation: nat, worker: nat)

  /** A thread's cache entry; empty stands for the null pointer. */
  datatype Cache = Empty | Cache(generation: nat, worker: nat, buffers: Address)

  datatype Phase = Unregistered | Registered(generation: nat, table: seq<Option<Address>>)

  datatype State = State(counter: nat, tickets: seq<Ticket>, phase: Phase, live: map<Address, Owner>,
                         caches: seq<Cache>)

  datatype Step =
    | Load(t: nat)
    | CompareExchange(t: nat, spuriousFailure: bool)
    | Register(t: nat)
    | Clear
    | Lookup(t: nat, worker: nat, spot: Address)

  // ---------- generations ----------

  /** One turn of the loop: give up at the maximum, otherwise exchange or reload the counter. */
  function DoCompareExchange(s: State, t: nat, spuriousFailure: bool): State
    requires t < |s.tickets| && s.tickets[t].Loaded?
  {
    var next := s.tickets[t].value;
    if next == MAX_GENERATION then s.(tickets := s.tickets[t := NoTicket])
    else if s.counter == next && !spuriousFailure
    then s.(counter := next + 1, tickets := s.tickets[t := Granted(next)])
    else s.(tickets := s.tickets[t := Loaded(s.counter)])
  }

  // ---------- the lookup ----------

  /** The locked path: grow the table, make the buffers on first use. */
  function TableLookup(s: State, worker: nat, spot: Address): (r: (State, Address))
    requires s.phase.Registered?
    ensures r.0.phase.Registered? && worker < |r.0.phase.table| && r.0.phase.table[worker] == Some(r.1)
  {
    var table := s.phase.table;
    var grown := if worker < |table| then table else table + seq(worker + 1 - |table|, _ => None);
    if grown[worker].Some? then (s.(phase := s.phase.(table := grown)), grown[worker].value)
    else (s.(phase := s.phase.(table := grown[worker := Some(spot)]),
             live := s.live[spot := Owner(s.phase.generation, worker)]), spot)
  }

  predicate Hit(s: State, t: nat, worker: nat)
    requires t < |s.caches| && s.phase.Registered?
  {
    && s.caches[t].Cache?
    && s.caches[t].generation == s.phase.generation && s.caches[t].worker == worker
  }

  /** worker_buffers: the cache if it matches, otherwise the table, whose answer is then cached. */
  function DoLookup(s: State, t: nat, worker: nat, spot: Address): (State, Address)
    requires t < |s.caches| && s.phase.Registered?
  {
    if Hit(s, t, worker) then (s, s.caches[t].buffers)
    else
      var (s', buffers) := TableLookup(s, worker, spot);
      (s'.(caches := s'.caches[t := Cache(s.phase.generation, worker, buffers)]), buffers)
  }

  // ---------- steps ----------

  ghost predicate Enabled(s: State, step: Step)
  {
    match step
    case Load(t) => t < |s.tickets| && s.tickets[t].NoTicket?
    case CompareExchange(t, _) => t < |s.tickets| && s.tickets[t].Loaded?
    case Register(t) => t < |s.tickets| && s.tickets[t].Granted? && s.phase.Unregistered?
    case Clear => s.phase.Registered?
    case Lookup(t, _, spot) => t < |s.caches| && s.phase.Registered? && spot !in s.live
  }

  ghost function Apply(s: State, step: Step): State
    requires Enabled(s, step)
  {
    match step
    case Load(t) => s.(tickets := s.tickets[t := Loaded(s.counter)])
    case CompareExchange(t, spuriousFailure) => DoCompareExchange(s, t, spuriousFailure)
    case Register(t) => s.(phase := Registered(s.tickets[t].generation, []), tickets := s.tickets[t := NoTicket])
    case Clear => s.(phase := Unregistered, live := map[])
    case Lookup(t, worker, spot) => DoLookup(s, t, worker, spot).0
  }

  // ---------- the invariant ----------

  /** A generation that has been handed out and not used for a phase yet. */
  ghost predicate Unused(s: State, generation: nat)
  {
    && generation < s.counter
    && (s.phase.Registered? ==> s.phase.generation != generation)
    && (forall i :: 0 <= i < |s.caches| && s.caches[i].Cache? ==> s.caches[i].generation != generation)
  }

  ghost predicate TicketsOk(s: State)
  {
    && (forall t :: 0 <= t < |s.tickets| && s.tickets[t].Loaded? ==> s.tickets[t].value <= s.counter)
    && (forall t :: 0 <= t < |s.tickets| && s.tickets[t].Granted? ==> Unused(s, s.tickets[t].generation))
    && (forall t, u :: 0 <= t < u < |s.tickets| && s.tickets[t].Granted? && s.tickets[u].Granted? ==>
          s.tickets[t].generation != s.tickets[u].generation)
  }

  ghost predicate TableOk(s: State)
  {
    match s.phase
    case Unregistered => s.live == map[]
    case Registered(generation, table) =>
      && generation < s.counter
      && (forall w :: 0 <= w < |table| && table[w].Some? ==>
            table[w].value in s.live && s.live[table[w].value] == Owner(generation, w))
      && (forall a :: a in s.live ==>
            s.live[a].generation == generation && s.live[a].worker < |table| && table[s.live[a].worker] == Some(a))
  }

  ghost predicate CachesOk(s: State)
  {
    forall i :: 0 <= i < |s.caches| && s.caches[i].Cache? ==>
      && s.caches[i].generation < s.counter
      && (s.phase.Registered? && s.caches[i].generation == s.phase.generation ==>
            s.caches[i].worker < |s.phase.table| && s.phase.table[s.caches[i].worker] == Some(s.caches[i].buffers))
  }

  ghost predicate Inv(s: State)
  {
    s.counter <= MAX_GENERATION && TicketsOk(s) && TableOk(s) && CachesOk(s)
  }

  lemma TableLookupKeepsInv(s: State, worker: nat, spot: Address)
    requires Inv(s) && s.phase.Registered? && spot !in s.live
    ensures Inv(TableLookup(s, worker, spot).0)
  {
    var s' := TableLookup(s, worker, spot).0;
    assert TableOk(s');
    assert CachesOk(s');
  }

  lemma LookupKeepsInv(s: State, t: nat, worker: nat, spot: Address)
    requires Inv(s) && Enabled(s, Lookup(t, worker, spot))
    ensures Inv(DoLookup(s, t, worker, spot).0)
  {
    if !Hit(s, t, worker) {
      TableLookupKeepsInv(s, worker, spot);
    }
  }

  lemma StepKeepsInv(s: State, step: Step)
    requires Inv(s) && Enabled(s, step)
    ensures Inv(Apply(s, step))
  {
    match step
    case Lookup(t, worker, spot) => LookupKeepsInv(s, t, worker, spot);
    case _ =>
  }

  /** Any number of threads, no phase, empty caches. */
  function Initial(threads: nat): State
  {
    State(1, seq(threads, _ => NoTicket), Unregistered, map[], seq(threads, _ => Empty))
  }

  datatype Outcome = Blocked | Reached(state: State)

  ghost function Execute(threads: nat, steps: seq<Step>): Outcome
  {
    if steps == [] then Reached(Initial(threads))
    else
      var before := Execute(threads, steps[..|steps| - 1]);
      if before.Reached? && Enabled(before.state, steps[|steps| - 1])
      then Reached(Apply(before.state, steps[|steps| - 1]))
      else Blocked
  }

  lemma {:induction false} RunKeepsInv(threads: nat, steps: seq<Step>)
    requires Execute(threads, steps).Reached?
    ensures Inv(Execute(threads, steps).state)
  {
    if steps != [] {
      RunKeepsInv(threads, steps[..|steps| - 1]);
      StepKeepsInv(Execute(threads, steps[..|steps| - 1]).state, steps[|steps| - 1]);
    }
  }

  /**
   In every state of every run, for every thread and worker: the cached lookup answers what the
   locked table lookup would answer, and the answer is the live buffers of that worker in the
   registered phase.
   */
  lemma CacheAgreesWithTable(threads: nat, steps: seq<Step>, t: nat, worker: nat, spot: Address)
    requires Execute(threads, steps).Reached? && Enabled(Execute(threads, steps).state, Lookup(t, worker, spot))
    ensures var s := Execute(threads, steps).state;
            var (s', buffers) := DoLookup(s, t, worker, spot);
            && buffers == TableLookup(s, worker, spot).1
            && buffers in s'.live && s'.live[buffers] == Owner(s.phase.generation, worker)
  {
    RunKeepsInv(threads, steps);
    LookupKeepsInv(Execute(threads, steps).state, t, worker, spot);
  }

  /** A lookup leaves the answer in the thread's cache: the next lookup of the same worker hits and changes nothing. */
  lemma LookupFillsCache(threads: nat, steps: seq<Step>, t: nat, worker: nat, spot: Address, spot': Address)
    requires Execute(threads, steps).Reached? && Enabled(Execute(threads, steps).state, Lookup(t, worker, spot))
    ensures var (s', buffers) := DoLookup(Execute(threads, steps).state, t, worker, spot);
            s'.phase.Registered? && Hit(s', t, worker) && DoLookup(s', t, worker, spot') == (s', buffers)
  {
    RunKeepsInv(threads, steps);
  }

  /** Two workers of a phase never share buffers. */
  lemma WorkersDoNotShare(threads: nat, steps: seq<Step>, v: nat, w: nat)
    requires Execute(threads, steps).Reached? && Execute(threads, steps).state.phase.Registered?
    requires v < w < |Execute(threads, steps).state.phase.table|
    requires Execute(threads, steps).state.phase.table[v].Some?
    ensures Execute(threads, steps).state.phase.table[v] != Execute(threads, steps).state.phase.table[w]
  {
    RunKeepsInv(threads, steps);
  }

  /** The generations that a run has used for its phases, in order. */
  ghost function Generations(threads: nat, steps: seq<Step>): seq<nat>
    requires Execute(threads, steps).Reached?
  {
    if steps == [] then []
    else
      var before := Execute(threads, steps[..|steps| - 1]).state;
      var step := steps[|steps| - 1];
      Generations(threads, steps[..|steps| - 1])
      + if step.Register? then [before.tickets[step.t].generation] else []
  }

  /** Nothing that was handed out before is unused again. */
  ghost predicate Spent(s: State, generation: nat)
  {
    generation < s.counter && forall t :: 0 <= t < |s.tickets| && s.tickets[t].Granted? ==>
      s.tickets[t].generation != generation
  }

  lemma SpentStays(s: State, step: Step, generation: nat)
    requires Inv(s) && Enabled(s, step) && Spent(s, generation)
    ensures Spent(Apply(s, step), generation)
  {
  }

  lemma {:induction false} GenerationsAreSpent(threads: nat, steps: seq<Step>, i: nat)
    requires Execute(threads, steps).Reached? && i < |Generations(threads, steps)|
    ensures Spent(Execute(threads, steps).state, Generations(threads, steps)[i])
  {
    var front, step := steps[..|steps| - 1], steps[|steps| - 1];
    RunKeepsInv(threads, front);
    if i < |Generations(threads, front)| {
      GenerationsAreSpent(threads, front, i);
      SpentStays(Execute(threads, front).state, step, Generations(threads, front)[i]);
    }
  }

  /** However the compare-exchange loops interleave, no two phases of a run have the same generation. */
  lemma {:induction false} GenerationsAreNeverReused(threads: nat, steps: seq<Step>, i: nat, j: nat)
    requires Execute(threads, steps).Reached? && i < j < |Generations(threads, steps)|
    ensures Generations(threads, steps)[i] != Generations(threads, steps)[j]
  {
    var front := steps[..|steps| - 1];
    if j < |Generations(threads, front)| {
      GenerationsAreNeverReused(threads, front, i, j);
    } else {
      GenerationsAreSpent(threads, front, i);
    }
  }

  /** The exchanges of a run that have handed out a generation. */
  ghost function Grants(threads: nat, steps: seq<Step>): nat
    requires Execute(threads, steps).Reached?
  {
    if steps == [] then 0
    else
      var step, s := steps[|steps| - 1], Execute(threads, steps).state;
      Grants(threads, steps[..|steps| - 1])
      + if step.CompareExchange? && s.tickets[step.t].Granted? then 1 else 0
  }

  /** No generation is skipped: the next one is one more than the number handed out, and none is zero. */
  lemma {:induction false} GenerationsAreConsecutive(threads: nat, steps: seq<Step>)
    requires Execute(threads, steps).Reached?
    ensures Execute(threads, steps).state.counter == 1 + Grants(threads, steps)
    ensures forall t :: 0 <= t < |Execute(threads, steps).state.tickets| ==>
              match Execute(threads, steps).state.tickets[t]
              case NoTicket => true
              case Loaded(value) => value >= 1
              case Granted(generation) => generation >= 1
  {
    if steps != [] {
      GenerationsAreConsecutive(threads, steps[..|steps| - 1]);
      RunKeepsInv(threads, steps[..|steps| - 1]);
    }
  }
}
