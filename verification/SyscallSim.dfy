/** The simulated entersyscall/exitsyscall transitions of complex_c_lib.c. */
module SyscallSim {
  import opened Words
  import opened Sums

  const LIMIT: int := 1_000_000

  datatype RuntimeState = NORMAL | ENTERING_SYSCALL | IN_SYSCALL | EXITING_SYSCALL | VULNERABLE

  function Min(a: int, b: int): int {
    if a < b then a else b
  }

  lemma MinLaw(a: int, b: int)
    ensures Min(a, b) == if a <= b then a else b
  {
  }

  /** `n` increments of the 64-bit transition counter. */
  function Plus(counter: nat, n: nat): (r: nat)
    ensures r < WORD
  {
    (counter + n) % WORD
  }

  lemma PlusPlus(counter: nat, a: nat, b: nat)
    ensures Plus(Plus(counter, a), b) == Plus(counter, a + b)
    ensures counter < WORD ==> Plus(counter, 0) == counter
  {
    assert counter + a + b == WORD * ((counter + a) / WORD) + ((counter + a) % WORD + b);
  }

  lemma PlusLaw(counter: nat, n: nat)
    ensures Plus(counter, n) == (counter + n) % 0x1_0000_0000_0000_0000
  {
  }

  /** The depth `enter_syscall_simulation` leaves: it saturates at 7. */
  function Entered(depth: int): int {
    if depth < 7 then depth + 1 else depth
  }

  /** The depth `exit_syscall_simulation` leaves: it stops at 0. */
  function Exited(depth: int): int {
    if depth > 0 then depth - 1 else depth
  }

  // ------------------------------------------------------------------ nesting

  /** A well-nested sequence of transitions: nothing, or enter, `inner`, exit, `rest`. */
  datatype Nest = Done | Call(inner: Nest, rest: Nest)

  function After(n: Nest, depth: int): int {
    match n
    case Done => depth
    case Call(inner, rest) => After(rest, Exited(After(inner, Entered(depth))))
  }

  /** How deep the nesting goes, and how often it enters. */
  function Height(n: Nest): nat {
    match n
    case Done => 0
    case Call(inner, rest) =>
      var h := 1 + Height(inner);
      if h < Height(rest) then Height(rest) else h
  }

  function Enters(n: Nest): nat {
    match n
    case Done => 0
    case Call(inner, rest) => 1 + Enters(inner) + Enters(rest)
  }

  function Then(a: Nest, b: Nest): Nest {
    match a
    case Done => b
    case Call(inner, rest) => Call(inner, Then(rest, b))
  }

  /** The saturating depth is conserved by a well-nested sequence exactly while there is room for all of it: from
    * depth d a sequence of nesting height h ends at min(d, 7-h). */
  lemma {:induction false} NestedDepth(n: Nest, depth: int)
    requires 0 <= depth <= 7
    ensures After(n, depth) == Min(depth, if Height(n) <= 7 then 7 - Height(n) else 0)
  {
    match n {
      case Done =>
      case Call(inner, rest) =>
        NestedDepth(inner, Entered(depth));
        NestedDepth(rest, Exited(After(inner, Entered(depth))));
    }
  }

  lemma DepthConserved(n: Nest, depth: int)
    requires 0 <= depth <= 7
    ensures After(n, depth) == depth <==> depth == 0 || depth + Height(n) <= 7
  {
    NestedDepth(n, depth);
  }

  lemma {:induction false} ThenParts(a: Nest, b: Nest, depth: int)
    ensures After(Then(a, b), depth) == After(b, After(a, depth))
    ensures Enters(Then(a, b)) == Enters(a) + Enters(b)
    ensures Height(Then(a, b)) == if Height(a) < Height(b) then Height(b) else Height(a)
    decreases a
  {
    match a {
      case Done =>
      case Call(inner, rest) => ThenParts(rest, b, Exited(After(inner, Entered(depth))));
    }
  }

  /** `n` copies of a sequence, one after the other. */
  function Times(n: nat, a: Nest): Nest
    decreases n
  {
    if n == 0 then Done else Then(Times(n - 1, a), a)
  }

  lemma TimesNext(n: nat, a: Nest)
    ensures Times(0, a) == Done && Times(n + 1, a) == Then(Times(n, a), a)
  {
    hide Then;
  }

  lemma OneMore(n: nat, e: nat)
    requires n > 0
    ensures (n - 1) * e + e == n * e
  {
  }

  lemma NothingParts()
    ensures Enters(Done) == 0 && Height(Done) == 0
  {
  }

  lemma {:induction false} TimesParts(n: nat, a: Nest)
    ensures Enters(Times(n, a)) == n * Enters(a)
    ensures Height(Times(n, a)) == if n == 0 then 0 else Height(a)
    decreases n
  {
    hide Times, Then, Enters, Height;
    if n == 0 {
      TimesNext(0, a);
      NothingParts();
    } else {
      TimesNext(n - 1, a);
      TimesParts(n - 1, a);
      ThenParts(Times(n - 1, a), a, 0);
      OneMore(n, Enters(a));
    }
  }

  /** One enter/exit pair. */
  const PAIR: Nest := Call(Done, Done)

  /** `simulate_complex_runtime_work`: two pairs in every tenth of 2000 iterations. */
  function Simulation(iterations: nat): Nest {
    Times((iterations + 9) / 10, Call(Done, PAIR))
  }

  /** One of the ten rounds, and the whole of `create_go_like_complexity`. */
  function Round(): Nest {
    Call(Simulation(2000), Done)
  }

  function GoLike(): Nest {
    Call(Then(Simulation(2000), Times(10, Round())), Simulation(2000))
  }

  lemma SimulationParts()
    ensures Height(Simulation(2000)) == 1 && Enters(Simulation(2000)) == 400
  {
    hide Times;
    var two := Call(Done, PAIR);
    assert Enters(PAIR) == 1 && Height(PAIR) == 1;
    assert Enters(two) == 2 && Height(two) == 1;
    TimesParts(200, two);
  }

  /** Its nesting height is 3 and it enters 4811 times, so it keeps every depth up to 4 and lowers the rest to 4. */
  lemma GoLikeParts(depth: int)
    requires 0 <= depth <= 7
    ensures Height(GoLike()) == 3 && Enters(GoLike()) == 4811 && After(GoLike(), depth) == Min(depth, 4)
  {
    hide Times, Simulation, Then, After;
    SimulationParts();
    RoundParts();
    TimesParts(10, Round());
    ThenParts(Simulation(2000), Times(10, Round()), 0);
    NestedDepth(GoLike(), depth);
    hide Round;
  }

  lemma RoundParts()
    ensures Height(Round()) == 2 && Enters(Round()) == 401
  {
    hide Simulation;
    SimulationParts();
  }

  // ------------------------------------------------------------------ arbitrary sequences

  datatype Op = Enter | Exit

  function AfterOps(ops: seq<Op>, depth: int): int {
    if ops == [] then depth
    else
      var d := AfterOps(ops[..|ops| - 1], depth);
      if ops[|ops| - 1].Enter? then Entered(d) else Exited(d)
  }

  /** No sequence, nested or not, leaves [0, 7]. */
  lemma {:induction false} OpsInRange(ops: seq<Op>, depth: int)
    requires 0 <= depth <= 7
    ensures 0 <= AfterOps(ops, depth) <= 7
  {
    if ops != [] {
      OpsInRange(ops[..|ops| - 1], depth);
    }
  }

  /** The depth before round `round` of `create_go_like_complexity` entered at depth `d`. */
  function RoundDepth(d: int, round: nat): int {
    if round == 0 then Min(d + 1, 6) else Min(d + 1, 5)
  }

  lemma RoundKeeps(d: int, round: nat)
    requires 0 <= d <= 7
    ensures Min(Entered(d), 6) == RoundDepth(d, 0)
    ensures Exited(Min(Entered(RoundDepth(d, round)), 6)) == RoundDepth(d, round + 1)
    ensures Min(Exited(RoundDepth(d, 10)), 6) == Min(d, 4)
  {
  }

  /** One iteration of `create_signal_stress_scenario`, and the first `iterations` of them. */
  function Turn(i: int): Nest {
    Call(if i % 4 == 0 then Simulation(2000) else Done, Done)
  }

  function Scenario(iterations: int): Nest
    decreases if iterations > 0 then iterations else 0
  {
    if iterations <= 0 then Done else Then(Scenario(iterations - 1), Turn(iterations - 1))
  }

  lemma NoScenario(iterations: int, depth: int)
    requires iterations <= 0
    ensures Scenario(iterations) == Scenario(0)
    ensures After(Scenario(0), depth) == depth && Enters(Scenario(0)) == 0 && Height(Scenario(0)) == 0
  {
  }

  lemma TurnParts(i: int, depth: int)
    ensures After(Turn(i), depth)
         == Exited(if i % 4 == 0 then After(Simulation(2000), Entered(depth)) else Entered(depth))
    ensures Enters(Turn(i)) == if i % 4 == 0 then 401 else 1
    ensures Height(Turn(i)) == if i % 4 == 0 then 2 else 1
  {
    hide Simulation;
    SimulationParts();
  }

  lemma TurnLaw(i: int, depth: int)
    requires 0 <= depth <= 7
    ensures var most := if i % 4 == 0 then 5 else 6;
            After(Turn(i), depth) == if depth <= most then depth else most
  {
    hide After, Turn;
    TurnParts(i, depth);
    NestedDepth(Turn(i), depth);
  }

  lemma ScenarioNext(i: nat, depth: int)
    ensures After(Scenario(i + 1), depth) == After(Turn(i), After(Scenario(i), depth))
    ensures Enters(Scenario(i + 1)) == Enters(Scenario(i)) + Enters(Turn(i))
    ensures Height(Scenario(i + 1))
         == if Height(Scenario(i)) < Height(Turn(i)) then Height(Turn(i)) else Height(Scenario(i))
  {
    assert Scenario(i + 1) == Then(Scenario(i), Turn(i));
    hide Scenario, Simulation, Then, Turn, After, Enters, Height;
    ThenParts(Scenario(i), Turn(i), depth);
    TurnParts(i, depth);
  }

  /** It nests two high and enters n + 400*ceil(n/4) times. */
  lemma {:induction false} ScenarioParts(n: nat)
    ensures Height(Scenario(n)) == (if n == 0 then 0 else 2) && Enters(Scenario(n)) == n + 400 * ((n + 3) / 4)
    decreases n
  {
    hide Scenario, Turn, Height, Enters, After;
    if n == 0 {
      NoScenario(0, 0);
    } else {
      ScenarioParts(n - 1);
      ScenarioNext(n - 1, 0);
      TurnParts(n - 1, 0);
      CeilStep(n);
    }
  }

  /** So it keeps every depth up to 5 and lowers the rest to 5. */
  lemma ScenarioLaw(iterations: int, depth: int)
    requires 0 <= depth <= 7
    ensures After(Scenario(iterations), depth) == if iterations <= 0 || depth <= 5 then depth else 5
    ensures Enters(Scenario(iterations)) == if iterations <= 0 then 0 else iterations + 400 * ((iterations + 3) / 4)
  {
    hide Scenario, After, Enters, Height;
    if iterations <= 0 {
      NoScenario(iterations, depth);
    } else {
      ScenarioParts(iterations);
      NestedDepth(Scenario(iterations), depth);
    }
  }

  lemma CeilStep(n: nat)
    requires n > 0
    ensures (n + 3) / 4 == (n + 2) / 4 + if (n - 1) % 4 == 0 then 1 else 0
  {
  }

  /** From depth 0 every well-nested sequence comes back to depth 0, however high it nests. */
  lemma FromZero(n: Nest)
    ensures After(n, 0) == 0
  {
    NestedDepth(n, 0);
  }

  /** What iteration `i` of the stress scenario may add to its total. */
  predicate Contributes(i: nat, more: int) {
    if i % 4 == 0 then more == 0 else if i % 4 == 1 then more == 42 * i else 0 <= more < 1000000
  }

  lemma PlusIs(counter: nat, iterations: int)
    requires iterations > 0 ==> Enters(Scenario(iterations)) == iterations + 400 * ((iterations + 3) / 4)
    ensures iterations > 0 ==>
              Plus(counter, Enters(Scenario(iterations)))
              == (counter + iterations + 400 * ((iterations + 3) / 4)) % 0x1_0000_0000_0000_0000
  {
    hide Enters, Scenario;
  }

  lemma FewTurns(parts: seq<int>)
    requires 1 <= |parts| <= 2 && parts[0] == 0 && (|parts| == 2 ==> parts[1] == 42)
    ensures Sum(parts) == if |parts| == 2 then 42 else 0
  {
    assert parts[..1] == [0] && [0][..0] == [];
    assert Sum([0]) == 0;
  }

  // ------------------------------------------------------------------ the code

  class ThreadContext {
    var state: RuntimeState
    const stackContexts: array<int>
    var contextDepth: int
    var inCriticalSection: int
    var transitionCounter: nat

    ghost predicate Valid()
      reads this
    {
      stackContexts.Length == 8 && 0 <= contextDepth <= 7 && transitionCounter < WORD
    }

    /** `ensure_thread_context` on a thread that has none: zeroed memory. */
    constructor ()
      ensures Valid() && fresh(stackContexts)
      ensures state == NORMAL && contextDepth == 0 && inCriticalSection == 0 && transitionCounter == 0
      ensures forall k | 0 <= k < 8 :: stackContexts[k] == 0
    {
      stackContexts := new int[8](_ => 0);
      state, contextDepth, inCriticalSection, transitionCounter := NORMAL, 0, 0, 0;
    }

    method EnterSyscallSimulation(address: int)
      requires Valid()
      modifies this, stackContexts
      ensures Valid() && state == VULNERABLE && inCriticalSection == 1
      ensures contextDepth == if old(contextDepth) < 7 then old(contextDepth) + 1 else 7
      ensures transitionCounter == (old(transitionCounter) + 1) % 0x1_0000_0000_0000_0000
      ensures contextDepth == Entered(old(contextDepth)) && transitionCounter == Plus(old(transitionCounter), 1)
      ensures stackContexts[..] == if old(contextDepth) < 7
                                   then old(stackContexts[..])[old(contextDepth) := address]
                                   else old(stackContexts[..])
    {
      state := ENTERING_SYSCALL;
      inCriticalSection := 1;
      transitionCounter := Plus(transitionCounter, 1);
      state := IN_SYSCALL;
      if contextDepth < 7 {
        stackContexts[contextDepth] := address;
        contextDepth := contextDepth + 1;
      }
      state := VULNERABLE;
    }

    method ExitSyscallSimulation()
      requires Valid()
      modifies this
      ensures Valid() && state == NORMAL && inCriticalSection == 0
      ensures contextDepth == if old(contextDepth) > 0 then old(contextDepth) - 1 else 0
      ensures contextDepth == Exited(old(contextDepth)) && transitionCounter == old(transitionCounter)
    {
      state := EXITING_SYSCALL;
      state := VULNERABLE;
      if contextDepth > 0 {
        contextDepth := contextDepth - 1;
      }
      inCriticalSection := 0;
      state := NORMAL;
    }

    /** The only slot it can overwrite is the one at its own depth. */
    method SimulateComplexRuntimeWork(address: int)
      requires Valid()
      modifies this, stackContexts
      ensures Valid() && state == NORMAL && inCriticalSection == 0
      ensures contextDepth == After(Simulation(2000), old(contextDepth)) == Min(old(contextDepth), 6)
      ensures contextDepth == if old(contextDepth) <= 6 then old(contextDepth) else 6
      ensures transitionCounter == Plus(old(transitionCounter), Enters(Simulation(2000)))
      ensures transitionCounter == Plus(old(transitionCounter), 400)
      ensures stackContexts[contextDepth] == address
      ensures forall k | 0 <= k < 8 && k != Min(old(contextDepth), 6) :: stackContexts[k] == old(stackContexts[k])
    {
      hide After, Enters, Simulation, Times, Plus;
      ghost var depth := contextDepth;
      PlusPlus(transitionCounter, 0, 0);
      for i := 0 to 2000
        invariant Valid() && 0 <= i <= 2000
        invariant i > 0 ==> state == NORMAL && inCriticalSection == 0
        invariant contextDepth == if i == 0 then depth else Min(depth, 6)
        invariant transitionCounter == Plus(old(transitionCounter), 2 * ((i + 9) / 10))
        invariant i > 0 ==> stackContexts[contextDepth] == address
        invariant forall k | 0 <= k < 8 && k != Min(depth, 6) :: stackContexts[k] == old(stackContexts[k])
      {
        if i % 10 == 0 {
          PlusPlus(old(transitionCounter), 2 * ((i + 9) / 10), 1);
          PlusPlus(old(transitionCounter), 2 * ((i + 9) / 10) + 1, 1);
          EnterSyscallSimulation(address);
          ExitSyscallSimulation();
          state := VULNERABLE;
          EnterSyscallSimulation(address);
          ExitSyscallSimulation();
        }
      }
      SimulationParts();
      NestedDepth(Simulation(2000), depth);
    }

    /** Saves and restores the state around its work and overwrites every slot. */
    method CreateDeepCallContext(frame: int)
      requires Valid()
      modifies this`state, stackContexts
      ensures Valid() && state == old(state)
      ensures forall k | 0 <= k < 8 :: stackContexts[k] == frame
    {
      for depth := 0 to 100
        invariant Valid() && state == old(state)
        invariant forall k | 0 <= k < 8 && k < depth :: stackContexts[k] == frame
      {
        if depth < 8 {
          stackContexts[depth] := frame;
        }
        var saved := state;
        state := VULNERABLE;
        state := saved;
      }
    }

    /** One of the ten rounds of `create_go_like_complexity`. */
    method RunRound(address: int)
      requires Valid()
      modifies this, stackContexts
      ensures Valid() && state == NORMAL && inCriticalSection == 0
      ensures contextDepth == Exited(Min(Entered(old(contextDepth)), 6))
      ensures transitionCounter == Plus(old(transitionCounter), 401)
    {
      hide Plus, Enters, After, Simulation;
      SimulationParts();
      PlusPlus(transitionCounter, 1, 400);
      EnterSyscallSimulation(address);
      SimulateComplexRuntimeWork(address);
      ExitSyscallSimulation();
      CreateDeepCallContext(address);
    }

    /** What `create_go_like_complexity` does to the thread's context. */
    method GoLikeWork(address: int)
      requires Valid()
      modifies this, stackContexts
      ensures Valid() && state == NORMAL && inCriticalSection == 0
      ensures contextDepth == After(GoLike(), old(contextDepth)) == Min(old(contextDepth), 4)
      ensures transitionCounter == Plus(old(transitionCounter), Enters(GoLike()))
      ensures contextDepth == if old(contextDepth) <= 4 then old(contextDepth) else 4
      ensures transitionCounter == Plus(old(transitionCounter), 4811)
    {
      MinLaw(contextDepth, 4);
      hide Times, Then, Simulation, GoLike, After, Enters, Height, Plus, Min, Entered, Exited, RoundDepth, Round;
      PlusPlus(transitionCounter, 1, 400);
      GoLikeParts(contextDepth);
      SimulationParts();
      ghost var d := contextDepth;
      RoundKeeps(d, 0);
      EnterSyscallSimulation(address);
      SimulateComplexRuntimeWork(address);
      CreateDeepCallContext(address);
      for round := 0 to 10
        invariant Valid() && contextDepth == RoundDepth(d, round)
        invariant transitionCounter == Plus(old(transitionCounter), 401 + 401 * round)
      {
        RoundKeeps(d, round);
        PlusPlus(old(transitionCounter), 401 + 401 * round, 401);
        RunRound(address);
      }
      PlusPlus(old(transitionCounter), 4411, 400);
      ExitSyscallSimulation();
      SimulateComplexRuntimeWork(address);
    }

    /** Iteration `i` of `create_signal_stress_scenario`: every fourth simulates work between enter and exit, the
      * others leave the transitions alone.  The last two add what the other libraries return, which is in
      * [0, 999999]. */
    method RunTurn(i: nat, address: int) returns (more: int)
      requires Valid()
      modifies this, stackContexts
      ensures Valid() && state == NORMAL && inCriticalSection == 0
      ensures contextDepth == After(Turn(i), old(contextDepth))
      ensures transitionCounter == Plus(old(transitionCounter), Enters(Turn(i)))
      ensures var most := if i % 4 == 0 then 5 else 6;
              contextDepth == if old(contextDepth) <= most then old(contextDepth) else most
      ensures transitionCounter == Plus(old(transitionCounter), if i % 4 == 0 then 401 else 1)
      ensures (i % 4 == 0 ==> more == 0) && (i % 4 == 1 ==> more == i * 42) && (i % 4 >= 2 ==> 0 <= more < 1000000)
    {
      TurnLaw(i, contextDepth);
      hide Simulation, After, Enters, Plus, Turn, Min, Entered, Exited;
      TurnParts(i, contextDepth);
      SimulationParts();
      PlusPlus(transitionCounter, 1, 400);
      EnterSyscallSimulation(address);
      more := 0;
      if i % 4 == 0 {
        SimulateComplexRuntimeWork(address);
      } else if i % 4 == 1 {
        CreateDeepCallContext(address);
        more := i * 42;
      } else {
        more :| 0 <= more < LIMIT;
      }
      ExitSyscallSimulation();
    }

    /** What `create_signal_stress_scenario` does to the thread's context, and its total: what the single turns add,
      * which is nothing for i = 0 modulo 4, 42i for i = 1 and the other libraries' results for the rest. */
    method ScenarioWork(iterations: int, address: int) returns (total: int, ghost turns: seq<int>)
      requires Valid()
      modifies this, stackContexts
      ensures Valid() && (iterations > 0 ==> state == NORMAL && inCriticalSection == 0)
      ensures iterations <= 0 ==> state == old(state) && inCriticalSection == old(inCriticalSection)
      ensures contextDepth == After(Scenario(iterations), old(contextDepth))
      ensures contextDepth == if iterations <= 0 || old(contextDepth) <= 5 then old(contextDepth) else 5
      ensures transitionCounter == Plus(old(transitionCounter), Enters(Scenario(iterations)))
      ensures iterations > 0 ==>
                transitionCounter
                == (old(transitionCounter) + iterations + 400 * ((iterations + 3) / 4)) % 0x1_0000_0000_0000_0000
      ensures |turns| == (if iterations > 0 then iterations else 0) && total == Sum(turns)
      ensures forall i | 0 <= i < |turns| && i % 4 == 0 :: turns[i] == 0
      ensures forall i | 0 <= i < |turns| && i % 4 == 1 :: turns[i] == 42 * i
      ensures forall i | 0 <= i < |turns| && i % 4 >= 2 :: 0 <= turns[i] < 1000000
      ensures 0 <= total && (iterations <= 1 ==> total == 0) && (iterations == 2 ==> total == 42)
      ensures iterations <= 2147 ==> total <= 0x7fff_ffff
    {
      hide Turn, Scenario, After, Enters, Height, Plus, Entered, Exited, Min, Then, Times, Sum;
      ghost var d := contextDepth;
      PlusPlus(transitionCounter, 0, 0);
      NoScenario(0, d);
      ScenarioLaw(iterations, d);
      PlusIs(transitionCounter, iterations);
      total, turns := 0, [];
      SumNone();
      if iterations <= 0 {
        NoScenario(iterations, d);
        return;
      }
      for i := 0 to iterations
        invariant Valid() && contextDepth == After(Scenario(i), d)
        invariant transitionCounter == Plus(old(transitionCounter), Enters(Scenario(i)))
        invariant i > 0 ==> state == NORMAL && inCriticalSection == 0
        invariant 0 <= total && (i <= 23810 ==> total <= i * (LIMIT - 1))
        invariant |turns| == i && total == Sum(turns)
        invariant forall j | 0 <= j < i :: Contributes(j, turns[j])
      {
        ScenarioNext(i, d);
        PlusPlus(old(transitionCounter), Enters(Scenario(i)), Enters(Turn(i)));
        var more := RunTurn(i, address);
        total := total + more;
        SumNext(turns, more);
        turns := turns + [more];
      }
      assert Contributes(0, turns[0]) && (iterations >= 2 ==> Contributes(1, turns[1]));
      if iterations <= 2 {
        FewTurns(turns);
      }
    }
  }

  /** The thread-local pointer `g_thread_ctx`. */
  class Thread {
    var context: ThreadContext?

    constructor ()
      ensures context == null && AtRest()
    {
      context := null;
    }

    ghost predicate Valid()
      reads this, context
    {
      context != null ==> context.Valid()
    }

    /** No call is in progress: what holds between any two exported calls on a thread. */
    ghost predicate AtRest()
      reads this, context
    {
      context != null ==>
        context.Valid() && context.contextDepth == 0 && context.state == NORMAL && context.inCriticalSection == 0
    }

    /** `ensure_thread_context` */
    method EnsureThreadContext(mallocOk: bool)
      requires Valid()
      modifies this
      ensures old(context) != null || !mallocOk ==> context == old(context)
      ensures old(context) == null && mallocOk ==>
                context != null && fresh(context) && fresh(context.stackContexts) && context.Valid() &&
                context.state == NORMAL && context.contextDepth == 0 && context.transitionCounter == 0 &&
                context.inCriticalSection == 0
    {
      if context == null {
        if !mallocOk {
          return;
        }
        context := new ThreadContext();
      }
    }

    /** `create_go_like_complexity`: 42, or -1 when the context cannot be allocated.  From entry depth d it returns
      * to depth min(d, 4). */
    method CreateGoLikeComplexity(mallocOk: bool, address: int) returns (r: int)
      requires Valid()
      modifies this, context, if context != null then {context.stackContexts} else {}
      ensures old(AtRest()) ==> AtRest()
      ensures Valid() && (r == -1 <==> old(context) == null && !mallocOk) && (r == -1 || r == 42)
      ensures r == -1 <==> context == null
      ensures r == 42 ==> context.state == NORMAL && context.inCriticalSection == 0
      ensures r == 42 && old(context) == null ==> context.contextDepth == 0 && context.transitionCounter == 4811
      ensures old(context) != null ==>
                && context == old(context)
                && context.contextDepth == (if old(context.contextDepth) <= 4 then old(context.contextDepth) else 4)
                && context.transitionCounter
                   == (old(context.transitionCounter) + 4811) % 0x1_0000_0000_0000_0000
    {
      hide After, GoLike, Enters, Times;
      EnsureThreadContext(mallocOk);
      if context == null {
        return -1;
      }
      context.GoLikeWork(address);
      r := 42 % 1000000;
    }

    /** `create_signal_stress_scenario`: the sum of what its turns add, modulo 1000000, or -1 when the context cannot be
      * allocated.  Two iterations make 42. */
    method CreateSignalStressScenario(mallocOk: bool, iterations: int, address: int)
      returns (r: int, ghost turns: seq<int>)
      requires Valid()
      modifies this, context, if context != null then {context.stackContexts} else {}
      ensures old(AtRest()) ==> AtRest()
      ensures Valid() && -1 <= r < 1000000 && (r == -1 <==> old(context) == null && !mallocOk)
      ensures r == -1 <==> context == null
      ensures r != -1 ==>
                && |turns| == (if iterations > 0 then iterations else 0) && r == Sum(turns) % 1000000
                && (forall i | 0 <= i < |turns| && i % 4 == 0 :: turns[i] == 0)
                && (forall i | 0 <= i < |turns| && i % 4 == 1 :: turns[i] == 42 * i)
                && (forall i | 0 <= i < |turns| && i % 4 >= 2 :: 0 <= turns[i] < 1000000)
      ensures r != -1 ==> (iterations <= 1 ==> r == 0) && (iterations == 2 ==> r == 42)
      ensures r != -1 && old(context) == null && iterations > 0 ==>
                context.transitionCounter == (iterations + 400 * ((iterations + 3) / 4)) % 0x1_0000_0000_0000_0000
      ensures old(context) != null ==>
                && context == old(context)
                && context.contextDepth == (if iterations <= 0 || old(context.contextDepth) <= 5
                                            then old(context.contextDepth) else 5)
                && (iterations > 0 ==>
                      context.transitionCounter
                      == (old(context.transitionCounter) + iterations + 400 * ((iterations + 3) / 4))
                         % 0x1_0000_0000_0000_0000)
    {
      hide After, Enters, Scenario, Plus, Sum;
      turns := [];
      EnsureThreadContext(mallocOk);
      if context == null {
        return -1, [];
      }
      FromZero(Scenario(iterations));
      var total: int;
      total, turns := context.ScenarioWork(iterations, address);
      r := total % LIMIT;
    }

    /** `cleanup_thread_context` */
    method CleanupThreadContext()
      modifies this
      ensures context == null && AtRest()
    {
      context := null;
    }
  }
}
