/** `deep_call_chain_asm`, instruction by instruction, on a machine with the registers it uses and a word memory.
  *
  * The C routine it calls is a parameter that may do anything the System V calling convention allows.
  */
module AsmChain {
  import opened Words

  const SIGN: int := 0x8000_0000_0000_0000

  datatype Reg = Rsp | Rbp | Rbx | R12 | R13 | Rdi | Rsi | Rdx | Rax

  /** `world` is whatever else the C routine can see; `low` and `calls` are history: the lowest stack pointer this
    * code has used, and the stack pointer at each call of the C routine. */
  datatype State = State(
    pc: int, rsp: int, rbp: int, rbx: int, r12: int, r13: int, rdi: int, rsi: int, rdx: int, rax: int,
    notGreater: bool, mem: map<int, int>, world: int, low: int, calls: seq<int>)

  type Callee = State -> State

  datatype Instr =
    | Push(r: Reg)
    | Pop(r: Reg)
    | Mov(src: Reg, dst: Reg)
    | CmpZero(r: Reg)
    | Jle(target: int)
    | Jmp(target: int)
    | SubImm(imm: int, r: Reg)
    | AddImm(imm: int, r: Reg)
    | ImulImm(imm: int, r: Reg)
    | Add(src: Reg, dst: Reg)
    | CallC
    | Call(target: int)
    | Leave
    | Ret
    | Halt

  const RETURN_VALUE: int := 21
  const CLEANUP: int := 22

  function Code(pc: int): Instr {
    match pc
    case 0 => Push(Rbp)
    case 1 => Mov(Rsp, Rbp)
    case 2 => Push(Rbx)
    case 3 => Push(R12)
    case 4 => Push(R13)
    case 5 => CmpZero(Rsi)
    case 6 => Jle(RETURN_VALUE)
    case 7 => Mov(Rdi, Rbx)
    case 8 => Mov(Rsi, R12)
    case 9 => Mov(Rdx, R13)
    case 10 => Mov(Rbx, Rdi)
    case 11 => CallC
    case 12 => Mov(Rbx, Rdi)
    case 13 => Mov(R12, Rsi)
    case 14 => SubImm(1, Rsi)
    case 15 => Mov(R13, Rdx)
    case 16 => ImulImm(3, Rdx)
    case 17 => AddImm(7, Rdx)
    case 18 => Call(0)
    case 19 => Add(R13, Rax)
    case 20 => Jmp(CLEANUP)
    case 21 => Mov(Rdx, Rax)
    case 22 => Pop(R13)
    case 23 => Pop(R12)
    case 24 => Pop(Rbx)
    case 25 => Leave
    case 26 => Ret
    case _ => Halt
  }

  function Get(s: State, r: Reg): int {
    match r
    case Rsp => s.rsp
    case Rbp => s.rbp
    case Rbx => s.rbx
    case R12 => s.r12
    case R13 => s.r13
    case Rdi => s.rdi
    case Rsi => s.rsi
    case Rdx => s.rdx
    case Rax => s.rax
  }

  function Set(s: State, r: Reg, v: int): State {
    match r
    case Rsp => s.(rsp := v)
    case Rbp => s.(rbp := v)
    case Rbx => s.(rbx := v)
    case R12 => s.(r12 := v)
    case R13 => s.(r13 := v)
    case Rdi => s.(rdi := v)
    case Rsi => s.(rsi := v)
    case Rdx => s.(rdx := v)
    case Rax => s.(rax := v)
  }

  function Load(mem: map<int, int>, a: int): int {
    if a in mem then mem[a] else 0
  }

  function Signed(v: int): int {
    if v < SIGN then v else v - WORD
  }

  function PushWord(s: State, v: int): State {
    var sp := (s.rsp - 8) % WORD;
    s.(rsp := sp, mem := s.mem[sp := v], low := if sp < s.low then sp else s.low)
  }

  function PopWord(s: State, r: Reg): State {
    Set(s.(rsp := (s.rsp + 8) % WORD), r, Load(s.mem, s.rsp))
  }

  function Step(callee: Callee, s: State): State {
    var n := s.(pc := s.pc + 1);
    match Code(s.pc)
    case Push(r) => PushWord(n, Get(s, r))
    case Pop(r) => PopWord(n, r)
    case Mov(src, dst) => Set(n, dst, Get(s, src))
    case CmpZero(r) => n.(notGreater := Signed(Get(s, r)) <= 0)
    case Jle(t) => if s.notGreater then s.(pc := t) else n
    case Jmp(t) => s.(pc := t)
    case SubImm(i, r) => Set(n, r, (Get(s, r) - i) % WORD)
    case AddImm(i, r) => Set(n, r, (Get(s, r) + i) % WORD)
    case ImulImm(i, r) => Set(n, r, (Get(s, r) * i) % WORD)
    case Add(src, dst) => Set(n, dst, (Get(s, dst) + Get(s, src)) % WORD)
    case CallC => callee(n.(calls := s.calls + [s.rsp]))
    case Call(t) => PushWord(n, n.pc).(pc := t)
    case Leave => PopWord(n.(rsp := s.rbp), Rbp)
    case Ret => s.(rsp := (s.rsp + 8) % WORD, pc := Load(s.mem, s.rsp))
    case Halt => s
  }

  function Run(callee: Callee, s: State, n: nat): State
    decreases n
  {
    if n == 0 then s else Run(callee, Step(callee, s), n - 1)
  }

  /** What the convention promises of a call: it comes back to the next instruction with rsp, rbp, rbx, r12 and r13
    * as they were and the stack from rsp up to `top` untouched; everything else may change. */
  predicate Abi(s: State, s': State, top: int) {
    && s'.pc == s.pc && s'.rsp == s.rsp && s'.rbp == s.rbp
    && s'.rbx == s.rbx && s'.r12 == s.r12 && s'.r13 == s.r13
    && s'.low == s.low && s'.calls == s.calls
    && forall a | s.rsp <= a < top :: Load(s'.mem, a) == Load(s.mem, a)
  }

  ghost predicate Conforms(callee: Callee, top: int) {
    forall s: State :: Abi(s, callee(s), top)
  }

  /** Such a routine may leave anything in the other registers, in the flags and below its return address. */
  lemma MayClobber(v: int, flag: bool, top: int)
    ensures Conforms((s: State) => s.(rdi := v, rsi := v, rdx := v, rax := v, notGreater := flag, world := v,
                                      mem := s.mem[s.rsp - 8 := v][s.rsp - 16 := v]), top)
  {
  }

  // ------------------------------------------------------------------ what it computes

  /** The value passed one level down. */
  function NextOf(v: int): int {
    (v * 3 % WORD + 7) % WORD
  }

  /** The recursive meaning, on 64-bit words. */
  function Chain(d: int, v: int): int {
    if d <= 0 then v else (Chain(d - 1, NextOf(v)) + v) % WORD
  }

  /** The same over unbounded integers. */
  function ChainInt(d: nat, v: int): int {
    if d == 0 then v else ChainInt(d - 1, 3 * v + 7) + v
  }

  function Term(k: nat, v: int): int {
    if k == 0 then v else 3 * Term(k - 1, v) + 7
  }

  function SumTerms(n: nat, v: int): int {
    if n == 0 then 0 else SumTerms(n - 1, v) + Term(n - 1, v)
  }

  function Power3(k: nat): int {
    if k == 0 then 1 else 3 * Power3(k - 1)
  }

  lemma Multiple(k: int)
    ensures (k * WORD) % WORD == 0
  {
  }

  lemma WrapStep(v: int, u: int)
    requires (v - u) % WORD == 0
    ensures (NextOf(v) - (3 * u + 7)) % WORD == 0
  {
    var k := (v - u) / WORD - v * 3 / WORD;
    var q := (v * 3 % WORD + 7) / WORD;
    assert NextOf(v) - (3 * u + 7) == (2 * ((v - u) / WORD) + k - q) * WORD;
    Multiple(2 * ((v - u) / WORD) + k - q);
  }

  lemma WrapSum(a: int, b: int, v: int, u: int)
    requires (a - b) % WORD == 0 && (v - u) % WORD == 0
    ensures ((a + v) % WORD - (b + u)) % WORD == 0
  {
  }

  /** Wrapping at every step is the same as wrapping once. */
  lemma {:induction false} ChainWraps(d: nat, v: int, u: int)
    requires (v - u) % WORD == 0
    ensures (Chain(d, v) - ChainInt(d, u)) % WORD == 0
    decreases d
  {
    if d > 0 {
      WrapStep(v, u);
      ChainWraps(d - 1, NextOf(v), 3 * u + 7);
      WrapSum(Chain(d - 1, NextOf(v)), ChainInt(d - 1, 3 * u + 7), v, u);
    }
  }

  lemma {:induction false} TermShift(k: nat, v: int)
    ensures Term(k, 3 * v + 7) == Term(k + 1, v)
  {
    if k > 0 {
      TermShift(k - 1, v);
    }
  }

  lemma {:induction false} SumShift(n: nat, v: int)
    ensures SumTerms(n, 3 * v + 7) + v == SumTerms(n + 1, v)
  {
    if n > 0 {
      SumShift(n - 1, v);
      TermShift(n - 1, v);
    }
  }

  /** The result is the sum of the d+1 terms v, 3v+7, 3(3v+7)+7, ... */
  lemma {:induction false} ChainIsSum(d: nat, v: int)
    ensures ChainInt(d, v) == SumTerms(d + 1, v)
  {
    if d > 0 {
      ChainIsSum(d - 1, 3 * v + 7);
      SumShift(d, v);
    }
  }

  /** In closed form. */
  lemma {:induction false} ChainClosed(d: nat, v: int)
    ensures 4 * ChainInt(d, v) == (2 * v + 7) * (Power3(d + 1) - 1) - 14 * (d + 1)
  {
    if d > 0 {
      ChainClosed(d - 1, 3 * v + 7);
      Shift(v, Power3(d));
    }
  }

  lemma Shift(v: int, p: int)
    ensures (2 * (3 * v + 7) + 7) * (p - 1) == (2 * v + 7) * (3 * p - 1) - 2 * (2 * v + 7)
  {
    var u := 2 * v + 7;
    assert 2 * (3 * v + 7) + 7 == 3 * u;
    assert 3 * u * (p - 1) == u * (3 * p) - 3 * u;
  }

  // ------------------------------------------------------------------ runs of the code

  lemma {:induction false} RunAdd(callee: Callee, s: State, m: nat, n: nat)
    ensures Run(callee, Run(callee, s, m), n) == Run(callee, s, m + n)
    decreases m
  {
    hide Step;
    if m > 0 {
      RunAdd(callee, Step(callee, s), m - 1, n);
    }
  }

  function Min(a: int, b: int): int {
    if a < b then a else b
  }

  /** There is room below `rsp` for this many bytes, and addresses up to `top` do not wrap. */
  predicate Room(s: State, bytes: int, top: int) {
    bytes <= s.rsp && s.rsp + 8 <= top < WORD
  }

  lemma StepPush(callee: Callee, s: State, r: Reg)
    requires Code(s.pc) == Push(r) && 8 <= s.rsp < WORD
    ensures Step(callee, s) == s.(pc := s.pc + 1, rsp := s.rsp - 8, mem := s.mem[s.rsp - 8 := Get(s, r)],
                                  low := Min(s.low, s.rsp - 8))
  {
  }

  lemma StepPop(callee: Callee, s: State, r: Reg)
    requires Code(s.pc) == Pop(r) && 0 <= s.rsp < WORD - 8 && r != Rsp
    ensures Step(callee, s) == Set(s.(pc := s.pc + 1, rsp := s.rsp + 8), r, Load(s.mem, s.rsp))
  {
  }

  lemma StepMov(callee: Callee, s: State, src: Reg, dst: Reg)
    requires Code(s.pc) == Mov(src, dst)
    ensures Step(callee, s) == Set(s.(pc := s.pc + 1), dst, Get(s, src))
  {
    hide Get, Set, PushWord, PopWord, Signed, Code;
  }

  lemma StepArith(callee: Callee, s: State, i: int, r: Reg)
    requires var c := Code(s.pc); c == SubImm(i, r) || c == AddImm(i, r) || c == ImulImm(i, r)
    ensures var v := Get(s, r);
            Step(callee, s) == Set(s.(pc := s.pc + 1), r,
              match Code(s.pc)
              case SubImm(_, _) => (v - i) % WORD
              case AddImm(_, _) => (v + i) % WORD
              case _ => (v * i) % WORD)
  {
    hide Get, Set;
  }

  /** The four saved registers of a frame whose return address is at `s.rsp`. */
  function Saved(s: State): map<int, int> {
    s.mem[s.rsp - 8 := s.rbp][s.rsp - 16 := s.rbx][s.rsp - 24 := s.r12][s.rsp - 32 := s.r13]
  }

  /** Instructions 0 to 4. */
  lemma SaveRegisters(callee: Callee, s: State, top: int)
    requires s.pc == 0 && Room(s, 32, top)
    ensures Run(callee, s, 5) == s.(
              pc := 5, rsp := s.rsp - 32, rbp := s.rsp - 8, mem := Saved(s), low := Min(s.low, s.rsp - 32))
  {
    hide Step, Load;
    StepPush(callee, s, Rbp);
    var s1 := Step(callee, s);
    StepMov(callee, s1, Rsp, Rbp);
    var s2 := Step(callee, s1);
    StepPush(callee, s2, Rbx);
    var s3 := Step(callee, s2);
    StepPush(callee, s3, R12);
    var s4 := Step(callee, s3);
    StepPush(callee, s4, R13);
    assert Run(callee, s, 5) == Step(callee, s4);
  }

  /** Instructions 5 and 6. */
  lemma TestDepth(callee: Callee, s: State)
    requires s.pc == 5
    ensures Run(callee, s, 2) == s.(pc := if Signed(s.rsi) <= 0 then RETURN_VALUE else 7,
                                    notGreater := Signed(s.rsi) <= 0)
  {
    hide Signed;
    var s1 := Step(callee, s);
    assert s1 == s.(pc := 6, notGreater := Signed(s.rsi) <= 0);
    assert Run(callee, s, 2) == Step(callee, s1);
  }

  /** `s` is in the body of a frame entered in state `e`: its saved registers are intact. */
  predicate InFrame(e: State, s: State) {
    && s.rsp == e.rsp - 32 && s.rbp == e.rsp - 8
    && Load(s.mem, e.rsp - 8) == e.rbp && Load(s.mem, e.rsp - 16) == e.rbx
    && Load(s.mem, e.rsp - 24) == e.r12 && Load(s.mem, e.rsp - 32) == e.r13
    && Load(s.mem, e.rsp) == Load(e.mem, e.rsp)
  }

  /** Instructions 22 to 26: the epilogue undoes the prologue. */
  lemma Epilogue(callee: Callee, e: State, s: State, top: int)
    requires s.pc == CLEANUP && InFrame(e, s) && Room(e, 32, top)
    ensures Run(callee, s, 5) == s.(
              pc := Load(e.mem, e.rsp), rsp := e.rsp + 8, rbp := e.rbp, rbx := e.rbx, r12 := e.r12, r13 := e.r13)
  {
    hide Step, Load;
    StepPop(callee, s, R13);
    var s1 := Step(callee, s);
    StepPop(callee, s1, R12);
    var s2 := Step(callee, s1);
    StepPop(callee, s2, Rbx);
    var s3 := Step(callee, s2);
    StepLeave(callee, s3);
    var s4 := Step(callee, s3);
    StepRet(callee, s4);
    assert Run(callee, s, 5) == Step(callee, s4);
  }

  lemma StepLeave(callee: Callee, s: State)
    requires Code(s.pc) == Leave && 0 <= s.rbp < WORD - 8
    ensures Step(callee, s) == s.(pc := s.pc + 1, rsp := s.rbp + 8, rbp := Load(s.mem, s.rbp))
  {
  }

  lemma StepRet(callee: Callee, s: State)
    requires Code(s.pc) == Ret && 0 <= s.rsp < WORD - 8
    ensures Step(callee, s) == s.(pc := Load(s.mem, s.rsp), rsp := s.rsp + 8)
  {
  }

  lemma StepCall(callee: Callee, s: State, t: int)
    requires Code(s.pc) == Call(t) && 8 <= s.rsp < WORD
    ensures Step(callee, s) == s.(pc := t, rsp := s.rsp - 8, mem := s.mem[s.rsp - 8 := s.pc + 1],
                                  low := Min(s.low, s.rsp - 8))
  {
  }

  /** Instructions 7 to 10. */
  lemma MoveParameters(callee: Callee, s: State)
    requires s.pc == 7
    ensures Run(callee, s, 4) == s.(pc := 11, rbx := s.rdi, r12 := s.rsi, r13 := s.rdx)
  {
    hide Step;
    StepMov(callee, s, Rdi, Rbx);
    var s1 := Step(callee, s);
    StepMov(callee, s1, Rsi, R12);
    var s2 := Step(callee, s1);
    StepMov(callee, s2, Rdx, R13);
    var s3 := Step(callee, s2);
    StepMov(callee, s3, Rbx, Rdi);
    assert Run(callee, s, 4) == Step(callee, s3);
  }

  /** Instructions 7 to 11: the parameters move to saved registers and the C routine runs. */
  lemma CallRuntimeWork(callee: Callee, s: State)
    requires s.pc == 7
    ensures Run(callee, s, 5) == callee(
              s.(pc := 12, rbx := s.rdi, r12 := s.rsi, r13 := s.rdx, calls := s.calls + [s.rsp]))
  {
    hide Step, Run, Get, Set;
    MoveParameters(callee, s);
    var s4 := Run(callee, s, 4);
    StepCallC(callee, s4);
    RunAdd(callee, s, 4, 1);
    RunOne(callee, s4);
  }

  lemma StepCallC(callee: Callee, s: State)
    requires Code(s.pc) == CallC
    ensures Step(callee, s) == callee(s.(pc := s.pc + 1, calls := s.calls + [s.rsp]))
  {
  }

  /** Instructions 12 to 14, and 15 to 17: the arguments of the recursive call. */
  lemma NextDepth(callee: Callee, s: State)
    requires s.pc == 12
    ensures Run(callee, s, 3) == s.(pc := 15, rdi := s.rbx, rsi := (s.r12 - 1) % WORD)
  {
    hide Step;
    StepMov(callee, s, Rbx, Rdi);
    var s1 := Step(callee, s);
    StepMov(callee, s1, R12, Rsi);
    var s2 := Step(callee, s1);
    StepArith(callee, s2, 1, Rsi);
    assert Run(callee, s, 3) == Step(callee, s2);
  }

  lemma NextValue(callee: Callee, s: State)
    requires s.pc == 15
    ensures Run(callee, s, 3) == s.(pc := 18, rdx := NextOf(s.r13))
  {
    hide Step;
    StepMov(callee, s, R13, Rdx);
    var s1 := Step(callee, s);
    StepArith(callee, s1, 3, Rdx);
    var s2 := Step(callee, s1);
    StepArith(callee, s2, 7, Rdx);
    assert Run(callee, s, 3) == Step(callee, s2);
  }

  /** The state the recursive call starts in. */
  function Recursing(s: State): State {
    s.(pc := 0, rdi := s.rbx, rsi := (s.r12 - 1) % WORD, rdx := NextOf(s.r13),
       rsp := s.rsp - 8, mem := s.mem[s.rsp - 8 := 19], low := Min(s.low, s.rsp - 8))
  }

  /** Instructions 12 to 18: the arguments of the recursive call, and the call itself. */
  lemma CallSelf(callee: Callee, s: State)
    requires s.pc == 12 && 8 <= s.rsp < WORD
    ensures Run(callee, s, 7) == Recursing(s)
  {
    hide Run, Step;
    NextDepth(callee, s);
    NextValue(callee, Run(callee, s, 3));
    RunAdd(callee, s, 3, 3);
    RunAdd(callee, s, 6, 1);
    RunOne(callee, Run(callee, s, 6));
    CallStarts(callee, s, Run(callee, s, 6));
  }

  lemma CallStarts(callee: Callee, s: State, s6: State)
    requires 8 <= s.rsp < WORD
    requires s6 == s.(pc := 18, rdi := s.rbx, rsi := (s.r12 - 1) % WORD, rdx := NextOf(s.r13))
    ensures Step(callee, s6) == Recursing(s)
  {
    StepCall(callee, s6, 0);
    hide Step, NextOf, Min;
  }

  lemma RunOne(callee: Callee, s: State)
    ensures Run(callee, s, 1) == Step(callee, s)
  {
  }

  /** Instructions 19 and 20. */
  lemma Combine(callee: Callee, s: State)
    requires s.pc == 19
    ensures Run(callee, s, 2) == s.(pc := CLEANUP, rax := (s.rax + s.r13) % WORD)
  {
    var s1 := Step(callee, s);
    assert s1 == s.(pc := 20, rax := (s.rax + s.r13) % WORD);
    assert Run(callee, s, 2) == Step(callee, s1);
  }

  // ------------------------------------------------------------------ the whole routine

  function Depth(s: State): nat {
    if Signed(s.rsi) <= 0 then 0 else Signed(s.rsi)
  }

  /** The stack pointer at each call of the C routine. */
  function CallSites(rsp: int, d: nat): seq<int>
    decreases d
  {
    if d == 0 then [] else [rsp - 32] + CallSites(rsp - 40, d - 1)
  }

  predicate SameAbove(from: int, top: int, m: map<int, int>, m': map<int, int>) {
    forall a | from <= a < top :: Load(m', a) == Load(m, a)
  }

  /** A call has come back: the caller's registers and stack are as before, the result is in rax, and the routine
    * itself went exactly 40d+32 bytes below the return address. */
  predicate Returned(e: State, s: State, top: int) {
    && s.pc == Load(e.mem, e.rsp) && s.rsp == e.rsp + 8
    && s.rbp == e.rbp && s.rbx == e.rbx && s.r12 == e.r12 && s.r13 == e.r13
    && s.rax == Chain(Signed(e.rsi), e.rdx)
    && SameAbove(e.rsp, top, e.mem, s.mem)
    && s.low == Min(e.low, e.rsp - (40 * Depth(e) + 32))
    && s.calls == e.calls + CallSites(e.rsp, Depth(e))
  }

  lemma PrologueFrame(e: State, s: State, top: int)
    requires s.rsp == e.rsp - 32 && s.rbp == e.rsp - 8 && s.mem == Saved(e)
    ensures InFrame(e, s) && SameAbove(e.rsp, top, e.mem, s.mem)
  {
  }

  /** A frame survives anything that leaves the stack from its rsp up alone. */
  lemma FrameKept(e: State, s: State, s': State, top: int)
    requires InFrame(e, s) && e.rsp + 8 <= top
    requires s'.rsp == s.rsp && s'.rbp == s.rbp && SameAbove(s.rsp, top, s.mem, s'.mem)
    requires SameAbove(e.rsp, top, e.mem, s.mem)
    ensures InFrame(e, s') && SameAbove(e.rsp, top, e.mem, s'.mem)
  {
  }

  lemma Prologue(callee: Callee, e: State, top: int) returns (s: State)
    requires e.pc == 0 && Room(e, 32, top)
    ensures s == Run(callee, e, 7) && InFrame(e, s) && SameAbove(e.rsp, top, e.mem, s.mem)
    ensures s.pc == (if Signed(e.rsi) <= 0 then RETURN_VALUE else 7) && s.low == Min(e.low, e.rsp - 32)
    ensures s.rdi == e.rdi && s.rsi == e.rsi && s.rdx == e.rdx && s.calls == e.calls
  {
    hide Run, Step, Signed, InFrame, SameAbove;
    SaveRegisters(callee, e, top);
    var s5 := Run(callee, e, 5);
    TestDepth(callee, s5);
    s := Run(callee, s5, 2);
    RunAdd(callee, e, 5, 2);
    PrologueFrame(e, s, top);
  }

  /** Depth zero or below: the value comes straight back. */
  lemma LeafRuns(callee: Callee, e: State, top: int)
    requires e.pc == 0 && Room(e, 32, top) && Depth(e) == 0
    ensures Returned(e, Run(callee, e, 13), top)
  {
    hide Run, Step, Signed;
    var s7 := Prologue(callee, e, top);
    StepMov(callee, s7, Rdx, Rax);
    RunOne(callee, s7);
    var s8 := Run(callee, s7, 1);
    Epilogue(callee, e, s8, top);
    RunAdd(callee, e, 7, 1);
    RunAdd(callee, e, 8, 5);
  }

  /** From the entry to the recursive call: the frame is in place and the callee has not disturbed it. */
  lemma Descend(callee: Callee, e: State, top: int) returns (s: State)
    requires Conforms(callee, top) && e.pc == 0 && Room(e, 40, top) && Depth(e) > 0
    ensures s.pc == 12 && Recursing(s) == Run(callee, e, 19)
    ensures InFrame(e, s) && SameAbove(e.rsp, top, e.mem, s.mem)
    ensures s.r12 == e.rsi && s.r13 == e.rdx && s.low == Min(e.low, e.rsp - 32) && s.calls == e.calls + [e.rsp - 32]
  {
    hide Run, Step, Signed, Recursing, InFrame;
    var s7 := Prologue(callee, e, top);
    CallRuntimeWork(callee, s7);
    var t := s7.(pc := 12, rbx := s7.rdi, r12 := s7.rsi, r13 := s7.rdx, calls := s7.calls + [s7.rsp]);
    s := callee(t);
    assert Abi(t, s, top);
    FrameOf(e, s7);
    CallSelf(callee, s);
    FrameKept(e, s7, s, top);
    RunAdd(callee, e, 7, 5);
    RunAdd(callee, e, 12, 7);
  }

  lemma FrameOf(e: State, s: State)
    requires InFrame(e, s)
    ensures s.rsp == e.rsp - 32 && s.rbp == e.rsp - 8
  {
  }

  /** After the recursive call: add, clean up, return. */
  lemma Ascend(callee: Callee, e: State, s: State, top: int)
    requires s.pc == 19 && InFrame(e, s) && Room(e, 32, top)
    ensures Run(callee, s, 7) == s.(
              pc := Load(e.mem, e.rsp), rsp := e.rsp + 8, rbp := e.rbp, rbx := e.rbx, r12 := e.r12, r13 := e.r13,
              rax := (s.rax + s.r13) % WORD)
  {
    hide Run, Step, Load;
    Combine(callee, s);
    Epilogue(callee, e, Run(callee, s, 2), top);
    RunAdd(callee, s, 2, 5);
  }

  lemma DepthBelow(e: State, rsi: int)
    requires 0 <= e.rsi < WORD && Depth(e) > 0 && rsi == (e.rsi - 1) % WORD
    ensures 0 <= rsi < WORD && Signed(rsi) == Signed(e.rsi) - 1
  {
  }

  /** What the recursive call returned, together with this frame, is what this call must return. */
  lemma Assemble(e: State, s12: State, r: State, s: State, top: int)
    requires InFrame(e, s12) && SameAbove(e.rsp, top, e.mem, s12.mem) && Depth(e) > 0 && 0 <= e.rsi < WORD
    requires s12.r12 == e.rsi && s12.r13 == e.rdx
    requires s12.low == Min(e.low, e.rsp - 32) && s12.calls == e.calls + [e.rsp - 32]
    requires Returned(Recursing(s12), r, top)
    requires s == r.(
      pc := Load(e.mem, e.rsp), rsp := e.rsp + 8, rbp := e.rbp, rbx := e.rbx, r12 := e.r12, r13 := e.r13,
      rax := (r.rax + r.r13) % WORD)
    ensures Returned(e, s, top)
  {
    hide Load, InFrame;
    var e' := Recursing(s12);
    DepthBelow(e, e'.rsi);
    FrameOf(e, s12);
    SameAboveTrans(e, s12, e', r, top);
    hide Signed;
    assert e.calls + [e.rsp - 32] + CallSites(e.rsp - 40, Depth(e) - 1) == e.calls + CallSites(e.rsp, Depth(e));
  }

  lemma SameAboveTrans(e: State, s12: State, e': State, r: State, top: int)
    requires SameAbove(e.rsp, top, e.mem, s12.mem) && e' == Recursing(s12) && s12.rsp == e.rsp - 32
    requires SameAbove(e'.rsp, top, e'.mem, r.mem)
    ensures SameAbove(e.rsp, top, e.mem, r.mem)
  {
    forall a | e.rsp <= a < top ensures Load(r.mem, a) == Load(e.mem, a) {
      assert Load(e'.mem, a) == Load(s12.mem, a);
    }
  }

  /** The recursive call comes back to instruction 19 with this frame intact. */
  lemma BackInFrame(e: State, s12: State, r: State, top: int)
    requires InFrame(e, s12) && Returned(Recursing(s12), r, top) && e.rsp + 8 <= top
    ensures r.pc == 19 && InFrame(e, r)
  {
    var e' := Recursing(s12);
    assert e'.rsp == e.rsp - 40 && Load(e'.mem, e'.rsp) == 19;
    assert SameAbove(e.rsp - 40, top, e'.mem, r.mem);
    assert forall a | e.rsp - 32 <= a <= e.rsp :: Load(r.mem, a) == Load(e'.mem, a) == Load(s12.mem, a);
  }

  /** `deep_call_chain_asm`: for every depth and value, and whatever the C routine does within its rights, the code
    * returns to its caller with the recursive function's value, the callee-saved registers and the caller's stack
    * restored, having used exactly 40d+32 bytes below its return address. */
  lemma {:induction false} ChainRuns(callee: Callee, e: State, top: int)
    requires Conforms(callee, top) && e.pc == 0 && 0 <= e.rsi < WORD && Room(e, 40 * Depth(e) + 32, top)
    ensures Returned(e, Run(callee, e, 13 + 26 * Depth(e)), top)
    decreases Depth(e)
  {
    hide Run, Step, Signed, Returned, Recursing, InFrame, SameAbove, Conforms;
    if Depth(e) == 0 {
      LeafRuns(callee, e, top);
    } else {
      var d := Depth(e) - 1;
      var s12 := Descend(callee, e, top);
      var e' := Recursing(s12);
      RecursingFacts(e, s12, top);
      ChainRuns(callee, e', top);
      var r := Run(callee, e', 13 + 26 * d);
      BackInFrame(e, s12, r, top);
      Ascend(callee, e, r, top);
      var s := Run(callee, r, 7);
      Assemble(e, s12, r, s, top);
      RunAdd(callee, e, 19, 13 + 26 * d);
      RunAdd(callee, e, 32 + 26 * d, 7);
    }
  }

  lemma RecursingFacts(e: State, s12: State, top: int)
    requires InFrame(e, s12) && s12.r12 == e.rsi && 0 <= e.rsi < WORD && Depth(e) > 0
    requires Room(e, 40 * Depth(e) + 32, top)
    ensures var e' := Recursing(s12);
            && e'.pc == 0 && 0 <= e'.rsi < WORD && Depth(e') == Depth(e) - 1
            && Room(e', 40 * Depth(e') + 32, top)
  {
    hide Load;
    DepthBelow(e, Recursing(s12).rsi);
  }

  /** The result in rax, as one closed formula modulo 2^64. */
  lemma ChainResult(callee: Callee, e: State, top: int)
    requires Conforms(callee, top) && e.pc == 0 && 0 <= e.rsi < WORD && Room(e, 40 * Depth(e) + 32, top)
    ensures (Run(callee, e, 13 + 26 * Depth(e)).rax - SumTerms(Depth(e) + 1, e.rdx)) % WORD == 0
  {
    hide Run, Conforms, SumTerms;
    ChainRuns(callee, e, top);
    ChainWraps(Depth(e), e.rdx, e.rdx);
    ChainIsSum(Depth(e), e.rdx);
    ChainOfDepth(e);
  }

  /** All of it in numbers.  Depths of 0 and below, signed, return the value itself after 13 instructions; from there on
    * the result is u modulo 2^64, where 4u = (2v+7)(3^(d+1)-1) - 14(d+1). */
  lemma RoutineLaw(callee: Callee, e: State, top: int) returns (d: nat, u: int)
    requires Conforms(callee, top) && e.pc == 0
    requires 0 <= e.rsi < 0x1_0000_0000_0000_0000 && 0 <= e.rdx < 0x1_0000_0000_0000_0000
    requires Room(e, 40 * (if e.rsi < 0x8000_0000_0000_0000 then e.rsi else 0) + 32, top)
    ensures d == if e.rsi < 0x8000_0000_0000_0000 then e.rsi else 0
    ensures 4 * u == (2 * e.rdx + 7) * (Power3(d + 1) - 1) - 14 * (d + 1)
    ensures var s := Run(callee, e, 13 + 26 * d);
            && s.rax == u % 0x1_0000_0000_0000_0000 && (d == 0 ==> s.rax == e.rdx)
            && s.pc == Load(e.mem, e.rsp) && s.rsp == e.rsp + 8 && s.rbp == e.rbp
            && s.rbx == e.rbx && s.r12 == e.r12 && s.r13 == e.r13
            && (forall a | e.rsp <= a < top :: Load(s.mem, a) == Load(e.mem, a))
            && s.low == (if e.low <= e.rsp - 40 * d - 32 then e.low else e.rsp - 40 * d - 32)
            && |s.calls| == |e.calls| + d
            && forall k | |e.calls| <= k < |e.calls| + d :: s.calls[k] == e.rsp - 40 * (k - |e.calls|) - 32
  {
    d, u := Depth(e), ChainInt(Depth(e), e.rdx);
    ChainClosed(d, e.rdx);
    ChainWraps(d, e.rdx, e.rdx);
    ChainInWord(d, e.rdx);
    ChainOfDepth(e);
    ReturnedLaw(e, Run(callee, e, 13 + 26 * d), top);
    hide Run, Conforms, ChainInt, Chain, Power3, Room, Returned, Load, CallSites;
    ChainRuns(callee, e, top);
    Residue(Chain(d, e.rdx), u);
  }

  lemma Residue(x: int, u: int)
    requires 0 <= x < WORD && (x - u) % WORD == 0
    ensures x == u % WORD
  {
  }

  lemma ChainInWord(d: nat, v: int)
    requires 0 <= v < WORD
    ensures 0 <= Chain(d, v) < WORD && (d == 0 ==> Chain(d, v) == v)
  {
  }

  lemma ReturnedLaw(e: State, s: State, top: int)
    ensures Returned(e, s, top) ==>
              var d := Depth(e);
              && s.rax == Chain(Signed(e.rsi), e.rdx)
              && s.pc == Load(e.mem, e.rsp) && s.rsp == e.rsp + 8 && s.rbp == e.rbp
              && s.rbx == e.rbx && s.r12 == e.r12 && s.r13 == e.r13
              && (forall a | e.rsp <= a < top :: Load(s.mem, a) == Load(e.mem, a))
              && s.low == (if e.low <= e.rsp - 40 * d - 32 then e.low else e.rsp - 40 * d - 32)
              && |s.calls| == |e.calls| + d
              && forall k | |e.calls| <= k < |e.calls| + d :: s.calls[k] == e.rsp - 40 * (k - |e.calls|) - 32
  {
    hide Load, Chain;
    var d := Depth(e);
    CallCount(e.rsp, d);
    forall k | 0 <= k < d ensures CallSites(e.rsp, d)[k] == e.rsp - 40 * k - 32 {
      CallAlignment(e.rsp, d, k);
    }
    hide CallSites;
  }

  lemma ChainOfDepth(e: State)
    ensures Chain(Signed(e.rsi), e.rdx) == Chain(Depth(e), e.rdx)
  {
  }

  /** The convention also asks for a 16-byte aligned stack at every call.  Entered as a C compiler would enter it,
    * the routine satisfies that only at every other level: a frame moves rsp by 40. */
  lemma {:induction false} CallAlignment(rsp: int, d: nat, k: nat)
    requires k < d
    ensures |CallSites(rsp, d)| == d && CallSites(rsp, d)[k] == rsp - 40 * k - 32
    ensures (rsp + 8) % 16 == 0 ==> (CallSites(rsp, d)[k] % 16 == 0 <==> k % 2 == 1)
    decreases k
  {
    CallCount(rsp, d);
    if k > 0 {
      CallAlignment(rsp - 40, d - 1, k - 1);
    }
    AlignedAt(rsp, k);
  }

  lemma AlignedAt(rsp: int, k: nat)
    ensures (rsp + 8) % 16 == 0 ==> ((rsp - 40 * k - 32) % 16 == 0 <==> k % 2 == 1)
  {
  }

  lemma {:induction false} CallCount(rsp: int, d: nat)
    ensures |CallSites(rsp, d)| == d
    decreases d
  {
    if d > 0 {
      CallCount(rsp - 40, d - 1);
    }
  }
}
