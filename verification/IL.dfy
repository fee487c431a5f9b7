// The fragment of CIL that the emitters use: instructions and a small-step stack machine with
// int32 arithmetic and protected regions.
module IL {
  import opened Int32
  import opened StaticWork

  datatype List<+T> = Nil | Cons(head: T, tail: List<T>)

  datatype Exn = InvalidOperation | Overflow | DivideByZero

  datatype Value = Num(n: int32) | Obj(e: Exn)

  datatype Callee = MathAbs | StaticComplexWork

  // A branch operand is a label number while code is being emitted and an instruction index
  // once the labels are fixed up.
  datatype Instr =
    | Nop | Ldarg0 | Ldloc(local: nat) | Stloc(local: nat) | LdcI4(operand: int)
    | Add | Mul | Rem | BitAnd | Ceq | Clt | Pop
    | Br(target: int) | Brtrue(target: int) | Brfalse(target: int) | Leave(target: int)
    | Newobj(e: Exn) | Throw | Call(callee: Callee) | Ret

  // A try block and its catch (Exception) handler, as half-open instruction ranges.
  datatype Region = Region(tryStart: int, tryEnd: int, handlerStart: int, handlerEnd: int)

  datatype Program = Program(code: seq<Instr>, regions: seq<Region>, locals: nat)

  datatype State =
    | Running(pc: nat, stack: List<Value>, locals: seq<int32>)
    | Returned(v: int32)
    | Escaped(e: Exn)
    | Stuck

  // ----- Execution -----

  // The index of the first region whose try block covers pc; inner regions come first.
  function Protecting(regions: seq<Region>, pc: int): (i: int)
    ensures -1 <= i < |regions|
    ensures i >= 0 ==> regions[i].tryStart <= pc < regions[i].tryEnd
    ensures i < 0 ==> forall r :: 0 <= r < |regions| ==> !(regions[r].tryStart <= pc < regions[r].tryEnd)
    ensures forall r :: 0 <= r < i ==> !(regions[r].tryStart <= pc < regions[r].tryEnd)
  {
    if regions == [] then -1
    else if regions[0].tryStart <= pc < regions[0].tryEnd then 0
    else var i := Protecting(regions[1..], pc); if i < 0 then -1 else i + 1
  }

  // Raising an exception empties the stack and enters the innermost handler with the exception on it.
  function Raise(p: Program, pc: nat, e: Exn, locals: seq<int32>): State {
    var i := Protecting(p.regions, pc);
    if i < 0 then Escaped(e)
    else if p.regions[i].handlerStart < 0 then Stuck
    else Running(p.regions[i].handlerStart, Cons(Obj(e), Nil), locals)
  }

  function Jump(target: int, stack: List<Value>, locals: seq<int32>): State {
    if target < 0 then Stuck else Running(target, stack, locals)
  }

  // The effect of an instruction that does not transfer control.
  datatype Effect = Frame(stack: List<Value>, locals: seq<int32>) | Raises(e: Exn) | Fault

  function Binary(op: Instr, x: int32, y: int32): (r: int32) {
    match op
    case Add => Wrap(x + y)
    case Mul => Wrap(x * y)
    case BitAnd => And(x, y)
    case Ceq => if x == y then 1 else 0
    case Clt => if x < y then 1 else 0
    case _ => if y == 0 || (x == MIN && y == -1) then 0 else TruncRem(x, y)
  }

  predicate IsBinary(op: Instr) {
    op.Add? || op.Mul? || op.Rem? || op.BitAnd? || op.Ceq? || op.Clt?
  }

  function Exec(op: Instr, arg: int32, stack: List<Value>, locals: seq<int32>): Effect {
    if IsBinary(op) then
      match stack
      case Cons(Num(y), Cons(Num(x), rest)) =>
        if op.Rem? && y == 0 then Raises(DivideByZero)
        else if op.Rem? && x == MIN && y == -1 then Raises(Overflow)
        else Frame(Cons(Num(Binary(op, x, y)), rest), locals)
      case _ => Fault
    else
      match op
      case Nop => Frame(stack, locals)
      case Ldarg0 => Frame(Cons(Num(arg), stack), locals)
      case Ldloc(l) => if l < |locals| then Frame(Cons(Num(locals[l]), stack), locals) else Fault
      case Stloc(l) =>
        if l < |locals| && stack.Cons? && stack.head.Num? then Frame(stack.tail, locals[l := stack.head.n]) else Fault
      case LdcI4(n) => Frame(Cons(Num(Wrap(n)), stack), locals)
      case Pop => if stack.Cons? then Frame(stack.tail, locals) else Fault
      case Newobj(e) => Frame(Cons(Obj(e), stack), locals)
      case Throw => if stack.Cons? && stack.head.Obj? then Raises(stack.head.e) else Fault
      case Call(MathAbs) =>
        if !(stack.Cons? && stack.head.Num?) then Fault
        else if stack.head.n == MIN then Raises(Overflow)
        else Frame(Cons(Num(if stack.head.n < 0 then -stack.head.n else stack.head.n), stack.tail), locals)
      case Call(StaticComplexWork) =>
        (match stack
         case Cons(Num(y), Cons(Num(x), rest)) => Frame(Cons(Num(Work(x, y)), rest), locals)
         case _ => Fault)
      case _ => Fault
  }

  // Instructions that do not transfer control.
  predicate IsPlain(op: Instr) {
    !op.Br? && !op.Brtrue? && !op.Brfalse? && !op.Leave? && !op.Ret?
  }

  // One instruction; anything the verifier should have excluded is Stuck.
  function Step(p: Program, arg: int32, s: State): State {
    if !s.Running? then s
    else if s.pc >= |p.code| then Stuck
    else
      var next := s.pc + 1;
      match p.code[s.pc]
      case Br(t) => Jump(t, s.stack, s.locals)
      case Brtrue(t) =>
        if s.stack.Cons? && s.stack.head.Num?
        then (if s.stack.head.n != 0 then Jump(t, s.stack.tail, s.locals) else Running(next, s.stack.tail, s.locals))
        else Stuck
      case Brfalse(t) =>
        if s.stack.Cons? && s.stack.head.Num?
        then (if s.stack.head.n == 0 then Jump(t, s.stack.tail, s.locals) else Running(next, s.stack.tail, s.locals))
        else Stuck
      case Leave(t) => Jump(t, Nil, s.locals)
      case Ret => if s.stack.Cons? && s.stack.head.Num? && s.stack.tail.Nil? then Returned(s.stack.head.n) else Stuck
      case op =>
        match Exec(op, arg, s.stack, s.locals)
        case Frame(stack, locals) => Running(next, stack, locals)
        case Raises(e) => Raise(p, s.pc, e, s.locals)
        case Fault => Stuck
  }

  // n steps; a finished state stays as it is.
  function Run(p: Program, arg: int32, s: State, n: nat): State
    decreases n
  {
    if n == 0 then s else Run(p, arg, Step(p, arg, s), n - 1)
  }

  lemma {:induction false} RunAdd(p: Program, arg: int32, s: State, m: nat, n: nat)
    ensures Run(p, arg, s, m + n) == Run(p, arg, Run(p, arg, s, m), n)
    decreases m
  {
    if m > 0 {
      RunAdd(p, arg, Step(p, arg, s), m - 1, n);
    }
  }

  lemma {:induction false} RunDone(p: Program, arg: int32, s: State, n: nat)
    requires !s.Running?
    ensures Run(p, arg, s, n) == s
    decreases n
  {
    if n > 0 {
      RunDone(p, arg, s, n - 1);
    }
  }

  // Locals are zeroed on entry.
  function Initial(p: Program): State {
    Running(0, Nil, seq(p.locals, i => 0))
  }

  // The program finishes with outcome s when called with arg.
  ghost predicate Finishes(p: Program, arg: int32, s: State) {
    !s.Running? && exists n: nat :: Run(p, arg, Initial(p), n) == s
  }

  // A run has one outcome.
  lemma FinishesUnique(p: Program, arg: int32, s: State, t: State)
    requires Finishes(p, arg, s) && Finishes(p, arg, t)
    ensures s == t
  {
    var m: nat :| Run(p, arg, Initial(p), m) == s;
    var n: nat :| Run(p, arg, Initial(p), n) == t;
    RunAdd(p, arg, Initial(p), m, n);
    RunAdd(p, arg, Initial(p), n, m);
    RunDone(p, arg, s, n);
    RunDone(p, arg, t, m);
  }

  // ----- Code layout -----

  predicate HasBlock(p: Program, at: nat, block: seq<Instr>) {
    at + |block| <= |p.code| && p.code[at..at + |block|] == block
  }

  lemma BlockInstr(p: Program, at: nat, block: seq<Instr>)
    requires HasBlock(p, at, block)
    ensures forall i :: 0 <= i < |block| ==> p.code[at + i] == block[i]
  {
    forall i | 0 <= i < |block| ensures p.code[at + i] == block[i] {
      assert p.code[at..at + |block|][i] == block[i];
    }
  }

  lemma WholeBlock(p: Program, code: seq<Instr>)
    requires p.code == code
    ensures HasBlock(p, 0, code)
  {}

  lemma SubBlock(p: Program, at: nat, a: seq<Instr>, b: seq<Instr>)
    requires HasBlock(p, at, a + b)
    ensures HasBlock(p, at, a) && HasBlock(p, at + |a|, b)
  {
    BlockInstr(p, at, a + b);
    assert forall i :: 0 <= i < |a| ==> (a + b)[i] == a[i];
    assert forall i :: 0 <= i < |b| ==> (a + b)[|a| + i] == b[i];
  }

  lemma ConcatAssoc(a: seq<Instr>, b: seq<Instr>, c: seq<Instr>)
    ensures a + b + c == a + (b + c)
  {}

  // The effect of the first n instructions of a block without branches.
  function ExecBlock(block: seq<Instr>, arg: int32, stack: List<Value>, locals: seq<int32>, n: nat): Effect
    requires n <= |block|
    decreases n
  {
    if n == 0 then Frame(stack, locals)
    else
      match ExecBlock(block, arg, stack, locals, n - 1)
      case Frame(st, lo) => Exec(block[n - 1], arg, st, lo)
      case stop => stop
  }

  // A block found in a program runs to its end with that effect.
  lemma {:induction false} RunBlock(p: Program, arg: int32, at: nat, block: seq<Instr>,
                                    stack: List<Value>, locals: seq<int32>, n: nat)
    requires HasBlock(p, at, block) && n <= |block|
    requires ExecBlock(block, arg, stack, locals, n).Frame?
    ensures var r := ExecBlock(block, arg, stack, locals, n);
            Run(p, arg, Running(at, stack, locals), n) == Running(at + n, r.stack, r.locals)
    decreases n
  {
    if n > 0 {
      RunBlock(p, arg, at, block, stack, locals, n - 1);
      BlockInstr(p, at, block);
      hide HasBlock, Exec, Raise;
      RunAdd(p, arg, Running(at, stack, locals), n - 1, 1);
    }
  }

  // The next instruction of the block, once the effect of the first n is known.
  lemma ExecNext(block: seq<Instr>, arg: int32, stack: List<Value>, locals: seq<int32>, n: nat,
                 st: List<Value>, lo: seq<int32>)
    requires n < |block| && ExecBlock(block, arg, stack, locals, n) == Frame(st, lo)
    ensures ExecBlock(block, arg, stack, locals, n + 1) == Exec(block[n], arg, st, lo)
  {}

  // A block whose instruction n raises, outside every protected region.
  lemma RunEscape(p: Program, arg: int32, at: nat, block: seq<Instr>, stack: List<Value>, locals: seq<int32>,
                  n: nat, e: Exn)
    requires HasBlock(p, at, block) && n < |block| && IsPlain(block[n]) && Protecting(p.regions, at + n) < 0
    requires var r := ExecBlock(block, arg, stack, locals, n);
             r.Frame? && Exec(block[n], arg, r.stack, r.locals) == Raises(e)
    ensures Run(p, arg, Running(at, stack, locals), n + 1) == Escaped(e)
  {
    RunBlock(p, arg, at, block, stack, locals, n);
    BlockInstr(p, at, block);
    hide ExecBlock, HasBlock, Exec;
    RunAdd(p, arg, Running(at, stack, locals), n, 1);
  }

  // A block ending in a conditional branch, an unconditional branch or ret.
  lemma RunBranch(p: Program, arg: int32, at: nat, block: seq<Instr>, stack: List<Value>, locals: seq<int32>, v: int32)
    requires HasBlock(p, at, block) && block != []
    requires var last := block[|block| - 1]; (last.Brfalse? || last.Brtrue?) && last.target >= 0
    requires var r := ExecBlock(block, arg, stack, locals, |block| - 1);
             r.Frame? && r.stack.Cons? && r.stack.head == Num(v)
    ensures var r := ExecBlock(block, arg, stack, locals, |block| - 1);
            var next := if (v != 0) == block[|block| - 1].Brtrue? then block[|block| - 1].target else at + |block|;
            Run(p, arg, Running(at, stack, locals), |block|) == Running(next, r.stack.tail, r.locals)
  {
    hide Exec, ExecBlock;
    RunBlock(p, arg, at, block, stack, locals, |block| - 1);
    BlockInstr(p, at, block);
    RunAdd(p, arg, Running(at, stack, locals), |block| - 1, 1);
  }

  lemma RunJump(p: Program, arg: int32, at: nat, block: seq<Instr>, stack: List<Value>, locals: seq<int32>)
    requires HasBlock(p, at, block) && block != []
    requires var last := block[|block| - 1]; (last.Br? || last.Leave?) && last.target >= 0
    requires var r := ExecBlock(block, arg, stack, locals, |block| - 1); r.Frame? && r.stack == Nil
    ensures var r := ExecBlock(block, arg, stack, locals, |block| - 1);
            Run(p, arg, Running(at, stack, locals), |block|) == Running(block[|block| - 1].target, Nil, r.locals)
  {
    hide Exec, ExecBlock;
    RunBlock(p, arg, at, block, stack, locals, |block| - 1);
    BlockInstr(p, at, block);
    RunAdd(p, arg, Running(at, stack, locals), |block| - 1, 1);
  }

  lemma RunReturn(p: Program, arg: int32, at: nat, l: nat, locals: seq<int32>)
    requires HasBlock(p, at, [Ldloc(l), Ret]) && l < |locals|
    ensures Run(p, arg, Running(at, Nil, locals), 2) == Returned(locals[l])
  {
    BlockInstr(p, at, [Ldloc(l), Ret]);
    assert [Ldloc(l), Ret][0] == Ldloc(l) && [Ldloc(l), Ret][1] == Ret;
    assert p.code[at + 0] == Ldloc(l) && p.code[at + 1] == Ret;
  }

  // `leave` empties the evaluation stack.
  lemma RunLeave(p: Program, arg: int32, at: nat, target: nat, stack: List<Value>, locals: seq<int32>)
    requires HasBlock(p, at, [Leave(target)])
    ensures Run(p, arg, Running(at, stack, locals), 1) == Running(target, Nil, locals)
  {
    BlockInstr(p, at, [Leave(target)]);
    assert p.code[at + 0] == Leave(target);
    assert Run(p, arg, Running(at, stack, locals), 1) == Step(p, arg, Running(at, stack, locals));
  }

  // `throw` enters the handler of the first region that protects it, with the exception alone on the stack.
  lemma RunThrow(p: Program, arg: int32, at: nat, e: Exn, stack: List<Value>, locals: seq<int32>, r: nat)
    requires HasBlock(p, at, [Newobj(e), Throw]) && r < |p.regions| && p.regions[r].handlerStart >= 0
    requires p.regions[r].tryStart <= at + 1 < p.regions[r].tryEnd
    requires forall q | 0 <= q < r :: !(p.regions[q].tryStart <= at + 1 < p.regions[q].tryEnd)
    ensures Run(p, arg, Running(at, stack, locals), 2)
         == Running(p.regions[r].handlerStart, Cons(Obj(e), Nil), locals)
  {
    BlockInstr(p, at, [Newobj(e), Throw]);
    assert p.code[at + 0] == Newobj(e) && p.code[at + 1] == Throw;
    var s1 := Running(at + 1, Cons(Obj(e), stack), locals);
    assert Step(p, arg, Running(at, stack, locals)) == s1;
    assert Protecting(p.regions, at + 1) == r;
    assert Step(p, arg, s1) == Running(p.regions[r].handlerStart, Cons(Obj(e), Nil), locals);
    hide Step;
    assert Run(p, arg, s1, 1) == Step(p, arg, s1);
  }

  // The operators: the right operand is on top, sums and products wrap, a remainder by zero and MIN rem -1 raise.
  lemma OperatorLaw(arg: int32, x: int32, y: int32, rest: List<Value>, locals: seq<int32>)
    ensures var stack := Cons(Num(y), Cons(Num(x), rest));
            && Exec(Add, arg, stack, locals) == Frame(Cons(Num(Wrap(x + y)), rest), locals)
            && Exec(Mul, arg, stack, locals) == Frame(Cons(Num(Wrap(x * y)), rest), locals)
            && Exec(BitAnd, arg, stack, locals) == Frame(Cons(Num(And(x, y)), rest), locals)
            && Exec(Ceq, arg, stack, locals) == Frame(Cons(Num(if x == y then 1 else 0), rest), locals)
            && Exec(Clt, arg, stack, locals) == Frame(Cons(Num(if x < y then 1 else 0), rest), locals)
    ensures var stack := Cons(Num(y), Cons(Num(x), rest));
            && (y == 0 ==> Exec(Rem, arg, stack, locals) == Raises(DivideByZero))
            && (x == -0x8000_0000 && y == -1 ==> Exec(Rem, arg, stack, locals) == Raises(Overflow))
            && (y != 0 && (x != -0x8000_0000 || y != -1) ==>
                  -0x8000_0000 <= TruncRem(x, y) <= 0x7fff_ffff &&
                  Exec(Rem, arg, stack, locals) == Frame(Cons(Num(TruncRem(x, y)), rest), locals))
  {
    hide Wrap, And;
  }

  // The blocks f(0), f(1), ..., f(k - 1) one after another.
  function Repeat(f: nat -> seq<Instr>, k: nat): seq<Instr> {
    if k == 0 then [] else Repeat(f, k - 1) + f(k - 1)
  }

  lemma {:induction false} RepeatLength(f: nat -> seq<Instr>, k: nat, width: nat)
    requires forall i :: 0 <= i < k ==> |f(i)| == width
    ensures |Repeat(f, k)| == k * width
  {
    if k > 0 {
      RepeatLength(f, k - 1, width);
    }
  }

  // In a program holding Repeat(f, k) at `at`, block i starts at at + i * width.
  lemma {:induction false} RepeatBlock(p: Program, at: nat, f: nat -> seq<Instr>, k: nat, width: nat, i: nat)
    requires forall j :: 0 <= j < k ==> |f(j)| == width
    requires HasBlock(p, at, Repeat(f, k)) && i < k
    ensures HasBlock(p, at + i * width, f(i))
  {
    RepeatLength(f, k - 1, width);
    SubBlock(p, at, Repeat(f, k - 1), f(k - 1));
    if i < k - 1 {
      RepeatBlock(p, at, f, k - 1, width, i);
    }
  }
}
