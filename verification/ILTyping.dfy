// One-pass stack typing in the style of ECMA-335 Partition III, section 1.7.5: every program it
// accepts runs without reaching a stuck state.
module ILTyping {
  import opened Int32
  import opened IL

  datatype Ty = IntTy | ObjTy

  function TypeOf(v: Value): Ty {
    if v.Num? then IntTy else ObjTy
  }

  function Types(stack: List<Value>): List<Ty> {
    match stack
    case Nil => Nil
    case Cons(v, rest) => Cons(TypeOf(v), Types(rest))
  }

  datatype Typing = Typed(stack: List<Ty>) | Untypable

  function Push(t: Ty, stack: List<Ty>): Typing {
    Typed(Cons(t, stack))
  }

  // The stack type after an instruction that does not raise, or Untypable.
  function After(op: Instr, locals: nat, ty: List<Ty>): Typing {
    if IsBinary(op) then
      match ty
      case Cons(IntTy, Cons(IntTy, rest)) => Push(IntTy, rest)
      case _ => Untypable
    else
      match op
      case Nop => Typed(ty)
      case Ldarg0 => Push(IntTy, ty)
      case Ldloc(l) => if l < locals then Push(IntTy, ty) else Untypable
      case Stloc(l) => if l < locals && ty.Cons? && ty.head.IntTy? then Typed(ty.tail) else Untypable
      case LdcI4(_) => Push(IntTy, ty)
      case Pop => if ty.Cons? then Typed(ty.tail) else Untypable
      case Br(_) => Typed(ty)
      case Brtrue(_) => if ty.Cons? && ty.head.IntTy? then Typed(ty.tail) else Untypable
      case Brfalse(_) => if ty.Cons? && ty.head.IntTy? then Typed(ty.tail) else Untypable
      case Leave(_) => Typed(Nil)
      case Newobj(_) => Push(ObjTy, ty)
      case Throw => if ty.Cons? && ty.head.ObjTy? then Typed(Nil) else Untypable
      case Call(MathAbs) => if ty.Cons? && ty.head.IntTy? then Typed(ty) else Untypable
      case Call(StaticComplexWork) =>
        (match ty
         case Cons(IntTy, Cons(IntTy, rest)) => Push(IntTy, rest)
         case _ => Untypable)
      case Ret => if ty == Cons(IntTy, Nil) then Typed(Nil) else Untypable
      case _ => Untypable
  }

  predicate EndsFlow(op: Instr) {
    op.Br? || op.Leave? || op.Throw? || op.Ret?
  }

  predicate HandlerAt(p: Program, pc: int) {
    exists r :: 0 <= r < |p.regions| && p.regions[r].handlerStart == pc
  }

  // The type at pc + 1 as one forward pass assigns it: a handler starts with the exception,
  // and after an unconditional transfer the stack is taken to be empty.
  function NextType(p: Program, pc: nat, ty: Typing): Typing
    requires pc < |p.code|
  {
    if HandlerAt(p, pc + 1) then Typed(Cons(ObjTy, Nil))
    else if EndsFlow(p.code[pc]) then Typed(Nil)
    else if ty.Untypable? then Untypable
    else After(p.code[pc], p.locals, ty.stack)
  }

  // The pass over n instructions starting at pc with type ty.
  function Infer(p: Program, pc: nat, ty: Typing, n: nat): Typing
    requires pc + n <= |p.code|
    decreases n
  {
    if n == 0 then ty else Infer(p, pc + 1, NextType(p, pc, ty), n - 1)
  }

  function TypeAt(p: Program, pc: nat): Typing
    requires pc <= |p.code|
  {
    Infer(p, 0, Typed(Nil), pc)
  }

  predicate EmptyAt(p: Program, pc: int) {
    0 <= pc <= |p.code| && TypeAt(p, pc) == Typed(Nil)
  }

  lemma StartsEmpty(p: Program)
    ensures EmptyAt(p, 0)
  {}

  lemma {:induction false} InferAdd(p: Program, pc: nat, ty: Typing, m: nat, n: nat)
    requires pc + m + n <= |p.code|
    ensures Infer(p, pc, ty, m + n) == Infer(p, pc + m, Infer(p, pc, ty, m), n)
    decreases m
  {
    if m > 0 {
      InferAdd(p, pc + 1, NextType(p, pc, ty), m - 1, n);
    }
  }

  predicate InTry(r: Region, pc: int) {
    r.tryStart <= pc < r.tryEnd
  }

  predicate InHandler(r: Region, pc: int) {
    r.handlerStart <= pc < r.handlerEnd
  }

  // Ordinary control flow from pc to target: it stays in its handlers, leaves no try block and
  // enters one only at its first instruction.
  predicate FlowOk(p: Program, pc: int, target: int) {
    forall r :: 0 <= r < |p.regions| ==>
      && (InHandler(p.regions[r], pc) <==> InHandler(p.regions[r], target))
      && (InTry(p.regions[r], pc) ==> InTry(p.regions[r], target))
      && (InTry(p.regions[r], target) ==> InTry(p.regions[r], pc) || target == p.regions[r].tryStart)
  }

  // leave exits a try block or handler and lands outside both parts of every region it was in.
  predicate LeaveOk(p: Program, pc: int, target: int) {
    exists r :: 0 <= r < |p.regions|
      && (InTry(p.regions[r], pc) || InHandler(p.regions[r], pc))
      && !InTry(p.regions[r], target) && !InHandler(p.regions[r], target)
  }

  predicate OutsideRegions(p: Program, pc: int) {
    forall r :: 0 <= r < |p.regions| ==> !InTry(p.regions[r], pc) && !InHandler(p.regions[r], pc)
  }

  predicate TargetOk(p: Program, target: int, ty: Typing) {
    0 <= target < |p.code| && TypeAt(p, target) == ty
  }

  predicate Branches(op: Instr) {
    op.Br? || op.Brtrue? || op.Brfalse?
  }

  // The instruction at pc is used at its inferred type, every path to a successor agrees with the
  // type inferred there, and the stack is empty at branch targets and holds one integer at ret.
  predicate Checked(p: Program, pc: nat)
    requires pc < |p.code|
  {
    var op := p.code[pc];
    TypeAt(p, pc).Typed? &&
    var after := After(op, p.locals, TypeAt(p, pc).stack);
    && after.Typed?
    && (!EndsFlow(op) ==> TargetOk(p, pc + 1, after) && FlowOk(p, pc, pc + 1))
    && (Branches(op) ==> after == Typed(Nil) && TargetOk(p, op.target, after) && FlowOk(p, pc, op.target))
    && (op.Leave? ==> TargetOk(p, op.target, Typed(Nil)) && LeaveOk(p, pc, op.target))
    && (op.Ret? ==> OutsideRegions(p, pc))
  }

  predicate RegionOk(p: Program, r: Region) {
    && 0 <= r.tryStart < r.tryEnd == r.handlerStart < r.handlerEnd < |p.code|
    && TypeAt(p, r.tryStart) == Typed(Nil)
  }

  predicate CheckedRange(p: Program, lo: nat, hi: nat)
    requires hi <= |p.code|
  {
    forall pc :: lo <= pc < hi ==> Checked(p, pc)
  }

  // A well-formed program.
  predicate Verified(p: Program) {
    && p.code != []
    && CheckedRange(p, 0, |p.code|)
    && (forall r :: 0 <= r < |p.regions| ==> RegionOk(p, p.regions[r]))
  }

  ghost predicate WellTyped(p: Program, s: State) {
    match s
    case Running(pc, stack, locals) =>
      pc < |p.code| && |locals| == p.locals && TypeAt(p, pc) == Typed(Types(stack))
    case Stuck => false
    case _ => true
  }

  lemma HandlerTyped(p: Program, r: nat)
    requires Verified(p) && r < |p.regions|
    ensures var h := p.regions[r].handlerStart; 0 < h < |p.code| && TypeAt(p, h) == Typed(Cons(ObjTy, Nil))
  {
    assert RegionOk(p, p.regions[r]);
    var h := p.regions[r].handlerStart;
    InferAdd(p, 0, Typed(Nil), h - 1, 1);
    assert HandlerAt(p, h);
  }

  lemma RaiseTyped(p: Program, pc: nat, e: Exn, locals: seq<int32>)
    requires Verified(p) && |locals| == p.locals
    ensures WellTyped(p, Raise(p, pc, e, locals))
  {
    var i := Protecting(p.regions, pc);
    if i >= 0 {
      HandlerTyped(p, i);
    }
  }

  lemma BinaryTyped(p: Program, arg: int32, s: State)
    requires Verified(p) && WellTyped(p, s) && s.Running? && IsBinary(p.code[s.pc])
    ensures WellTyped(p, Step(p, arg, s))
  {
    assert Checked(p, s.pc);
    assert s.stack.Cons? ==> Types(s.stack) == Cons(TypeOf(s.stack.head), Types(s.stack.tail));
    RaiseTyped(p, s.pc, DivideByZero, s.locals);
    RaiseTyped(p, s.pc, Overflow, s.locals);
  }

  lemma TransferTyped(p: Program, arg: int32, s: State)
    requires Verified(p) && WellTyped(p, s) && s.Running?
    requires EndsFlow(p.code[s.pc]) || Branches(p.code[s.pc])
    ensures WellTyped(p, Step(p, arg, s))
  {
    var op := p.code[s.pc];
    assert Checked(p, s.pc);
    assert s.stack.Cons? ==> Types(s.stack) == Cons(TypeOf(s.stack.head), Types(s.stack.tail));
    if op.Throw? {
      RaiseTyped(p, s.pc, s.stack.head.e, s.locals);
    }
  }

  lemma StepTyped(p: Program, arg: int32, s: State)
    requires Verified(p) && WellTyped(p, s)
    ensures WellTyped(p, Step(p, arg, s))
  {
    if s.Running? {
      var op := p.code[s.pc];
      if IsBinary(op) {
        BinaryTyped(p, arg, s);
      } else if EndsFlow(op) || Branches(op) {
        TransferTyped(p, arg, s);
      } else {
        assert Checked(p, s.pc);
        assert s.stack.Cons? ==> Types(s.stack) == Cons(TypeOf(s.stack.head), Types(s.stack.tail));
        RaiseTyped(p, s.pc, Overflow, s.locals);
      }
    }
  }

  // Type safety: a verified program never gets stuck, whatever its argument and however long it runs.
  lemma {:induction false} VerifiedNeverStuck(p: Program, arg: int32, n: nat)
    requires Verified(p)
    ensures Run(p, arg, Initial(p), n) != Stuck
    ensures WellTyped(p, Run(p, arg, Initial(p), n))
  {
    if n > 0 {
      VerifiedNeverStuck(p, arg, n - 1);
      RunAdd(p, arg, Initial(p), n - 1, 1);
      StepTyped(p, arg, Run(p, arg, Initial(p), n - 1));
    }
  }

  // ----- Checking a block at a time -----

  // The pass over the first n instructions of a block that holds no handler start.
  function InferBlock(block: seq<Instr>, locals: nat, n: nat): Typing
    requires n <= |block|
    decreases n
  {
    if n == 0 then Typed(Nil)
    else if EndsFlow(block[n - 1]) then Typed(Nil)
    else
      match InferBlock(block, locals, n - 1)
      case Typed(ty) => After(block[n - 1], locals, ty)
      case Untypable => Untypable
  }

  // The first n instructions are used at the types inferred for them, starting from an empty stack.
  predicate BlockTyped(block: seq<Instr>, locals: nat, n: nat)
    requires n <= |block|
    decreases n
  {
    if n == 0 then true
    else
      && BlockTyped(block, locals, n - 1)
      && InferBlock(block, locals, n - 1).Typed?
      && (var after := After(block[n - 1], locals, InferBlock(block, locals, n - 1).stack);
          after.Typed? && (Branches(block[n - 1]) ==> after == Typed(Nil)))
  }

  predicate NoHandlerWithin(p: Program, lo: int, hi: int) {
    forall pc :: lo < pc < hi ==> !HandlerAt(p, pc)
  }

  // Where control may go from pc: falling through and branching keep to the region rules, and
  // branch targets expect an empty stack.
  predicate ExitOk(p: Program, pc: nat)
    requires pc < |p.code|
  {
    var op := p.code[pc];
    && (!EndsFlow(op) ==> pc + 1 < |p.code| && !HandlerAt(p, pc + 1) && FlowOk(p, pc, pc + 1))
    && (Branches(op) ==> TargetOk(p, op.target, Typed(Nil)) && FlowOk(p, pc, op.target))
    && (op.Leave? ==> TargetOk(p, op.target, Typed(Nil)) && LeaveOk(p, pc, op.target))
    && (op.Ret? ==> OutsideRegions(p, pc))
  }

  lemma {:induction false} BlockTypes(p: Program, at: nat, block: seq<Instr>, n: nat)
    requires HasBlock(p, at, block) && n <= |block|
    requires TypeAt(p, at) == Typed(Nil) && NoHandlerWithin(p, at, at + n + 1)
    ensures TypeAt(p, at + n) == InferBlock(block, p.locals, n)
    decreases n
  {
    if n > 0 {
      BlockTypes(p, at, block, n - 1);
      BlockInstr(p, at, block);
      InferAdd(p, 0, Typed(Nil), at + n - 1, 1);
    }
  }

  lemma InstrChecked(p: Program, at: nat, block: seq<Instr>, j: nat)
    requires HasBlock(p, at, block) && TypeAt(p, at) == Typed(Nil) && NoHandlerWithin(p, at, at + |block|)
    requires BlockTyped(block, p.locals, |block|) && j < |block| && ExitOk(p, at + j)
    ensures Checked(p, at + j)
  {
    BlockInstr(p, at, block);
    assert p.code[at + j] == block[j];
    BlockTypes(p, at, block, j);
    TypedUpTo(block, p.locals, j + 1, |block|);
    if !EndsFlow(block[j]) {
      BlockTypes(p, at, block, j + 1);
    }
  }

  lemma BlockChecked(p: Program, at: nat, block: seq<Instr>)
    requires HasBlock(p, at, block) && TypeAt(p, at) == Typed(Nil) && NoHandlerWithin(p, at, at + |block|)
    requires BlockTyped(block, p.locals, |block|)
    requires forall pc :: at <= pc < at + |block| ==> ExitOk(p, pc)
    ensures CheckedRange(p, at, at + |block|)
  {
    forall pc | at <= pc < at + |block| ensures Checked(p, pc) {
      InstrChecked(p, at, block, pc - at);
    }
  }

  lemma {:induction false} TypedUpTo(block: seq<Instr>, locals: nat, m: nat, n: nat)
    requires m <= n <= |block| && BlockTyped(block, locals, n)
    ensures BlockTyped(block, locals, m)
    decreases n
  {
    if m < n {
      TypedUpTo(block, locals, m, n - 1);
    }
  }

  // A well-typed block without leave that starts and ends with an empty stack and branches, if at
  // all, to `target` only.
  predicate PlainBlock(block: seq<Instr>, locals: nat, target: int) {
    && BlockTyped(block, locals, |block|) && InferBlock(block, locals, |block|) == Typed(Nil)
    && forall j :: 0 <= j < |block| ==> !block[j].Leave? && (Branches(block[j]) ==> block[j].target == target)
  }

  // Such blocks can be checked one at a time in a program without protected regions.
  lemma PlainBlockTypes(p: Program, at: nat, block: seq<Instr>, target: int)
    requires p.regions == [] && HasBlock(p, at, block) && EmptyAt(p, at) && PlainBlock(block, p.locals, target)
    ensures EmptyAt(p, at + |block|)
  {
    BlockTypes(p, at, block, |block|);
  }

  lemma PlainBlockChecked(p: Program, at: nat, block: seq<Instr>, target: nat)
    requires p.regions == [] && HasBlock(p, at, block) && EmptyAt(p, at) && PlainBlock(block, p.locals, target)
    requires EmptyAt(p, target) && target < |p.code|
    requires at + |block| < |p.code| || (block != [] && EndsFlow(block[|block| - 1]))
    ensures CheckedRange(p, at, at + |block|)
  {
    forall pc | at <= pc < at + |block| ensures ExitOk(p, pc) {
      BlockInstr(p, at, block);
      assert p.code[at + (pc - at)] == block[pc - at];
    }
    BlockChecked(p, at, block);
  }

  lemma JoinRanges(p: Program, lo: nat, mid: nat, hi: nat)
    requires lo <= mid <= hi <= |p.code| && CheckedRange(p, lo, mid) && CheckedRange(p, mid, hi)
    ensures CheckedRange(p, lo, hi)
  {}
}
