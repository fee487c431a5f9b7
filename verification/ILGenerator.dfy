// The assembler: instructions are appended with label operands, labels are defined and marked,
// protected blocks are opened and closed, and CreateDelegate replaces labels by positions.
module ILGenerator {
  import opened IL
  import ILBytes

  const UNMARKED: int := -1

  // A protected block under construction; handlerStart is UNMARKED while its try part is open.
  datatype OpenBlock = OpenBlock(tryStart: nat, handlerStart: int, endLabel: nat)

  predicate HasLabel(op: Instr) {
    op.Br? || op.Brtrue? || op.Brfalse? || op.Leave?
  }

  function Fixup(op: Instr, position: int): Instr {
    match op
    case Br(_) => Br(position)
    case Brtrue(_) => Brtrue(position)
    case Brfalse(_) => Brfalse(position)
    case Leave(_) => Leave(position)
    case _ => op
  }

  // The label an instruction refers to, if any, has been marked.
  predicate Linked(op: Instr, labels: seq<int>) {
    HasLabel(op) ==> 0 <= op.target < |labels| && labels[op.target] != UNMARKED
  }

  // `target` is `code` with every label replaced by the position where it was marked.
  predicate Baked(code: seq<Instr>, labels: seq<int>, target: seq<Instr>) {
    && |target| == |code|
    && forall i :: 0 <= i < |code| ==>
         && Linked(code[i], labels)
         && target[i] == if HasLabel(code[i]) then Fixup(code[i], labels[code[i].target]) else code[i]
  }

  lemma NothingBaked(labels: seq<int>)
    ensures Baked([], labels, [])
  {}

  lemma BakedLength(code: seq<Instr>, labels: seq<int>, target: seq<Instr>)
    requires Baked(code, labels, target)
    ensures |target| == |code|
  {}

  // Emitting b after a, with new labels, leaves a and its targets as they were.
  lemma BakedConcat(a: seq<Instr>, labels: seq<int>, ta: seq<Instr>, b: seq<Instr>, more: seq<int>, tb: seq<Instr>)
    requires Baked(a, labels, ta) && Baked(b, labels + more, tb)
    ensures Baked(a + b, labels + more, ta + tb)
  {}

  // The same when b defines no labels.
  lemma BakedAppend(a: seq<Instr>, labels: seq<int>, ta: seq<Instr>, b: seq<Instr>, tb: seq<Instr>)
    requires Baked(a, labels, ta) && Baked(b, labels, tb)
    ensures Baked(a + b, labels, ta + tb)
  {}

  predicate AllLinked(code: seq<Instr>, labels: seq<int>) {
    forall i :: 0 <= i < |code| ==> Linked(code[i], labels)
  }

  // Code without branches is its own fix-up.
  lemma BakedPlain(code: seq<Instr>, labels: seq<int>)
    requires forall i :: 0 <= i < |code| ==> !HasLabel(code[i])
    ensures Baked(code, labels, code)
  {}

  // Fixing up code has one outcome.
  lemma BakedUnique(code: seq<Instr>, labels: seq<int>, target: seq<Instr>)
    requires Baked(code, labels, target)
    ensures AllLinked(code, labels)
    ensures forall t :: Baked(code, labels, t) ==> t == target
  {
    forall t | Baked(code, labels, t) ensures t == target {
      assert forall i :: 0 <= i < |t| ==> t[i] == target[i];
    }
  }

  predicate RefersFrom(code: seq<Instr>, lo: int) {
    forall i :: 0 <= i < |code| && HasLabel(code[i]) ==> code[i].target >= lo
  }

  lemma RefersWeaken(code: seq<Instr>, lo: int, lower: int)
    requires RefersFrom(code, lo) && lower <= lo
    ensures RefersFrom(code, lower)
  {}

  predicate AgreeFrom(labels: seq<int>, relabelled: seq<int>, lo: nat) {
    |labels| <= |relabelled| && forall l :: lo <= l < |labels| ==> relabelled[l] == labels[l]
  }

  lemma RefersConcat(a: seq<Instr>, b: seq<Instr>, lo: int)
    requires RefersFrom(a, lo) && RefersFrom(b, lo)
    ensures RefersFrom(a + b, lo)
  {}

  // Code that refers to labels from lo on does not notice changes to earlier ones.
  lemma BakedRelabel(code: seq<Instr>, labels: seq<int>, relabelled: seq<int>, target: seq<Instr>, lo: nat)
    requires Baked(code, labels, target) && RefersFrom(code, lo) && AgreeFrom(labels, relabelled, lo)
    ensures Baked(code, relabelled, target)
  {}

  class Generator {
    var code: seq<Instr>
    var labels: seq<int>
    var locals: nat
    var regions: seq<Region>
    var open: seq<OpenBlock>

    constructor ()
      ensures code == [] && labels == [] && locals == 0 && regions == [] && open == []
    {
      code, labels, locals, regions, open := [], [], 0, [], [];
    }

    method DeclareLocal() returns (local: nat)
      modifies this`locals
      ensures local == old(locals) && locals == old(locals) + 1
    {
      local := locals;
      locals := locals + 1;
    }

    method DefineLabel() returns (id: nat)
      modifies this`labels
      ensures id == |old(labels)| && labels == old(labels) + [UNMARKED]
    {
      id := |labels|;
      labels := labels + [UNMARKED];
    }

    method MarkLabel(id: nat)
      requires id < |labels| && labels[id] == UNMARKED
      modifies this`labels
      ensures labels == old(labels)[id := |code|]
    {
      labels := labels[id := |code|];
    }

    method Emit(op: Instr)
      requires HasLabel(op) ==> 0 <= op.target < |labels|
      modifies this`code
      ensures code == old(code) + [op]
    {
      code := code + [op];
    }

    // Emit(OpCode, int) with ldloc or stloc writes a 32-bit operand where the instruction takes
    // 16 bits; what lands in the code is what the bytes read as.
    method EmitWide(op: Instr)
      requires (op.Ldloc? || op.Stloc?) && op.local < 0x1_0000
      modifies this`code
      ensures code == old(code) + [op, Nop, Nop]
    {
      ILBytes.WideReads(op);
      var reading := ILBytes.Read(ILBytes.WideBytes(op));
      code := code + reading.code;
    }

    method BeginExceptionBlock() returns (endLabel: nat)
      modifies this`labels, this`open
      ensures endLabel == |old(labels)| && labels == old(labels) + [UNMARKED]
      ensures open == old(open) + [OpenBlock(|code|, UNMARKED, endLabel)]
    {
      endLabel := DefineLabel();
      open := open + [OpenBlock(|code|, UNMARKED, endLabel)];
    }

    // Closes the try part with a leave to the end of the block and starts the handler.
    method BeginCatchBlock()
      requires open != [] && open[|open| - 1].handlerStart == UNMARKED
      requires open[|open| - 1].endLabel < |labels|
      modifies this`code, this`open
      ensures code == old(code) + [Leave(old(open[|open| - 1]).endLabel)]
      ensures open == old(open)[|old(open)| - 1 := old(open[|open| - 1]).(handlerStart := |code|)]
    {
      var block := open[|open| - 1];
      Emit(Leave(block.endLabel));
      open := open[|open| - 1 := block.(handlerStart := |code|)];
    }

    // Closes the handler with a leave, records the region and marks the end of the block.
    method EndExceptionBlock()
      requires open != [] && open[|open| - 1].handlerStart != UNMARKED
      requires open[|open| - 1].endLabel < |labels| && labels[open[|open| - 1].endLabel] == UNMARKED
      modifies this`code, this`labels, this`regions, this`open
      ensures code == old(code) + [Leave(old(open[|open| - 1]).endLabel)]
      ensures labels == old(labels)[old(open[|open| - 1]).endLabel := |code|]
      ensures var b := old(open[|open| - 1]);
              regions == old(regions) + [Region(b.tryStart, b.handlerStart, b.handlerStart, |code|)]
      ensures open == old(open)[..|old(open)| - 1]
    {
      var block := open[|open| - 1];
      Emit(Leave(block.endLabel));
      regions := regions + [Region(block.tryStart, block.handlerStart, block.handlerStart, |code|)];
      MarkLabel(block.endLabel);
      open := open[..|open| - 1];
    }

    // Fails in the runtime if a referenced label was never marked or a block is still open.
    method CreateDelegate() returns (p: Program)
      requires AllLinked(code, labels) && open == []
      ensures Baked(code, labels, p.code) && p.regions == regions && p.locals == locals
    {
      var baked: seq<Instr> := [];
      for k := 0 to |code|
        invariant Baked(code[..k], labels, baked)
      {
        assert code[..k + 1] == code[..k] + [code[k]];
        baked := baked + [if HasLabel(code[k]) then Fixup(code[k], labels[code[k].target]) else code[k]];
      }
      assert code[..|code|] == code;
      p := Program(baked, regions, locals);
    }
  }
}
