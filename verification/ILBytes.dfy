// The byte stream behind Emit(OpCode, int): what is written, and how ECMA-335 Partition III reads it.
module ILBytes {
  import opened IL
  import opened Words

  // ldloc (section 3.43) is FE 0C and stloc (section 3.63) FE 0E, each followed by an unsigned 16-bit
  // index; nop is 00.
  const PREFIX: byte := 0xFE
  const LDLOC: byte := 0x0C
  const STLOC: byte := 0x0E
  const NOP: byte := 0

  // The instructions a stream of these three opcodes holds; Undecodable marks anything else.
  datatype Reading = Instrs(code: seq<Instr>) | Undecodable

  function Read(b: seq<byte>): Reading {
    if b == [] then Instrs([])
    else if b[0] == NOP then Behind(Nop, Read(b[1..]))
    else if |b| >= 4 && b[0] == PREFIX && (b[1] == LDLOC || b[1] == STLOC) then
      var local := Magnitude(b[2..4]);
      Behind(if b[1] == LDLOC then Ldloc(local) else Stloc(local), Read(b[4..]))
    else Undecodable
  }

  function Behind(op: Instr, rest: Reading): Reading {
    if rest.Instrs? then Instrs([op] + rest.code) else Undecodable
  }

  // Emit(OpCodes.Ldloc, int) and Emit(OpCodes.Stloc, int) write the two opcode bytes and all four
  // bytes of the int.
  function WideBytes(op: Instr): seq<byte>
    requires op.Ldloc? || op.Stloc?
  {
    [PREFIX, if op.Ldloc? then LDLOC else STLOC] + LittleEndian(op.local, 4)
  }

  // The six bytes, and how such six bytes read.
  lemma WideListing(op: Instr, low: byte, high: byte)
    requires (op.Ldloc? || op.Stloc?) && op.local < 0x1_0000_0000
    ensures WideBytes(op) == [0xFE, if op.Ldloc? then 0x0C else 0x0E, (op.local % 256) as byte,
                              (op.local / 256 % 256) as byte, (op.local / 65536 % 256) as byte,
                              (op.local / 16777216) as byte]
    ensures Read([0xFE, 0x0C, low, high, 0, 0]) == Instrs([Ldloc(low as nat + 256 * high as nat), Nop, Nop])
    ensures Read([0xFE, 0x0E, low, high, 0, 0]) == Instrs([Stloc(low as nat + 256 * high as nat), Nop, Nop])
  {
    FourBytesOf(op.local);
    TwoBytes([low, high]);
    TwoNops();
    hide LittleEndian, Magnitude;
    WideRead(LDLOC, low, high);
    WideRead(STLOC, low, high);
  }

  lemma WideRead(opcode: byte, low: byte, high: byte)
    requires opcode == LDLOC || opcode == STLOC
    ensures var local := Magnitude([low, high]);
            Read([PREFIX, opcode, low, high, NOP, NOP])
            == Instrs([if opcode == LDLOC then Ldloc(local) else Stloc(local), Nop, Nop])
  {
    var b := [PREFIX, opcode, low, high, NOP, NOP];
    TwoNops();
    hide Magnitude;
    assert b[2..4] == [low, high] && b[4..] == [NOP, NOP];
    var first := if opcode == LDLOC then Ldloc(Magnitude([low, high])) else Stloc(Magnitude([low, high]));
    assert Read(b) == Behind(first, Read([NOP, NOP]));
    assert [first] + [Nop, Nop] == [first, Nop, Nop];
  }

  lemma TwoBytes(b: seq<byte>)
    requires |b| == 2
    ensures Magnitude(b) == b[0] as nat + 256 * b[1] as nat
  {
    hide Magnitude;
    MagnitudeStep(b);
    MagnitudeStep(b[1..]);
    NoBytes(b[2..]);
    assert b[1..][1..] == b[2..];
  }

  lemma FourBytesOf(v: nat)
    requires v < 0x1_0000_0000
    ensures LittleEndian(v, 4)
         == [(v % 256) as byte, (v / 256 % 256) as byte, (v / 65536 % 256) as byte, (v / 16777216) as byte]
  {
    hide LittleEndian;
    LittleEndianStep(v, 4);
    LittleEndianStep(v / 256, 3);
    LittleEndianStep(v / 256 / 256, 2);
    LittleEndianStep(v / 256 / 256 / 256, 1);
  }

  // What was written reads back as the instruction and two nops exactly when the index fits 16 bits.
  lemma WideReads(op: Instr)
    requires (op.Ldloc? || op.Stloc?) && op.local < 0x1_0000_0000
    ensures Read(WideBytes(op)) == Instrs([op, Nop, Nop]) <==> op.local < 0x1_0000
  {
    var b := WideBytes(op);
    var low, tail := b[2..4], b[4..];
    var first := if op.Ldloc? then Ldloc(Magnitude(low)) else Stloc(Magnitude(low));
    Halves(op.local);
    assert low == LittleEndian(op.local, 4)[..2] && tail == LittleEndian(op.local, 4)[2..];
    LowHalf(low);
    assert Read(b) == Behind(first, Read(tail));
    if op.local < 0x1_0000 {
      TwoNops();
      assert [op] + [Nop, Nop] == [op, Nop, Nop];
    } else {
      assert Read(b).Instrs? ==> Read(b).code[0] == first != op;
    }
  }

  lemma LowHalf(b: seq<byte>)
    requires |b| == 2
    ensures Magnitude(b) < 0x1_0000
  {
    BytesOfMagnitude(b);
    assert Power256(2) == 0x1_0000;
  }

  lemma TwoNops()
    ensures Read([NOP, NOP]) == Instrs([Nop, Nop])
  {
    assert [NOP, NOP][1..] == [NOP];
    assert [NOP][1..] == [];
    assert Read([NOP]) == Instrs([Nop]);
  }

  // A 16-bit index has two zero bytes above it.
  lemma Halves(v: nat)
    ensures v < 0x1_0000 ==> Magnitude(LittleEndian(v, 4)[..2]) == v && LittleEndian(v, 4)[2..] == [NOP, NOP]
  {
    LittleEndianStep(v, 4);
    LittleEndianStep(v / 256, 3);
    var low := LittleEndian(v, 4)[..2];
    assert low == [(v % 256) as byte, (v / 256 % 256) as byte];
    assert low[1..] == [(v / 256 % 256) as byte];
    assert low[1..][1..] == [];
    assert Magnitude(low[1..]) == v / 256 % 256;
    if v < 0x1_0000 {
      assert Magnitude(low) == v % 256 + 256 * (v / 256);
      assert LittleEndian(v, 4)[2..] == LittleEndian(0, 2);
    }
  }
}
