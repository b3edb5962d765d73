// The sixteen commands of the instruction set and the encoding of an operand
// word (commands.c).

module Commands {
  import opened Generals
  import opened CText
  import opened Numbering
  import opened Tables

  /** The sixteen commands: name, operation code, funct, operands, source and destination masks. */
  const MOV := Command("mov", 0, 0, 2, "1101", "0101")
  const CMP := Command("cmp", 1, 0, 2, "1101", "1101")
  const ADD := Command("add", 2, 10, 2, "1101", "0101")
  const SUB := Command("sub", 2, 11, 2, "1101", "0101")
  const LEA := Command("lea", 4, 0, 2, "0100", "0101")
  const CLR := Command("clr", 5, 10, 1, "0000", "0101")
  const NOT := Command("not", 5, 11, 1, "0000", "0101")
  const INC := Command("inc", 5, 12, 1, "0000", "0101")
  const DEC := Command("dec", 5, 13, 1, "0000", "0101")
  const JMP := Command("jmp", 9, 10, 1, "0000", "0110")
  const BNE := Command("bne", 9, 11, 1, "0000", "0110")
  const JSR := Command("jsr", 9, 12, 1, "0000", "0110")
  const RED := Command("red", 12, 0, 1, "0000", "0101")
  const PRN := Command("prn", 13, 0, 1, "0000", "1101")
  const RTS := Command("rts", 14, 0, 0, "0000", "0000")
  const STOP := Command("stop", 15, 0, 0, "0000", "0000")

  /**
   * The command table fill_table builds: for each mnemonic its operation code,
   * funct, number of operands and the source and destination masks, where
   * character i of a mask is '1' iff the addressing method with index i is allowed.
   */
  function CommandMap(): map<string, Command>
  {
    map[
      "mov" := MOV,
      "cmp" := CMP,
      "add" := ADD,
      "sub" := SUB,
      "lea" := LEA,
      "clr" := CLR,
      "not" := NOT,
      "inc" := INC,
      "dec" := DEC,
      "jmp" := JMP,
      "bne" := BNE,
      "jsr" := JSR,
      "red" := RED,
      "prn" := PRN,
      "rts" := RTS,
      "stop" := STOP
    ]
  }

  /** The mnemonics with two, and with no operands. */
  const TWO_OPERANDS: set<string> := {"mov", "cmp", "add", "sub", "lea"}
  const NO_OPERANDS: set<string> := {"rts", "stop"}

  /** Whether a mask allows the addressing method m. */
  predicate Allows(mask: string, m: AddrMethod)
  {
    At(mask, m.Index()) == '1'
  }

  /** fill_table: installs the sixteen commands, each under its own name, in this order. */
  method FillTable(table: Table<Command>)
    requires table.Valid()
    modifies table, table.storage
    ensures table.Valid()
    ensures table.Contents == old(table.Contents) + CommandMap()
  {
    table.Install(MOV.name, MOV);
    table.Install(CMP.name, CMP);
    table.Install(ADD.name, ADD);
    table.Install(SUB.name, SUB);
    table.Install(LEA.name, LEA);
    table.Install(CLR.name, CLR);
    table.Install(NOT.name, NOT);
    table.Install(INC.name, INC);
    table.Install(DEC.name, DEC);
    table.Install(JMP.name, JMP);
    table.Install(BNE.name, BNE);
    table.Install(JSR.name, JSR);
    table.Install(RED.name, RED);
    table.Install(PRN.name, PRN);
    table.Install(RTS.name, RTS);
    table.Install(STOP.name, STOP);
    InstallsMakeCommandMap(old(table.Contents));
  }

  /** The sixteen installs, one after the other, add exactly the command map. */
  lemma InstallsMakeCommandMap(m0: map<string, Command>)
    ensures m0[MOV.name := MOV][CMP.name := CMP][ADD.name := ADD]
      [SUB.name := SUB][LEA.name := LEA][CLR.name := CLR]
      [NOT.name := NOT][INC.name := INC][DEC.name := DEC]
      [JMP.name := JMP][BNE.name := BNE][JSR.name := JSR]
      [RED.name := RED][PRN.name := PRN][RTS.name := RTS]
      [STOP.name := STOP]
      == m0 + CommandMap()
  {
  }

  /**
   * What the command table promises about its fields: every entry is stored
   * under its own name and the operation code and funct fit their four-bit fields.
   */
  lemma CommandTableShape()
    ensures forall k :: k in CommandMap() ==>
      var c := CommandMap()[k];
      c.name == k && c.opcode < 16 && c.funct < 16
  {
  }

  /** The masks of the command table have one binary digit per addressing method. */
  lemma CommandTableMasks()
    ensures forall k :: k in CommandMap() ==>
      var c := CommandMap()[k];
      |c.validSrc| == 4 && |c.validDst| == 4 && IsBinary(c.validSrc) && IsBinary(c.validDst)
  {
    forall k | k in CommandMap()
      ensures |CommandMap()[k].validSrc| == 4 && IsBinary(CommandMap()[k].validSrc)
      ensures |CommandMap()[k].validDst| == 4 && IsBinary(CommandMap()[k].validDst)
    {
      var c := CommandMap()[k];
      MaskIsBinary(c.validSrc);
      MaskIsBinary(c.validDst);
    }
  }

  /** The masks the table uses. */
  lemma MaskIsBinary(m: string)
    requires m in {"0000", "0010", "0100", "0101", "0110", "1001", "1011", "1101", "1111"}
    ensures |m| == 4 && IsBinary(m)
  {
  }

  /**
   * The arities of the command table: 2 for mov, cmp, add, sub and lea, 0 for
   * rts and stop, and 1 otherwise; a command with fewer than two operands
   * allows no source method and one with none allows no destination method.
   */
  lemma CommandTableArity()
    ensures forall k :: k in CommandMap() ==>
      var c := CommandMap()[k];
      (c.numOfArgs == 2 <==> k in TWO_OPERANDS)
      && (c.numOfArgs == 0 <==> k in NO_OPERANDS)
      && c.numOfArgs <= 2
      && (c.numOfArgs < 2 ==> c.validSrc == "0000")
      && (c.numOfArgs == 0 ==> c.validDst == "0000")
  {
  }

  /**
   * Relative addressing is allowed only as the destination of jmp, bne and jsr,
   * never as a source; lea's source must be a direct operand.
   */
  lemma RelativeOnlyForJumps()
    ensures forall k :: k in CommandMap() ==>
      (Allows(CommandMap()[k].validDst, Relative) <==> k in {"jmp", "bne", "jsr"})
      && !Allows(CommandMap()[k].validSrc, Relative)
    ensures forall m :: Allows(CommandMap()["lea"].validSrc, m) <==> m == Direct
  {
  }

  /** The mnemonic whose operation code and funct are the given ones ("" if none). */
  function MnemonicOf(opcode: nat, funct: nat): string
  {
    match (opcode, funct)
    case (0, 0) => "mov"
    case (1, 0) => "cmp"
    case (2, 10) => "add"
    case (2, 11) => "sub"
    case (4, 0) => "lea"
    case (5, 10) => "clr"
    case (5, 11) => "not"
    case (5, 12) => "inc"
    case (5, 13) => "dec"
    case (9, 10) => "jmp"
    case (9, 11) => "bne"
    case (9, 12) => "jsr"
    case (12, 0) => "red"
    case (13, 0) => "prn"
    case (14, 0) => "rts"
    case (15, 0) => "stop"
    case _ => ""
  }

  /**
   * The first word of an instruction determines its mnemonic: the operation code
   * and funct read back from the word name the command that was encoded, so no
   * two commands share a first word.
   */
  lemma CommandWordDecodes(k: string, src: int, dst: int)
    requires k in CommandMap()
    ensures var c := CommandMap()[k];
      var w := CommandWord(c.opcode, c.funct, src, dst);
      MnemonicOf(BinValue(w[..4]), BinValue(w[4..8])) == k
  {
    var c := CommandMap()[k];
    CommandWordLayout(c.opcode, c.funct, src, dst);
    OpcodeFunctFit(k);
    MnemonicOfCommand(k);
  }

  lemma OpcodeFunctFit(k: string)
    requires k in CommandMap()
    ensures CommandMap()[k].opcode % 16 == CommandMap()[k].opcode
    ensures CommandMap()[k].funct % 16 == CommandMap()[k].funct
  {
  }

  lemma MnemonicOfCommand(k: string)
    requires k in CommandMap()
    ensures MnemonicOf(CommandMap()[k].opcode, CommandMap()[k].funct) == k
  {
  }

  // ---------------------------------------------------------------------------
  // Operand words

  /** The word of register n: twelve '0' characters except a '1' at index WORD_SIZE - n - 1. */
  function RegisterWord(n: int): string
    requires 0 <= n < NUM_OF_REGISTERS
  {
    seq(WORD_SIZE, i => if i == WORD_SIZE - n - 1 then '1' else '0')
  }

  /** What constructArg keeps of a symbolic operand: the text before its first whitespace. */
  function SymbolText(arg: string): (t: string)
    ensures |t| <= |arg| && t == arg[..|t|]
    ensures |t| < |arg| ==> IsSpace(arg[|t|])
  {
    if arg == [] || IsSpace(arg[0]) then [] else [arg[0]] + SymbolText(arg[1..])
  }

  /**
   * The operand word constructArg builds in node (whose A/R/E tag is preset):
   * an immediate scalar is encoded, a register gets its one-bit word, and a
   * direct or relative operand keeps its text (the '%' included) for the second
   * pass, a direct one being tagged R.
   */
  function ArgWord(node: Word, arg: string, m: AddrMethod): Word
    requires |arg| > 0
    requires m == ImdRegister ==> 0 <= Atoi(arg[1..]) < NUM_OF_REGISTERS
  {
    match m
    case Immediate => node.(code := BinOf(Atoi(arg[1..])))
    case ImdRegister => node.(code := RegisterWord(Atoi(arg[1..])))
    case Direct => node.(code := SymbolText(arg), are := R)
    case Relative => node.(code := SymbolText(arg))
  }

  /** constructArg */
  method ConstructArg(node: Word, arg: string, m: AddrMethod) returns (r: Word)
    requires |arg| > 0
    requires m == ImdRegister ==> 0 <= Atoi(arg[1..]) < NUM_OF_REGISTERS
    ensures r == ArgWord(node, arg, m)
    ensures r.ic == node.ic && r.l == node.l
  {
    if m == Immediate {
      var code := DecimalToBin(Atoi(arg[1..]));
      return node.(code := code);
    } else if m == ImdRegister {
      var n := Atoi(arg[1..]);
      var word := new char[WORD_SIZE];
      var i := 0;
      while i < WORD_SIZE
        invariant 0 <= i <= WORD_SIZE
        invariant forall j :: 0 <= j < i ==> word[j] == '0'
      {
        word[i] := '0';
        i := i + 1;
      }
      word[WORD_SIZE - n - 1] := '1';
      return node.(code := word[..]);
    }
    var code := [];
    var i := 0;
    while i < |arg| && !IsSpace(arg[i])
      invariant 0 <= i <= |arg|
      invariant code == arg[..i]
      invariant forall j :: 0 <= j < i ==> !IsSpace(arg[j])
    {
      code := code + [arg[i]];
      i := i + 1;
    }
    SymbolTextIs(arg, i);
    r := node.(code := code);
    if m == Direct {
      r := r.(are := R);
    }
  }

  lemma {:induction false} SymbolTextIs(arg: string, i: nat)
    requires i <= |arg|
    requires forall j :: 0 <= j < i ==> !IsSpace(arg[j])
    requires i < |arg| ==> IsSpace(arg[i])
    ensures SymbolText(arg) == arg[..i]
  {
    if i > 0 {
      SymbolTextIs(arg[1..], i - 1);
      assert arg[..i] == [arg[0]] + arg[1..][..i - 1];
    }
  }

  lemma {:induction false} ShrPow2(n: nat, k: nat)
    ensures Shr(Pow2(n), k) == if k <= n then Pow2(n - k) else 0
  {
    if k > 0 {
      if n == 0 {
        assert Shr(Pow2(n), k) == Shr(0, k - 1);
        ShrZero(k - 1);
      } else {
        var h := Pow2(n - 1);
        assert Pow2(n) == 2 * h;
        assert Pow2(n) / 2 == h;
        assert Shr(Pow2(n), k) == Shr(h, k - 1);
        ShrPow2(n - 1, k - 1);
      }
    }
  }

  lemma {:induction false} ShrZero(k: nat)
    ensures Shr(0, k) == 0
  {
    if k > 0 {
      ShrZero(k - 1);
    }
  }

  /** The word of register n is the twelve-bit encoding of 2^n: bit n, and only it, is set. */
  lemma RegisterWordIsPowerOfTwo(n: int)
    requires 0 <= n < NUM_OF_REGISTERS
    ensures RegisterWord(n) == BinOf(Pow2(n))
    ensures BinValue(RegisterWord(n)) == Pow2(n)
  {
    RegisterWordBits(n);
    RegisterPow2(n);
    RoundTrip(Pow2(n));
  }

  lemma RegisterPow2(n: nat)
    requires n < NUM_OF_REGISTERS
    ensures Pow2(n) <= 128
  {
    assert Pow2(7) == 128;
    Pow2Monotone(n, 7);
  }

  lemma RegisterWordBits(n: nat)
    requires n < NUM_OF_REGISTERS
    ensures RegisterWord(n) == BinOf(Pow2(n))
  {
    BinOfSpec(Pow2(n));
    forall i | 0 <= i < WORD_SIZE
      ensures RegisterWord(n)[i] == BinOf(Pow2(n))[i]
    {
      RegisterBit(n, WORD_SIZE - 1 - i);
    }
  }

  lemma RegisterBit(n: nat, k: nat)
    requires n < NUM_OF_REGISTERS && k < WORD_SIZE
    ensures Bit(Unsigned(Pow2(n)), k) <==> k == n
  {
    RegisterPow2(n);
    assert Unsigned(Pow2(n)) == Pow2(n);
    ShrPow2(n, k);
    if k < n {
      Pow2Even(n - k);
    }
  }

  lemma {:induction false} Pow2Even(k: nat)
    requires k > 0
    ensures Pow2(k) % 2 == 0
  {
    var h := Pow2(k - 1);
    assert Pow2(k) == h + h;
  }

  lemma {:induction false} Pow2Monotone(a: nat, b: nat)
    requires a <= b
    ensures Pow2(a) <= Pow2(b)
  {
    if a < b {
      Pow2Monotone(a, b - 1);
    }
  }

  /**
   * The operand words constructArg builds: an immediate operand is the
   * twelve-bit encoding of its scalar with the tag unchanged; a register operand
   * is the encoding of 2^n; a direct operand is its text tagged R; a relative
   * operand is its text, '%' first, with the tag unchanged.
   */
  lemma ArgWordMeaning(node: Word, arg: string, m: AddrMethod)
    requires |arg| > 0
    requires m == ImdRegister ==> 0 <= Atoi(arg[1..]) < NUM_OF_REGISTERS
    ensures var w := ArgWord(node, arg, m);
      w.ic == node.ic && w.l == node.l
      && (m == Immediate ==> |w.code| == WORD_SIZE && IsBinary(w.code)
                             && BinValue(w.code) == Atoi(arg[1..]) % 4096 && w.are == node.are)
      && (m == ImdRegister ==> BinValue(w.code) == Pow2(Atoi(arg[1..])) && w.are == node.are)
      && (m == Direct ==> w.are == R && w.code == SymbolText(arg))
      && (m == Relative ==> w.are == node.are && w.code == SymbolText(arg)
                            && (arg[0] == '%' ==> w.code[0] == '%'))
  {
    if m == Immediate {
      BinOfSpec(Atoi(arg[1..]));
    } else if m == ImdRegister {
      RegisterWordIsPowerOfTwo(Atoi(arg[1..]));
    }
  }
}
