// Constants, enumerations and records shared by every part of the assembler
// (generals.h, and the Command record of commands.h).

module Generals {

  /** A symbol name may hold at most this many characters (generals.h:13). */
  const MAX_SYMBOL_LENGTH := 32

  /** Values returned by the data-storing directive classifier (generals.h:19-20). */
  const DATA_INST := 1
  const STRING_INST := 2

  /** Field widths of the first word of an instruction (generals.h:23-26). */
  const OPCODE_LENGTH := 4
  const FUNCT_LENGTH := 4
  const SRC_ADDR_METHOD_LENGTH := 2
  const DST_ADDR_METHOD_LENGTH := 2

  /** Every machine word is twelve bits wide (generals.h:29). */
  const WORD_SIZE := 12

  /** Four binary digits make one hexadecimal digit (generals.h:32). */
  const BIN_TO_HEX_CURRENCY := 4

  /** The instruction image is loaded at this address (generals.h:35). */
  const CODE_LOADING_ADDRESS := 100

  /** Registers r0 .. r7 (generals.h:38). */
  const NUM_OF_REGISTERS := 8

  /** The four operand addressing methods, in the order of their enumeration values. */
  datatype AddrMethod = Immediate | Direct | Relative | ImdRegister
  {
    /** The value the enumeration gives the method; masks are indexed by it. */
    function Index(): (i: nat)
      ensures i < 4
    {
      match this
      case Immediate => 0
      case Direct => 1
      case Relative => 2
      case ImdRegister => 3
    }
  }

  /** The A/R/E tag of a word: absolute, relocatable or external. */
  datatype Are = A | R | E

  /**
   * One node of the instruction or data image: the word's text (twelve '0'/'1'
   * characters once encoded, an operand's name while unresolved), its address,
   * its L field (the word count of a command word, the line number of an operand
   * word) and its A/R/E tag.
   */
  datatype Word = Word(code: string, ic: nat, l: nat, are: Are)

  /**
   * A symbol of the program: its address and its four flags. `usage` lists the
   * addresses of the words that refer to an external symbol, oldest first.
   */
  datatype Symbol = Symbol(name: string, value: int, isCode: bool, isData: bool,
                           isEntry: bool, isExternal: bool, usage: seq<nat>)

  /**
   * An entry of the command table: mnemonic, operation code, funct, number of
   * operands and the legality masks of the source and destination operands
   * (character i of a mask is '1' iff the addressing method with index i is allowed).
   */
  datatype Command = Command(name: string, opcode: nat, funct: nat, numOfArgs: nat,
                             validSrc: string, validDst: string)
}
