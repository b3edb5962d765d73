// What the first pass promises about the state it carries from line to line and
// about the images it hands over: consecutive addresses in both images, labels
// that point into them, the words of a command line, and the rebase.

module FirstScanProps {
  import opened Generals
  import opened CText
  import opened Numbering
  import opened Tables
  import opened InputHandlers
  import opened Commands
  import opened SecondScan
  import opened FirstScan

  // ---------------------------------------------------------------------------
  // The invariant of the line loop

  /** The instruction image holds consecutive addresses from the loading address up to IC. */
  predicate CodeImage(inst: seq<Word>, ic: nat)
  {
    ic == CODE_LOADING_ADDRESS + |inst| && forall j :: 0 <= j < |inst| ==> inst[j].ic == CODE_LOADING_ADDRESS + j
  }

  /** The data image holds consecutive addresses from 0 up to DC. */
  predicate DataImage(data: seq<Word>, dc: nat)
  {
    dc == |data| && forall j :: 0 <= j < |data| ==> data[j].ic == j
  }

  /**
   * A symbol of the first pass: stored under its own name, not yet an entry,
   * with no usages; at most one of code, data and external; an external one at
   * address 0, a code label inside the instruction image built so far and a data
   * label inside the data image.
   */
  predicate SymbolFits(s: Symbol, k: string, ic: nat, dc: nat)
  {
    s.name == k && !s.isEntry && s.usage == [] && !(s.isCode && s.isData)
    && (s.isExternal ==> !s.isCode && !s.isData && s.value == 0)
    && (s.isCode ==> CODE_LOADING_ADDRESS <= s.value <= ic)
    && (s.isData ==> 0 <= s.value <= dc)
  }

  predicate SymbolsFit(symbols: map<string, Symbol>, ic: nat, dc: nat)
  {
    forall k :: k in symbols ==> SymbolFits(symbols[k], k, ic, dc)
  }

  /** The invariant first_scan keeps from line to line. */
  predicate WellFormed(st: Pass)
  {
    CodeImage(st.inst, st.ic) && DataImage(st.data, st.dc) && SymbolsFit(st.symbols, st.ic, st.dc)
  }

  lemma StartWellFormed()
    ensures WellFormed(Start())
  {
  }

  /** Symbols that fit the images keep fitting when the images grow. */
  lemma FitsGrow(symbols: map<string, Symbol>, ic: nat, dc: nat, ic': nat, dc': nat)
    requires SymbolsFit(symbols, ic, dc) && ic <= ic' && dc <= dc'
    ensures SymbolsFit(symbols, ic', dc')
  {
  }

  /** Words at consecutive addresses from IC extend the instruction image. */
  lemma {:induction false} CodeAppend(inst: seq<Word>, ic: nat, words: seq<Word>)
    requires CodeImage(inst, ic)
    requires forall j :: 0 <= j < |words| ==> words[j].ic == ic + j
    ensures CodeImage(inst + words, ic + |words|)
  {
    forall j | 0 <= j < |inst + words|
      ensures (inst + words)[j].ic == CODE_LOADING_ADDRESS + j
    {
      if j >= |inst| {
        assert (inst + words)[j] == words[j - |inst|];
      }
    }
  }

  /** Words at consecutive addresses from DC extend the data image. */
  lemma {:induction false} DataAppend(data: seq<Word>, dc: nat, words: seq<Word>)
    requires DataImage(data, dc)
    requires forall j :: 0 <= j < |words| ==> words[j].ic == dc + j
    ensures DataImage(data + words, dc + |words|)
  {
    forall j | 0 <= j < |data + words|
      ensures (data + words)[j].ic == j
    {
      if j >= |data| {
        assert (data + words)[j] == words[j - |data|];
      }
    }
  }

  /** A failed line keeps the invariant: it only sets the error flag. */
  lemma FailWellFormed(st: Pass)
    requires WellFormed(st)
    ensures WellFormed(Fail(st))
  {
  }

  // ---------------------------------------------------------------------------
  // .string

  /**
   * encode_string's words: one per character, holding its code at DC + j, then
   * the terminating 0 at DC + the length; all absolute.
   */
  lemma StringWordsShape(body: string, dc: nat)
    ensures var ws := StringWords(body, dc);
      |ws| == |body| + 1
      && (forall j :: 0 <= j < |body| ==> ws[j] == Word(BinOf(body[j] as int), dc + j, 0, A))
      && ws[|body|] == Word(BinOf(0), dc + |body|, 0, A)
  {
    forall j | 0 <= j < |body|
      ensures StringWords(body, dc)[j] == Word(BinOf(body[j] as int), dc + j, 0, A)
    {
      CharWordsAt(body, dc, j);
    }
  }

  lemma StringWellFormed(st: Pass, line: string, tok: string, cur: int)
    requires WellFormed(st) && (tok != [] ==> 0 <= cur <= |line|)
    ensures WellFormed(StringTail(st, line, tok, cur))
  {
    if tok != [] {
      var body := StringBody(tok);
      StringWordsShape(body, st.dc);
      DataAppend(st.data, st.dc, StringWords(body, st.dc));
    }
  }

  // ---------------------------------------------------------------------------
  // .data

  /** longer is shorter followed by absolute words whose L field is 0. */
  predicate Extends(shorter: seq<Word>, longer: seq<Word>)
  {
    |shorter| <= |longer| && longer[..|shorter|] == shorter
    && forall j :: |shorter| <= j < |longer| ==> longer[j].are == A && longer[j].l == 0
  }

  lemma ExtendsTrans(a: seq<Word>, b: seq<Word>, c: seq<Word>)
    requires Extends(a, b) && Extends(b, c)
    ensures Extends(a, c)
  {
    assert c[..|a|] == c[..|b|][..|a|];
    forall j | |a| <= j < |b|
      ensures c[j] == b[j]
    {
      assert c[..|b|][j] == c[j];
    }
  }

  lemma OneScalar(data: seq<Word>, dc: nat, w: Word)
    requires DataImage(data, dc) && w.ic == dc && w.are == A && w.l == 0
    ensures DataImage(data + [w], dc + 1) && Extends(data, data + [w])
  {
    DataAppend(data, dc, [w]);
    assert (data + [w])[..|data|] == data;
  }

  /** The scalar loop appends absolute words with L 0 at consecutive DC addresses, and keeps what was there. */
  lemma {:induction false} ScanScalarsAppends(data: seq<Word>, dc: nat, line: string, pos: int, tok: string)
    requires 0 <= pos <= |line| && DataImage(data, dc)
    ensures var r := ScanScalars(data, dc, line, pos, tok);
      DataImage(r.data, r.dc) && Extends(data, r.data)
    decreases |line| - pos + (if tok == [] then 0 else 1)
  {
    if tok != [] && ValidScalar(tok) {
      var w := Word(BinOf(Atoi(tok)), dc, 0, A);
      var data' := data + [w];
      var tok' := Token(line[pos..], ",");
      var pos' := pos + TokenRead(line[pos..], ",") + 1;
      ScanScalarsNext(data, dc, line, pos, tok, data', dc + 1, pos', tok');
      OneScalar(data, dc, w);
      ScanScalarsAppends(data', dc + 1, line, pos', tok');
      ExtendsTrans(data, data', ScanScalars(data', dc + 1, line, pos', tok').data);
    } else {
      assert data[..|data|] == data;
    }
  }

  lemma DataWellFormed(st: Pass, line: string, cur: int, tok: string)
    requires WellFormed(st) && 0 <= cur <= |line|
    ensures WellFormed(DataList(st, line, cur, tok))
  {
    if tok != [] {
      ScanScalarsAppends(st.data, st.dc, line, cur, tok);
    }
  }

  // ---------------------------------------------------------------------------
  // Labels and .extern

  /** A label just created by create_new_symbol: all flags false, address 0. */
  predicate FreshLabel(st: Pass, newLabel: Option<string>)
  {
    newLabel.Some? ==> newLabel.value in st.symbols && st.symbols[newLabel.value] == NewSymbol(newLabel.value)
  }

  /**
   * The label of a line gets the address the statement starts at: the IC for a
   * command, the DC for a data directive; no other symbol changes.
   */
  lemma LabelValue(st: Pass, name: string, code: bool)
    requires name in st.symbols
    ensures var s := MarkLabel(st, Some(name), code).symbols[name];
      (code ==> s.isCode && s.value == st.ic) && (!code ==> s.isData && s.value == st.dc)
    ensures forall k :: k in st.symbols && k != name ==> MarkLabel(st, Some(name), code).symbols[k] == st.symbols[k]
  {
  }

  lemma MarkWellFormed(st: Pass, newLabel: Option<string>, code: bool)
    requires WellFormed(st) && FreshLabel(st, newLabel)
    ensures WellFormed(MarkLabel(st, newLabel, code))
  {
  }

  lemma ExternWellFormed(st: Pass, line: string, name: string, cur: int, commands: map<string, Command>)
    requires WellFormed(st) && (name != [] ==> 0 <= cur <= |line|)
    ensures WellFormed(ExternTail(st, line, name, cur, commands))
  {
  }

  // ---------------------------------------------------------------------------
  // Command lines

  /** The word built for an operand keeps the address and L field of its node. */
  lemma ArgWordKeeps(node: Word, arg: string, m: AddrMethod)
    requires |arg| > 0
    requires m == ImdRegister ==> 0 <= Atoi(arg[1..]) < NUM_OF_REGISTERS
    ensures ArgWord(node, arg, m).ic == node.ic && ArgWord(node, arg, m).l == node.l
  {
  }
  /** Every command of the table takes at most two operands. */
  predicate AtMostTwoOperands(commands: map<string, Command>)
  {
    forall k :: k in commands ==> commands[k].numOfArgs <= 2
  }

  /**
   * The first word of a command at IC: it carries the word count of the command
   * in L, is absolute and holds the opcode and the funct, a source field 0 when
   * there are fewer than two operands and a destination field 0 when there are none.
   */
  predicate HeadWord(w: Word, ic: nat, cmd: Command)
  {
    w.ic == ic && w.l == 1 + cmd.numOfArgs && w.are == A && |w.code| == WORD_SIZE
    && BinValue(w.code[..4]) == cmd.opcode % 16 && BinValue(w.code[4..8]) == cmd.funct % 16
    && (cmd.numOfArgs < 2 ==> BinValue(w.code[8..10]) == 0)
    && (cmd.numOfArgs == 0 ==> BinValue(w.code[10..]) == 0)
  }

  /**
   * The words of a command line at IC: one more than the operand count, at
   * consecutive addresses, the first a HeadWord and each operand word carrying
   * the line number in L.
   */
  predicate CommandShape(ws: seq<Word>, ic: nat, cmd: Command, lineNo: nat)
  {
    |ws| == 1 + cmd.numOfArgs && HeadWord(ws[0], ic, cmd)
    && (forall j :: 1 <= j < |ws| ==> ws[j].ic == ic + j && ws[j].l == lineNo)
  }

  lemma HeadWordOf(ic: nat, cmd: Command, src: int, dst: int)
    requires (cmd.numOfArgs < 2 ==> src == 0) && (cmd.numOfArgs == 0 ==> dst == 0)
    ensures HeadWord(Word(CommandWord(cmd.opcode, cmd.funct, src, dst), ic, 1 + cmd.numOfArgs, A), ic, cmd)
  {
    var c := CommandWord(cmd.opcode, cmd.funct, src, dst);
    CommandWordFields(cmd.opcode, cmd.funct, src, dst);
    assert cmd.numOfArgs < 2 ==> BinValue(c[8..10]) == 0;
    assert cmd.numOfArgs == 0 ==> BinValue(c[10..]) == 0;
  }

  lemma UnaryShape(ic: nat, cmd: Command, lineNo: nat, commands: map<string, Command>, a1: string, p1: int)
    requires cmd.numOfArgs == 1
    ensures var r := UnaryOperands(ic, cmd, lineNo, commands, a1, p1);
      r.Some? ==> CommandShape(r.value.0, ic, cmd, lineNo)
  {
    var m1 := GetAddressingMethod(a1);
    if a1 != [] && Allows(cmd.validDst, m1) && ValidArg(a1, m1, commands) {
      HeadWordOf(ic, cmd, 0, m1.Index());
      ArgWordKeeps(Word([], ic + 1, lineNo, A), a1, m1);
    }
  }

  lemma BinaryShape(ic: nat, cmd: Command, lineNo: nat, commands: map<string, Command>, a1: string, a2: string, p2: int)
    requires cmd.numOfArgs == 2
    ensures var r := BinaryOperands(ic, cmd, lineNo, commands, a1, a2, p2);
      r.Some? ==> CommandShape(r.value.0, ic, cmd, lineNo)
  {
    var m1 := GetAddressingMethod(a1);
    var m2 := GetAddressingMethod(a2);
    if a1 != [] && a2 != [] && Allows(cmd.validSrc, m1) && Allows(cmd.validDst, m2)
       && ValidArg(a1, m1, commands) && ValidArg(a2, m2, commands) {
      HeadWordOf(ic, cmd, m1.Index(), m2.Index());
      ArgWordKeeps(Word([], ic + 1, lineNo, A), a1, m1);
      ArgWordKeeps(Word([], ic + 2, lineNo, A), a2, m2);
    }
  }

  /** Whatever the operands, a command line that encodes yields the words CommandShape describes. */
  lemma OperandsShape(ic: nat, line: string, pos: int, cmd: Command, lineNo: nat, commands: map<string, Command>)
    requires 1 <= pos <= |line| && cmd.numOfArgs <= 2
    ensures var r := Operands(ic, line, pos, cmd, lineNo, commands);
      r.Some? ==> CommandShape(r.value.0, ic, cmd, lineNo)
  {
    var rest := line[pos..];
    if cmd.numOfArgs == 0 {
      HeadWordOf(ic, cmd, 0, 0);
    } else if cmd.numOfArgs == 1 {
      var a1, p1 := Token(rest, " "), pos + TokenRead(rest, " ");
      UnaryStep(ic, line, pos, cmd, lineNo, commands, a1, p1);
      UnaryShape(ic, cmd, lineNo, commands, a1, p1);
    } else {
      var a1, p1 := Token(rest, ","), pos + TokenRead(rest, ",");
      TokenBound(line, pos, ",");
      BinaryStep(ic, line, pos, cmd, lineNo, commands, a1, p1);
      if !(At(line, p1) != ',' && SpaceBetweenWords(a1)) {
        var rest2 := line[p1 + 1..];
        BinaryShape(ic, cmd, lineNo, commands, a1, Token(rest2, BLANK), p1 + 1 + TokenRead(rest2, BLANK));
      }
    }
  }

  /**
   * A command line whose mnemonic is known either fails, appending nothing and
   * leaving IC alone, or appends exactly 1 + the operand count words at IC and
   * advances IC past them without raising the error flag.
   */
  lemma CommandLineWords(st: Pass, line: string, pos: int, tok: string, newLabel: Option<string>,
                         lineNo: nat, commands: map<string, Command>)
    requires 1 <= pos <= |line| && (newLabel.Some? ==> newLabel.value in st.symbols)
    requires tok in commands && commands[tok].numOfArgs <= 2
    ensures var r := AfterCommand(st, line, pos, tok, newLabel, lineNo, commands);
      var n := commands[tok].numOfArgs;
      (r.errors && r.ic == st.ic && r.inst == st.inst)
      || (r.errors == st.errors && r.ic == st.ic + 1 + n && |r.inst| == |st.inst| + 1 + n
          && r.inst[..|st.inst|] == st.inst && CommandShape(r.inst[|st.inst|..], st.ic, commands[tok], lineNo))
  {
    var ops := Operands(st.ic, line, pos, commands[tok], lineNo, commands);
    OperandsShape(st.ic, line, pos, commands[tok], lineNo, commands);
    if ops.Some? {
      var st1 := MarkLabel(st, newLabel, true);
      var r := AfterCommand(st, line, pos, tok, newLabel, lineNo, commands);
      if !ExtraText(line, ops.value.1) {
        assert r.inst == st.inst + ops.value.0;
        assert r.inst[..|st.inst|] == st.inst;
        assert r.inst[|st.inst|..] == ops.value.0;
      }
    }
  }

  lemma ShapeAddresses(ws: seq<Word>, ic: nat, cmd: Command, lineNo: nat)
    requires CommandShape(ws, ic, cmd, lineNo)
    ensures forall j :: 0 <= j < |ws| ==> ws[j].ic == ic + j
  {
  }

  /** Appending words at consecutive addresses from IC keeps the invariant. */
  lemma CommandEndWellFormed(st: Pass, line: string, ops: Option<(seq<Word>, int)>)
    requires WellFormed(st)
    requires ops.Some? ==> 0 <= ops.value.1 <= |line|
    requires ops.Some? ==> forall j :: 0 <= j < |ops.value.0| ==> ops.value.0[j].ic == st.ic + j
    ensures WellFormed(CommandEnd(st, line, ops))
  {
    if ops.Some? {
      CodeAppend(st.inst, st.ic, ops.value.0);
      FitsGrow(st.symbols, st.ic, st.dc, st.ic + |ops.value.0|, st.dc);
    }
  }

  lemma CommandWellFormed(st: Pass, line: string, pos: int, tok: string, newLabel: Option<string>,
                          lineNo: nat, commands: map<string, Command>)
    requires 1 <= pos <= |line| && WellFormed(st) && FreshLabel(st, newLabel) && AtMostTwoOperands(commands)
    ensures WellFormed(AfterCommand(st, line, pos, tok, newLabel, lineNo, commands))
  {
    if tok in commands {
      MarkWellFormed(st, newLabel, true);
      var ops := Operands(st.ic, line, pos, commands[tok], lineNo, commands);
      OperandsBound(st.ic, line, pos, commands[tok], lineNo, commands);
      OperandsShape(st.ic, line, pos, commands[tok], lineNo, commands);
      if ops.Some? {
        ShapeAddresses(ops.value.0, st.ic, commands[tok], lineNo);
      }
      CommandEndWellFormed(MarkLabel(st, newLabel, true), line, ops);
    }
  }

  // ---------------------------------------------------------------------------
  // Lines

  lemma StatementWellFormed(st: Pass, line: string, pos: int, tok: string, newLabel: Option<string>,
                            lineNo: nat, commands: map<string, Command>)
    requires 1 <= pos <= |line| && WellFormed(st) && FreshLabel(st, newLabel) && AtMostTwoOperands(commands)
    ensures WellFormed(AfterStatement(st, line, pos, tok, newLabel, lineNo, commands))
  {
    var kind := IsDataStoreInst(tok);
    if kind == STRING_INST {
      var st1 := MarkLabel(st, newLabel, false);
      MarkWellFormed(st, newLabel, false);
      var t, cur := Token(line[pos..], "\""), pos + TokenRead(line[pos..], "\"") + 1;
      StringStep(st1, line, pos, t, cur);
      StringWellFormed(st1, line, t, cur);
    } else if kind == DATA_INST {
      var st1 := MarkLabel(st, newLabel, false);
      MarkWellFormed(st, newLabel, false);
      var t, cur := Token(line[pos..], ","), pos + TokenRead(line[pos..], ",") + 1;
      DataStep(st1, line, pos, t, cur);
      DataWellFormed(st1, line, cur, t);
    } else if tok == ".extern" {
      var name, cur := Token(line[pos..], " "), pos + TokenRead(line[pos..], " ") + 1;
      ExternStep(st, line, pos, name, cur, commands);
      ExternWellFormed(st, line, name, cur, commands);
    } else if tok != ".entry" {
      CommandWellFormed(st, line, pos, tok, newLabel, lineNo, commands);
    }
  }

  lemma LabelWellFormed(st: Pass, line: string, pos: int, newLabel: string, lineNo: nat,
                        commands: map<string, Command>)
    requires 1 <= pos <= |line| && WellFormed(st) && AtMostTwoOperands(commands)
    ensures WellFormed(AfterLabel(st, line, pos, newLabel, lineNo, commands))
  {
    if IsSpace(At(line, pos)) && ValidSymbol(newLabel, commands) && !BlankOrComment(line[pos..])
       && newLabel !in st.symbols {
      var st1 := st.(symbols := st.symbols[newLabel := NewSymbol(newLabel)]);
      assert WellFormed(st1);
      var tok, next := Token(line[pos..], " "), AfterNextToken(line, pos);
      LabelledStep(st1, line, pos, newLabel, lineNo, commands, tok, next);
      StatementWellFormed(st1, line, next, tok, Some(newLabel), lineNo, commands);
    }
  }

  /** A non-blank line, from its first token: the statement alone or a label and its statement. */
  lemma FirstTokenWellFormed(st: Pass, line: string, tok: string, p: int, lineNo: nat,
                             commands: map<string, Command>)
    requires 0 <= p < |line| && WellFormed(st) && AtMostTwoOperands(commands)
    ensures WellFormed(AfterFirstToken(st, line, tok, p, lineNo, commands))
  {
    if line[p] != ':' {
      StatementWellFormed(st, line, p + 1, tok, None, lineNo, commands);
    } else {
      LabelWellFormed(st, line, p + 1, tok, lineNo, commands);
    }
  }

  /** One line keeps the invariant. */
  lemma LineWellFormed(st: Pass, line: string, lineNo: nat, commands: map<string, Command>)
    requires WellFormed(st) && AtMostTwoOperands(commands)
    ensures WellFormed(AfterLine(st, line, lineNo, commands))
  {
    if !BlankOrComment(line) {
      var tok, read := Token(line, " :"), TokenRead(line, " :");
      LineStep(st, line, lineNo, commands, tok, read);
      FirstTokenWellFormed(st, line, tok, read, lineNo, commands);
    }
  }

  /**
   * The line loop keeps the invariant: after any prefix of the source both
   * images hold consecutive addresses up to IC and DC, and every symbol fits them.
   */
  lemma {:induction false} LinesWellFormed(st: Pass, lines: seq<string>, commands: map<string, Command>)
    requires WellFormed(st) && AtMostTwoOperands(commands)
    ensures WellFormed(AfterLines(st, lines, commands))
  {
    if lines != [] {
      LinesWellFormed(st, lines[..|lines| - 1], commands);
      LineWellFormed(AfterLines(st, lines[..|lines| - 1], commands), lines[|lines| - 1], |lines|, commands);
    }
  }
  // ---------------------------------------------------------------------------
  // Labels and external names

  /**
   * The symbols a statement leaves: a data directive or a command only marks its
   * label, `.entry` changes nothing in this pass, and `.extern` may install its name.
   */
  lemma StatementSymbols(st: Pass, line: string, pos: int, tok: string, newLabel: Option<string>,
                         lineNo: nat, commands: map<string, Command>)
    requires 1 <= pos <= |line| && (newLabel.Some? ==> newLabel.value in st.symbols)
    ensures var r := AfterStatement(st, line, pos, tok, newLabel, lineNo, commands);
      (IsDataStoreInst(tok) != 0 ==> r.symbols == MarkLabel(st, newLabel, false).symbols)
      && (tok == ".entry" ==> r.symbols == st.symbols)
      && (IsDataStoreInst(tok) == 0 && tok != ".entry" && tok != ".extern" ==>
            r.symbols == if tok in commands then MarkLabel(st, newLabel, true).symbols else st.symbols)
      && (tok == ".extern" ==>
            var name := Token(line[pos..], " ");
            r.symbols == st.symbols || (name !in st.symbols && r.symbols == st.symbols[name := ExternSymbol(name)]))
  {
    var kind := IsDataStoreInst(tok);
    if kind == STRING_INST {
      var t, cur := Token(line[pos..], "\""), pos + TokenRead(line[pos..], "\"") + 1;
      StringStep(MarkLabel(st, newLabel, false), line, pos, t, cur);
      StringSymbols(MarkLabel(st, newLabel, false), line, t, cur);
    } else if kind == DATA_INST {
      var t, cur := Token(line[pos..], ","), pos + TokenRead(line[pos..], ",") + 1;
      DataStep(MarkLabel(st, newLabel, false), line, pos, t, cur);
      DataSymbols(MarkLabel(st, newLabel, false), line, cur, t);
    } else if tok == ".extern" {
      var name, cur := Token(line[pos..], " "), pos + TokenRead(line[pos..], " ") + 1;
      ExternStep(st, line, pos, name, cur, commands);
    } else if tok != ".entry" {
      CommandSymbols(st, line, pos, tok, newLabel, lineNo, commands);
    }
  }

  lemma StringSymbols(st: Pass, line: string, tok: string, cur: int)
    requires tok != [] ==> 0 <= cur <= |line|
    ensures StringTail(st, line, tok, cur).symbols == st.symbols
  {
  }

  lemma DataSymbols(st: Pass, line: string, cur: int, tok: string)
    requires 0 <= cur <= |line|
    ensures DataList(st, line, cur, tok).symbols == st.symbols
  {
  }

  lemma CommandSymbols(st: Pass, line: string, pos: int, tok: string, newLabel: Option<string>,
                       lineNo: nat, commands: map<string, Command>)
    requires 1 <= pos <= |line| && (newLabel.Some? ==> newLabel.value in st.symbols)
    ensures AfterCommand(st, line, pos, tok, newLabel, lineNo, commands).symbols
            == if tok in commands then MarkLabel(st, newLabel, true).symbols else st.symbols
  {
    if tok in commands {
      OperandsBound(st.ic, line, pos, commands[tok], lineNo, commands);
    }
  }

  /**
   * A labelled statement gives its label the address it starts at: the IC of
   * the command word for a command, the DC of the first data word for `.data`
   * and `.string`, whatever the rest of the line turns out to be.
   */
  lemma StatementLabel(st: Pass, line: string, pos: int, tok: string, name: string, lineNo: nat,
                       commands: map<string, Command>)
    requires 1 <= pos <= |line| && name in st.symbols
    ensures var r := AfterStatement(st, line, pos, tok, Some(name), lineNo, commands);
      name in r.symbols
      && (IsDataStoreInst(tok) != 0 ==> r.symbols[name].isData && r.symbols[name].value == st.dc)
      && (IsDataStoreInst(tok) == 0 && tok != ".entry" && tok != ".extern" && tok in commands
          ==> r.symbols[name].isCode && r.symbols[name].value == st.ic)
  {
    StatementSymbols(st, line, pos, tok, Some(name), lineNo, commands);
    LabelValue(st, name, IsDataStoreInst(tok) == 0);
  }

  /** Every symbol already in the table other than the label of the line is left as it was. */
  predicate KeepsOthers(before: map<string, Symbol>, after: map<string, Symbol>, except: Option<string>)
  {
    forall k :: k in before && except != Some(k) ==> k in after && after[k] == before[k]
  }

  lemma StatementKeeps(st: Pass, line: string, pos: int, tok: string, newLabel: Option<string>,
                       lineNo: nat, commands: map<string, Command>)
    requires 1 <= pos <= |line| && (newLabel.Some? ==> newLabel.value in st.symbols)
    ensures KeepsOthers(st.symbols, AfterStatement(st, line, pos, tok, newLabel, lineNo, commands).symbols, newLabel)
  {
    StatementSymbols(st, line, pos, tok, newLabel, lineNo, commands);
    if newLabel.Some? {
      LabelValue(st, newLabel.value, true);
      LabelValue(st, newLabel.value, false);
    }
  }

  lemma LabelKeeps(st: Pass, line: string, pos: int, newLabel: string, lineNo: nat,
                   commands: map<string, Command>)
    requires 1 <= pos <= |line|
    ensures KeepsOthers(st.symbols, AfterLabel(st, line, pos, newLabel, lineNo, commands).symbols, None)
  {
    if IsSpace(At(line, pos)) && ValidSymbol(newLabel, commands) && !BlankOrComment(line[pos..])
       && newLabel !in st.symbols {
      var st1 := st.(symbols := st.symbols[newLabel := NewSymbol(newLabel)]);
      var tok, next := Token(line[pos..], " "), AfterNextToken(line, pos);
      LabelledStep(st1, line, pos, newLabel, lineNo, commands, tok, next);
      StatementKeeps(st1, line, next, tok, Some(newLabel), lineNo, commands);
    }
  }

  lemma FirstTokenKeeps(st: Pass, line: string, tok: string, p: int, lineNo: nat,
                        commands: map<string, Command>)
    requires 0 <= p < |line|
    ensures KeepsOthers(st.symbols, AfterFirstToken(st, line, tok, p, lineNo, commands).symbols, None)
  {
    if line[p] != ':' {
      StatementKeeps(st, line, p + 1, tok, None, lineNo, commands);
    } else {
      LabelKeeps(st, line, p + 1, tok, lineNo, commands);
    }
  }

  /**
   * No line changes a symbol that was defined before it: a label or an
   * external name met again is an error and leaves the first definition alone.
   */
  lemma LineKeepsSymbols(st: Pass, line: string, lineNo: nat, commands: map<string, Command>)
    ensures KeepsOthers(st.symbols, AfterLine(st, line, lineNo, commands).symbols, None)
  {
    if !BlankOrComment(line) {
      var tok, read := Token(line, " :"), TokenRead(line, " :");
      LineStep(st, line, lineNo, commands, tok, read);
      FirstTokenKeeps(st, line, tok, read, lineNo, commands);
    }
  }

  /** A line whose label is already in the table is an error that changes nothing else. */
  lemma RedefinedLabel(st: Pass, line: string, lineNo: nat, commands: map<string, Command>)
    requires !BlankOrComment(line) && line[TokenRead(line, " :")] == ':' && Token(line, " :") in st.symbols
    ensures AfterLine(st, line, lineNo, commands) == Fail(st)
  {
    LineStep(st, line, lineNo, commands, Token(line, " :"), TokenRead(line, " :"));
  }

  /**
   * A `.extern` directive: a name that is illegal or already in the table is an
   * error and leaves the table alone; otherwise the name is installed as an
   * external symbol and nothing else changes but the error flag.
   */
  lemma ExternOutcome(st: Pass, line: string, pos: int, commands: map<string, Command>)
    requires 0 <= pos <= |line|
    ensures var r := AfterExtern(st, line, pos, commands);
      var name := Token(line[pos..], " ");
      r.inst == st.inst && r.data == st.data && r.ic == st.ic && r.dc == st.dc
      && (!ValidSymbol(name, commands) || name in st.symbols ==> r == Fail(st))
      && (ValidSymbol(name, commands) && name !in st.symbols ==>
            r.symbols == st.symbols[name := ExternSymbol(name)] && r.symbols[name].isExternal)
  {
    var name, cur := Token(line[pos..], " "), pos + TokenRead(line[pos..], " ") + 1;
    ExternStep(st, line, pos, name, cur, commands);
  }

  // ---------------------------------------------------------------------------
  // After the last line

  /**
   * The rebase: each data word moves to ICF plus its place in the data image,
   * and keeps its contents; each data symbol moves by ICF into the rebased data
   * image, and every other symbol keeps its value.
   */
  lemma RebaseFacts(st: Pass)
    requires WellFormed(st)
    ensures var data := Rebased(st.data, st.ic);
      forall j :: 0 <= j < |data| ==> data[j] == st.data[j].(ic := st.ic + j)
    ensures var s := BumpedAll(st.symbols, st.ic);
      s.Keys == st.symbols.Keys
      && (forall k :: k in s && s[k].isData ==>
            st.ic <= s[k].value <= st.ic + st.dc && s[k].value == st.symbols[k].value + st.ic)
      && (forall k :: k in s && !s[k].isData ==> s[k] == st.symbols[k])
  {
  }

  /**
   * Symbols laid out in memory: code labels inside the code, which ends at ICF,
   * data labels inside the data image placed right after it, external names at 0.
   */
  predicate LaidOut(symbols: map<string, Symbol>, icf: nat, dcf: nat)
  {
    forall k :: k in symbols ==>
      var s := symbols[k];
      (s.isCode ==> CODE_LOADING_ADDRESS <= s.value <= icf)
      && (s.isData ==> icf <= s.value <= icf + dcf)
      && (s.isExternal ==> !s.isCode && !s.isData && s.value == 0)
  }

  /** What a pass without errors hands over: its images and symbols as they are laid out in memory. */
  predicate Loaded(o: Outcome)
  {
    var icf := CODE_LOADING_ADDRESS + |o.code|;
    (forall j :: 0 <= j < |o.code| ==> o.code[j].ic == CODE_LOADING_ADDRESS + j)
    && (forall j :: 0 <= j < |o.data| ==> o.data[j].ic == icf + j)
    && LaidOut(o.symbols, icf, |o.data|)
  }

  lemma BumpedLaidOut(st: Pass)
    requires WellFormed(st)
    ensures LaidOut(BumpedAll(st.symbols, st.ic), st.ic, st.dc)
  {
    RebaseFacts(st);
  }

  /** Marking entries and recording usages touch neither addresses nor kinds. */
  lemma SecondPassLaidOut(bumped: map<string, Symbol>, lines: seq<string>, code: seq<Word>, icf: nat, dcf: nat)
    requires forall i :: 0 <= i < |lines| ==> |lines[i]| > 0
    requires LaidOut(bumped, icf, dcf)
    ensures LaidOut(Resolve(AfterEntries(bumped, lines).0, code).symbols, icf, dcf)
  {
    var marked := AfterEntries(bumped, lines).0;
    EntriesOnlyMarkEntries(bumped, lines);
    ResolveTable(marked, code);
    var s := Resolve(marked, code).symbols;
    forall k | k in s
      ensures s[k].value == bumped[k].value && s[k].isCode == bumped[k].isCode
      ensures s[k].isData == bumped[k].isData && s[k].isExternal == bumped[k].isExternal
    {
      assert s[k] == marked[k].(usage := s[k].usage);
      assert marked[k] == bumped[k].(isEntry := marked[k].isEntry);
    }
  }

  /** The code image keeps its addresses through the resolution walk. */
  lemma ResolvedAddresses(symbols: map<string, Symbol>, code: seq<Word>)
    requires forall j :: 0 <= j < |code| ==> code[j].ic == CODE_LOADING_ADDRESS + j
    ensures var r := Resolve(symbols, code).code;
      |r| == |code| && forall j :: 0 <= j < |r| ==> r[j].ic == CODE_LOADING_ADDRESS + j
  {
    ResolveWords(symbols, code);
  }

  /**
   * An assembly without errors yields code words at consecutive addresses from
   * the loading address, the data image right after them, code labels inside
   * the code and data labels inside the data.
   */
  lemma AssembleLoaded(lines: seq<string>, commands: map<string, Command>)
    requires forall i :: 0 <= i < |lines| ==> |lines[i]| > 0
    requires AtMostTwoOperands(commands)
    ensures var o := Assemble(lines, commands);
      !o.errors ==> Loaded(o)
  {
    var st := AfterLines(Start(), lines, commands);
    StartWellFormed();
    LinesWellFormed(Start(), lines, commands);
    if !st.errors {
      RebaseFacts(st);
      BumpedLaidOut(st);
      var bumped := BumpedAll(st.symbols, st.ic);
      SecondPassLaidOut(bumped, lines, st.inst, st.ic, st.dc);
      ResolvedAddresses(AfterEntries(bumped, lines).0, st.inst);
    }
  }
  // ---------------------------------------------------------------------------
  // Concrete lines

  /** A character that ends no first token: neither whitespace nor ':'. */
  lemma NotFirstTokenDelim(c: char)
    requires !IsSpace(c) && c != ':'
    ensures !InDelims(c, " :")
  {
    assert !InDelims(c, ":"[1..]);
    assert !InDelims(c, ":");
    assert " :"[0] == ' ' && " :"[1..] == ":";
  }

  /**
   * get_token tests the first character of its input against the delimiters,
   * so a `.string` directive whose cursor stands on the opening quote reads an
   * empty string and is rejected.
   */
  lemma QuoteAtCursor(st: Pass, line: string, pos: int)
    requires 0 <= pos < |line| && line[pos] == '"'
    ensures AfterString(st, line, pos) == Fail(st)
  {
    PlainToken(line[pos..], "\"", 0);
    StringStep(st, line, pos, [], pos + 1);
  }

  /**
   * That is the case of every `.string` line without a label written with one
   * blank before the quote: the cursor after the directive token stands on the quote.
   */
  lemma UnlabelledString(st: Pass, line: string, lineNo: nat, commands: map<string, Command>)
    requires |line| > 8 && line[..9] == ".string \""
    ensures AfterLine(st, line, lineNo, commands) == Fail(st)
  {
    assert line[0] == '.' && line[7] == ' ' && line[8] == '"';
    SkipSpacesIs(line, 0, 0);
    forall j | 0 <= j < 7
      ensures !InDelims(line[j], " :")
    {
      assert line[j] == ".string"[j];
      NotFirstTokenDelim(line[j]);
    }
    PlainToken(line, " :", 7);
    assert line[..7] == ".string";
    LineStep(st, line, lineNo, commands, ".string", 7);
    QuoteAtCursor(st, line, 8);
  }

  /**
   * A `.data` list ending in a comma followed by blanks only is not an error:
   * the empty token after the comma ends the list as if the comma were not there.
   */
  lemma TrailingComma(st: Pass, line: string, cur: int, tok: string)
    requires 0 < cur <= |line| && line[cur - 1] == ','
    requires forall j :: cur <= j < |line| ==> IsSpace(line[j])
    requires tok != [] && ValidScalar(tok) && !st.illegalScalar
    ensures DataList(st, line, cur, tok) == st.(data := st.data + [Word(BinOf(Atoi(tok)), st.dc, 0, A)], dc := st.dc + 1)
  {
    var rest := line[cur..];
    var next := cur + TokenRead(rest, ",") + 1;
    if rest != [] {
      BlankToken(rest, ",");
    }
    ScanScalarsStep(st.data, st.dc, line, cur, tok);
    assert next == |line|;
    SkipSpacesIs(line, |line|, |line|);
  }

  /**
   * An operand such as `1x` is taken as a direct reference, passes the operand
   * check, since it is no reserved word, and is stored as it is; as its text
   * starts with '1' the second pass takes it for a word already in binary and
   * leaves it.
   */
  lemma DigitLedOperand(node: Word, symbols: map<string, Symbol>)
    ensures GetAddressingMethod("1x") == Direct
    ensures ValidArg("1x", Direct, CommandMap())
    ensures var w := ArgWord(node, "1x", Direct);
      w.code == "1x" && !Unresolved(w) && ResolveWord(symbols, w).0 == w
  {
    assert !IsRegister("1x");
    assert "1x" !in CommandMap();
    assert SymbolText("1x") == "1x";
  }
}

