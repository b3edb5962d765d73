// The first pass (firstScan.c): one walk over the source lines that builds the
// instruction image, the data image and the symbol table, then the rebase of
// the data after the code and the hand-over to the second pass.
//
// The pass is specified line by line on the value `Pass` (the loop variables of
// first_scan and the table's contents); the class `Assembler` holds the same
// state in fields and a symbol table object and is proved to follow it.

module FirstScan {
  import opened Generals
  import opened CText
  import opened Numbering
  import opened Tables
  import opened InputHandlers
  import opened Commands
  import opened SecondScan

  // ---------------------------------------------------------------------------
  // The state of the pass

  /**
   * The variables first_scan carries from line to line: the instruction and
   * data counters, the sticky error flag and the sticky illegal-scalar flag, the
   * two images and the symbol table.
   */
  datatype Pass = Pass(ic: nat, dc: nat, errors: bool, illegalScalar: bool,
                       inst: seq<Word>, data: seq<Word>, symbols: map<string, Symbol>)

  /** The state before the first line: IC at the code loading address, DC at 0, nothing recorded. */
  function Start(): (st: Pass)
    ensures st.ic == CODE_LOADING_ADDRESS && st.dc == 0 && !st.errors
    ensures st.inst == [] && st.data == [] && st.symbols == map[]
  {
    Pass(CODE_LOADING_ADDRESS, 0, false, false, [], [], map[])
  }

  /** Marking an error and skipping the rest of the line: whatever was done before stays. */
  function Fail(st: Pass): Pass
  {
    st.(errors := true)
  }

  /** create_new_symbol: the name, all four flags false; the address and usages start out empty. */
  function NewSymbol(name: string): (s: Symbol)
    ensures s.name == name && !s.isCode && !s.isData && !s.isEntry && !s.isExternal
  {
    Symbol(name, 0, false, false, false, false, [])
  }

  /** The symbol a `.extern` line installs: external, address 0, no usages yet. */
  function ExternSymbol(name: string): (s: Symbol)
    ensures s.name == name && s.isExternal && s.value == 0 && s.usage == []
    ensures !s.isCode && !s.isData && !s.isEntry
  {
    NewSymbol(name).(isExternal := true)
  }

  /**
   * The label declared on the line, if any, gets its address: the IC of the
   * command word on a command line, the DC of the first data word on a data line.
   */
  function MarkLabel(st: Pass, newLabel: Option<string>, code: bool): (r: Pass)
    requires newLabel.Some? ==> newLabel.value in st.symbols
    ensures r.symbols.Keys == st.symbols.Keys
    ensures r == st.(symbols := r.symbols)
  {
    match newLabel
    case None => st
    case Some(name) =>
      var s := st.symbols[name];
      var s' := if code then s.(isCode := true, value := st.ic) else s.(isData := true, value := st.dc);
      st.(symbols := st.symbols[name := s'])
  }

  // ---------------------------------------------------------------------------
  // .string

  /** The characters encode_string encodes: the token without its opening quote. */
  function StringBody(s: string): string
  {
    if |s| > 0 && s[0] == '"' then s[1..] else s
  }

  /** The data words of a string at DC dc: one per character, then the terminating 0. */
  function StringWords(body: string, dc: nat): seq<Word>
  {
    CharWords(body, dc) + [Word(BinOf(0), dc + |body|, 0, A)]
  }

  /** The words encode_string builds for the characters of body, from DC dc on. */
  function CharWords(body: string, dc: nat): (ws: seq<Word>)
    ensures |ws| == |body|
  {
    if body == [] then []
    else CharWords(body[..|body| - 1], dc) + [Word(BinOf(body[|body| - 1] as int), dc + |body| - 1, 0, A)]
  }

  /** Word j of CharWords holds character j of the body as a number, at DC dc + j. */
  lemma {:induction false} CharWordsAt(body: string, dc: nat, j: nat)
    requires j < |body|
    ensures CharWords(body, dc)[j] == Word(BinOf(body[j] as int), dc + j, 0, A)
  {
    if j < |body| - 1 {
      CharWordsAt(body[..|body| - 1], dc, j);
    }
  }

  /** A `.string` directive whose operand text starts at pos. */
  function AfterString(st: Pass, line: string, pos: int): Pass
    requires 0 <= pos <= |line|
  {
    var rest := line[pos..];
    StringTail(st, line, Token(rest, "\""), pos + TokenRead(rest, "\"") + 1)
  }

  /** The rest of a `.string` directive, for the token tok read up to the cursor cur. */
  function StringTail(st: Pass, line: string, tok: string, cur: int): Pass
    requires tok != [] ==> 0 <= cur <= |line|
  {
    if tok == [] then Fail(st)
    else
      var body := StringBody(tok);
      var st' := st.(data := st.data + StringWords(body, st.dc), dc := st.dc + |body| + 1);
      if ExtraText(line, cur) then Fail(st') else st'
  }

  /** The `.string` directive, for the token and cursor get_token gave. */
  lemma StringStep(st: Pass, line: string, pos: int, tok: string, cur: int)
    requires 0 <= pos <= |line|
    requires tok == Token(line[pos..], "\"") && cur == pos + TokenRead(line[pos..], "\"") + 1
    ensures tok != [] ==> 0 <= cur <= |line|
    ensures AfterString(st, line, pos) == StringTail(st, line, tok, cur)
  {
  }

  // ---------------------------------------------------------------------------
  // .data

  /** Where the scalar loop of `.data` ends: the data image, the DC, whether an illegal scalar stopped it, the cursor. */
  datatype ScalarScan = ScalarScan(data: seq<Word>, dc: nat, illegal: bool, end: int)

  /**
   * The scalar loop of `.data`: tok is the scalar just read and pos the cursor
   * after it. Each legal scalar becomes an A word at DC; the first illegal one
   * ends the list.
   */
  function ScanScalars(data: seq<Word>, dc: nat, line: string, pos: int, tok: string): (r: ScalarScan)
    requires 0 <= pos <= |line|
    ensures pos <= r.end <= |line|
    decreases |line| - pos + (if tok == [] then 0 else 1)
  {
    if tok == [] then ScalarScan(data, dc, false, pos)
    else if !ValidScalar(tok) then ScalarScan(data, dc, true, pos)
    else
      var rest := line[pos..];
      ScanScalars(data + [Word(BinOf(Atoi(tok)), dc, 0, A)], dc + 1, line,
                  pos + TokenRead(rest, ",") + 1, Token(rest, ","))
  }

  /** One legal scalar: its word is appended and the scan goes on with the next token. */
  lemma ScanScalarsStep(data: seq<Word>, dc: nat, line: string, pos: int, tok: string)
    requires 0 <= pos <= |line| && tok != [] && ValidScalar(tok)
    ensures ScanScalars(data, dc, line, pos, tok)
      == ScanScalars(data + [Word(BinOf(Atoi(tok)), dc, 0, A)], dc + 1,
                     line, pos + TokenRead(line[pos..], ",") + 1, Token(line[pos..], ","))
  {
  }

  /** The cursor after a token and its delimiter stays on the line, and moves whenever a token was read. */
  lemma TokenAdvances(line: string, pos: int, delims: string)
    requires 0 <= pos <= |line|
    ensures 0 <= pos + TokenRead(line[pos..], delims) + 1 <= |line|
    ensures Token(line[pos..], delims) != [] ==> TokenRead(line[pos..], delims) >= 0
  {
  }

  lemma ScanScalarsNext(data: seq<Word>, dc: nat, line: string, pos: int, tok: string,
                        data': seq<Word>, dc': nat, pos': int, tok': string)
    requires 0 <= pos <= |line| && tok != [] && ValidScalar(tok)
    requires data' == data + [Word(BinOf(Atoi(tok)), dc, 0, A)] && dc' == dc + 1
    requires tok' == Token(line[pos..], ",") && pos' == pos + TokenRead(line[pos..], ",") + 1
    ensures 0 <= pos' <= |line|
    ensures tok' != [] ==> pos < pos'
    ensures ScanScalars(data', dc', line, pos', tok') == ScanScalars(data, dc, line, pos, tok)
  {
    ScanScalarsStep(data, dc, line, pos, tok);
    TokenAdvances(line, pos, ",");
  }

  /**
   * One turn of the scalar loop after a legal scalar: its word is appended at
   * DC and the next token is read after the comma.
   */
  method NextScalar(words: seq<Word>, next: nat, line: string, cur: int, token: string)
    returns (words': seq<Word>, next': nat, cur': int, token': string)
    requires 0 <= cur <= |line| && token != [] && ValidScalar(token)
    ensures 0 <= cur' <= |line|
    ensures token' != [] ==> cur < cur'
    ensures ScanScalars(words', next', line, cur', token') == ScanScalars(words, next, line, cur, token)
  {
    var code := DecimalToBin(Atoi(token));
    var rest := line[cur..];
    var read;
    token', read := GetToken(rest, ",");
    words' := words + [Word(code, next, 0, A)];
    next' := next + 1;
    cur' := cur + read + 1;
    ScanScalarsNext(words, next, line, cur, token, words', next', cur', token');
  }

  /**
   * The rest of a `.data` directive once its first token tok has been read and
   * the cursor cur stands after the comma. An illegal scalar raises both error
   * flags; the extra-text check is skipped once any illegal scalar has been
   * met, on this line or an earlier one.
   */
  function DataList(st: Pass, line: string, cur: int, tok: string): Pass
    requires 0 <= cur <= |line|
  {
    if tok == [] then Fail(st)
    else
      var r := ScanScalars(st.data, st.dc, line, cur, tok);
      var st' := st.(data := r.data, dc := r.dc, errors := st.errors || r.illegal,
                     illegalScalar := st.illegalScalar || r.illegal);
      if !st'.illegalScalar && ExtraText(line, r.end) then Fail(st') else st'
  }

  /** A `.data` directive whose operand text starts at pos: an empty list is an error. */
  function AfterData(st: Pass, line: string, pos: int): Pass
    requires 0 <= pos <= |line|
  {
    var rest := line[pos..];
    DataList(st, line, pos + TokenRead(rest, ",") + 1, Token(rest, ","))
  }

  /** The rest of a `.data` directive, for the first token and count get_token gave. */
  lemma DataStep(st: Pass, line: string, pos: int, tok: string, cur: int)
    requires 0 <= pos <= |line|
    requires tok == Token(line[pos..], ",") && cur == pos + TokenRead(line[pos..], ",") + 1
    ensures 0 <= cur <= |line|
    ensures AfterData(st, line, pos) == DataList(st, line, cur, tok)
  {
    DataCursor(line, pos, cur);
  }

  /** The cursor after the first token of `.data` stays on the line. */
  lemma DataCursor(line: string, pos: int, cur: int)
    requires 0 <= pos <= |line| && cur == pos + TokenRead(line[pos..], ",") + 1
    ensures 0 <= cur <= |line|
  {
  }

  /**
   * The scalar loop of `.data` (firstScan.c lines 232-255), on the data image
   * and DC it extends: the loop reads each next token after a comma.
   */
  method ScalarList(data: seq<Word>, dc: nat, line: string, pos: int, tok: string) returns (r: ScalarScan)
    requires 0 <= pos <= |line|
    ensures r == ScanScalars(data, dc, line, pos, tok)
  {
    ghost var target := ScanScalars(data, dc, line, pos, tok);
    var token, cur := tok, pos;
    var words, next := data, dc;
    var illegal := false;
    while token != []
      invariant 0 <= cur <= |line|
      invariant ScanScalars(words, next, line, cur, token) == target
      decreases |line| - cur + (if token == [] then 0 else 1)
    {
      var legal := LegalScalar(token);
      if !legal {
        illegal := true;
        break;
      }
      words, next, cur, token := NextScalar(words, next, line, cur, token);
    }
    r := ScalarScan(words, next, illegal, cur);
  }


  // ---------------------------------------------------------------------------
  // .extern

  /** A `.extern` directive: a legal name not yet in the table is installed as external. */
  function AfterExtern(st: Pass, line: string, pos: int, commands: map<string, Command>): Pass
    requires 0 <= pos <= |line|
  {
    var rest := line[pos..];
    ExternTail(st, line, Token(rest, " "), pos + TokenRead(rest, " ") + 1, commands)
  }

  /** The rest of a `.extern` directive, for the name read up to the cursor cur. */
  function ExternTail(st: Pass, line: string, name: string, cur: int, commands: map<string, Command>): Pass
    requires name != [] ==> 0 <= cur <= |line|
  {
    if !ValidSymbol(name, commands) || name in st.symbols then Fail(st)
    else
      var st' := st.(symbols := st.symbols[name := ExternSymbol(name)]);
      if ExtraText(line, cur) then Fail(st') else st'
  }

  /** The `.extern` directive, for the name and cursor get_token gave. */
  lemma ExternStep(st: Pass, line: string, pos: int, name: string, cur: int, commands: map<string, Command>)
    requires 0 <= pos <= |line|
    requires name == Token(line[pos..], " ") && cur == pos + TokenRead(line[pos..], " ") + 1
    ensures name != [] ==> 0 <= cur <= |line|
    ensures AfterExtern(st, line, pos, commands) == ExternTail(st, line, name, cur, commands)
  {
  }

  // ---------------------------------------------------------------------------
  // Command lines

  /**
   * The words of a one-operand command whose operand is a1, found at address
   * ic; None when the operand is missing, its addressing method is not allowed
   * as a destination or it is illegal. The operand word carries the line
   * number in its L field; p1 is the cursor after the operand.
   */
  function UnaryOperands(ic: nat, cmd: Command, lineNo: nat, commands: map<string, Command>,
                         a1: string, p1: int): Option<(seq<Word>, int)>
  {
    var m1 := GetAddressingMethod(a1);
    if a1 == [] || !Allows(cmd.validDst, m1) || !ValidArg(a1, m1, commands) then None
    else
      Some(([Word(CommandWord(cmd.opcode, cmd.funct, 0, m1.Index()), ic, 1 + cmd.numOfArgs, A),
             ArgWord(Word([], ic + 1, lineNo, A), a1, m1)], p1))
  }

  /** The same for a two-operand command with source operand a1 and destination operand a2. */
  function BinaryOperands(ic: nat, cmd: Command, lineNo: nat, commands: map<string, Command>,
                          a1: string, a2: string, p2: int): Option<(seq<Word>, int)>
  {
    var m1 := GetAddressingMethod(a1);
    var m2 := GetAddressingMethod(a2);
    if a1 == [] || a2 == [] || !Allows(cmd.validSrc, m1) || !Allows(cmd.validDst, m2)
       || !ValidArg(a1, m1, commands) || !ValidArg(a2, m2, commands) then None
    else
      Some(([Word(CommandWord(cmd.opcode, cmd.funct, m1.Index(), m2.Index()), ic, 1 + cmd.numOfArgs, A),
             ArgWord(Word([], ic + 1, lineNo, A), a1, m1),
             ArgWord(Word([], ic + 2, lineNo, A), a2, m2)], p2))
  }

  /**
   * The two-operand case once the first operand a1 has been read up to p1: when
   * no comma stands at p1 and a1 holds two words, the comma is reported
   * missing; otherwise the second operand is read after p1.
   */
  function BinaryCase(ic: nat, line: string, cmd: Command, lineNo: nat, commands: map<string, Command>,
                      a1: string, p1: int): (r: Option<(seq<Word>, int)>)
    requires 0 <= p1 < |line|
  {
    if At(line, p1) != ',' && SpaceBetweenWords(a1) then None
    else SecondCase(ic, cmd, lineNo, commands, a1, line[p1 + 1..], p1 + 1)
  }

  /** The delimiter the second operand of a two-operand command ends at. */
  const BLANK: string := " "

  /**
   * The two-operand case past the comma: the second operand is the token of
   * rest, the text after the comma, which starts at offset base of the line.
   */
  function SecondCase(ic: nat, cmd: Command, lineNo: nat, commands: map<string, Command>,
                      a1: string, rest: string, base: int): Option<(seq<Word>, int)>
  {
    BinaryOperands(ic, cmd, lineNo, commands, a1, Token(rest, BLANK), base + TokenRead(rest, BLANK))
  }

  /** SecondCase, unfolded once. */
  lemma SecondCaseIs(ic: nat, cmd: Command, lineNo: nat, commands: map<string, Command>, a1: string, rest: string, base: int)
    ensures SecondCase(ic, cmd, lineNo, commands, a1, rest, base)
      == BinaryOperands(ic, cmd, lineNo, commands, a1, Token(rest, BLANK), base + TokenRead(rest, BLANK))
  {
  }

  /**
   * The words of a command line whose operand text starts at pos, and the
   * cursor after the last operand; None on an operand error. A lone operand
   * ends at whitespace, the first of two at a comma.
   */
  function Operands(ic: nat, line: string, pos: int, cmd: Command, lineNo: nat,
                    commands: map<string, Command>): (r: Option<(seq<Word>, int)>)
    requires 1 <= pos <= |line|
  {
    var rest := line[pos..];
    if cmd.numOfArgs == 0 then
      Some(([Word(CommandWord(cmd.opcode, cmd.funct, 0, 0), ic, 1 + cmd.numOfArgs, A)], pos))
    else if cmd.numOfArgs == 1 then
      UnaryOperands(ic, cmd, lineNo, commands, Token(rest, " "), pos + TokenRead(rest, " "))
    else
      BinaryCase(ic, line, cmd, lineNo, commands, Token(rest, ","), pos + TokenRead(rest, ","))
  }

  /**
   * The end of a command line, for the operand words ops found: an operand
   * error or extra text is an error; otherwise the words are appended at IC.
   */
  function CommandEnd(st: Pass, line: string, ops: Option<(seq<Word>, int)>): Pass
    requires ops.Some? ==> 0 <= ops.value.1 <= |line|
  {
    match ops
    case None => Fail(st)
    case Some((words, cur)) =>
      if ExtraText(line, cur) then Fail(st)
      else st.(inst := st.inst + words, ic := st.ic + |words|)
  }

  /** A command line: an unknown mnemonic is an error; a known one labels, encodes and appends its words. */
  function AfterCommand(st: Pass, line: string, pos: int, tok: string, newLabel: Option<string>,
                        lineNo: nat, commands: map<string, Command>): Pass
    requires 1 <= pos <= |line|
    requires newLabel.Some? ==> newLabel.value in st.symbols
  {
    if tok !in commands then Fail(st)
    else
      OperandsBound(st.ic, line, pos, commands[tok], lineNo, commands);
      CommandEnd(MarkLabel(st, newLabel, true), line, Operands(st.ic, line, pos, commands[tok], lineNo, commands))
  }

  // ---------------------------------------------------------------------------
  // One line, and the whole source

  /** The statement of a line: tok is its statement token and pos the cursor after it. */
  function AfterStatement(st: Pass, line: string, pos: int, tok: string, newLabel: Option<string>,
                          lineNo: nat, commands: map<string, Command>): Pass
    requires 1 <= pos <= |line|
    requires newLabel.Some? ==> newLabel.value in st.symbols
  {
    var kind := IsDataStoreInst(tok);
    if kind != 0 then
      var st1 := MarkLabel(st, newLabel, false);
      if kind == STRING_INST then AfterString(st1, line, pos) else AfterData(st1, line, pos)
    else if tok == ".entry" then st
    else if tok == ".extern" then AfterExtern(st, line, pos, commands)
    else AfterCommand(st, line, pos, tok, newLabel, lineNo, commands)
  }

  /**
   * One source line. Blank and comment lines change nothing; any other line is
   * read from its first token, ended by whitespace or ':'.
   */
  function AfterLine(st: Pass, line: string, lineNo: nat, commands: map<string, Command>): Pass
  {
    if BlankOrComment(line) then st
    else
      LineStart(line);
      AfterFirstToken(st, line, Token(line, " :"), TokenRead(line, " :"), lineNo, commands)
  }

  /** A non-blank line whose first token tok stopped at offset p: a ':' there makes tok a label. */
  function AfterFirstToken(st: Pass, line: string, tok: string, p: int, lineNo: nat,
                           commands: map<string, Command>): Pass
    requires 0 <= p < |line|
  {
    if line[p] != ':' then AfterStatement(st, line, p + 1, tok, None, lineNo, commands)
    else AfterLabel(st, line, p + 1, tok, lineNo, commands)
  }

  /**
   * A label ended by the ':' before offset pos: it must be followed by
   * whitespace, be a legal symbol, not label an empty statement and not be in
   * the table yet.
   */
  function AfterLabel(st: Pass, line: string, pos: int, newLabel: string, lineNo: nat,
                      commands: map<string, Command>): Pass
    requires 1 <= pos <= |line|
  {
    if !IsSpace(At(line, pos)) then Fail(st)
    else if !ValidSymbol(newLabel, commands) || BlankOrComment(line[pos..]) || newLabel in st.symbols then Fail(st)
    else LabelledStatement(st.(symbols := st.symbols[newLabel := NewSymbol(newLabel)]), line, pos, newLabel,
                           lineNo, commands)
  }

  /** The statement after an accepted, installed label: its token is the next token. */
  function LabelledStatement(st: Pass, line: string, pos: int, newLabel: string, lineNo: nat,
                             commands: map<string, Command>): Pass
    requires 1 <= pos <= |line| && !BlankOrComment(line[pos..]) && newLabel in st.symbols
  {
    AfterStatement(st, line, AfterNextToken(line, pos), Token(line[pos..], " "), Some(newLabel), lineNo, commands)
  }

  /** The cursor just past the token get_token reads from offset pos of a line that still holds one. */
  function AfterNextToken(line: string, pos: int): (next: int)
    requires 1 <= pos <= |line| && !BlankOrComment(line[pos..])
    ensures pos <= next <= |line|
  {
    LineStart(line[pos..]);
    pos + TokenRead(line[pos..], " ")
  }

  /** The statement after a label, read from the next token and the cursor get_token leaves. */
  lemma LabelledStep(st: Pass, line: string, pos: int, newLabel: string, lineNo: nat,
                     commands: map<string, Command>, tok: string, next: int)
    requires 1 <= pos <= |line| && !BlankOrComment(line[pos..]) && newLabel in st.symbols
    requires tok == Token(line[pos..], " ") && next == AfterNextToken(line, pos)
    ensures LabelledStatement(st, line, pos, newLabel, lineNo, commands)
            == AfterStatement(st, line, next, tok, Some(newLabel), lineNo, commands)
  {
  }

  /** A line that is not blank is not empty, so get_token stops inside it. */
  lemma LineStart(line: string)
    requires !BlankOrComment(line)
    ensures 0 <= TokenRead(line, " :") < |line| && 0 <= TokenRead(line, " ") < |line|
  {
  }

  /** A non-blank line, read from the first token and count get_token gave. */
  lemma LineStep(st: Pass, line: string, lineNo: nat, commands: map<string, Command>, tok: string, read: int)
    requires !BlankOrComment(line)
    requires tok == Token(line, " :") && read == TokenRead(line, " :")
    ensures 0 <= read < |line|
    ensures AfterLine(st, line, lineNo, commands) == AfterFirstToken(st, line, tok, read, lineNo, commands)
  {
    LineStart(line);
  }

  /** The line loop over the first lines of the source; line i is numbered i + 1. */
  function AfterLines(st: Pass, lines: seq<string>, commands: map<string, Command>): Pass
  {
    if lines == [] then st
    else AfterLine(AfterLines(st, lines[..|lines| - 1], commands), lines[|lines| - 1], |lines|, commands)
  }

  // ---------------------------------------------------------------------------
  // After the last line

  /** The data image moved behind the code: each data word's address gains icf. */
  function Rebased(data: seq<Word>, icf: nat): (r: seq<Word>)
    ensures |r| == |data|
  {
    seq(|data|, j requires 0 <= j < |data| => data[j].(ic := data[j].ic + icf))
  }

  /** update_all_symbols_value on one symbol: only a data symbol's address gains toAdd. */
  function Bumped(s: Symbol, toAdd: nat): Symbol
  {
    if s.isData then s.(value := s.value + toAdd) else s
  }

  /** update_all_symbols_value on the contents of the symbol table. */
  function BumpedAll(symbols: map<string, Symbol>, toAdd: nat): map<string, Symbol>
  {
    map k | k in symbols :: Bumped(symbols[k], toAdd)
  }

  /** One chain of the symbol table after update_all_symbols_value: the same keys in the same order. */
  function BumpedChain(chain: seq<Cell<Symbol>>, toAdd: nat): (r: seq<Cell<Symbol>>)
    ensures |r| == |chain|
  {
    seq(|chain|, j requires 0 <= j < |chain| => Cell(chain[j].key, Bumped(chain[j].value, toAdd)))
  }

  /** A walk along an updated chain finds the updated value of what the walk along the old chain found. */
  lemma {:induction false} FindBumped(chain: seq<Cell<Symbol>>, toAdd: nat, k: string)
    ensures Find(BumpedChain(chain, toAdd), k)
            == match Find(chain, k) case None => None case Some(s) => Some(Bumped(s, toAdd))
  {
    if chain != [] {
      assert BumpedChain(chain, toAdd)[1..] == BumpedChain(chain[1..], toAdd);
      FindBumped(chain[1..], toAdd, k);
    }
  }

  /**
   * What first_scan leads to: the error verdict, the instruction image, the
   * data image and the symbol table handed to the output writer.
   */
  datatype Outcome = Outcome(errors: bool, code: seq<Word>, data: seq<Word>, symbols: map<string, Symbol>)

  /**
   * The whole of first_scan: the line loop; then, only if it found no error,
   * the data image and the data symbols moved behind the code (ICF is the final
   * IC) and the second pass over the same lines.
   */
  function Assemble(lines: seq<string>, commands: map<string, Command>): Outcome
    requires forall i :: 0 <= i < |lines| ==> |lines[i]| > 0
  {
    var st := AfterLines(Start(), lines, commands);
    if st.errors then Outcome(true, st.inst, st.data, st.symbols)
    else
      var (marked, entryErrors) := AfterEntries(BumpedAll(st.symbols, st.ic), lines);
      var r := Resolve(marked, st.inst);
      Outcome(entryErrors || r.errors, r.code, Rebased(st.data, st.ic), r.symbols)
  }

  // ---------------------------------------------------------------------------
  // The pass, imperatively

  /**
   * encode_string: the words of the string s at DC dc (an opening quote is not
   * part of it) and the DC after them.
   */
  method EncodeString(s: string, dc: nat) returns (words: seq<Word>, next: nat)
    ensures words == StringWords(StringBody(s), dc)
    ensures next == dc + |StringBody(s)| + 1
  {
    var start := 0;
    if |s| > 0 && s[0] == '"' {
      start := 1;
    }
    assert s[start..] == StringBody(s);
    words, next := EncodeChars(s, start, dc);
    var code := DecimalToBin(0);
    words := words + [Word(code, next, 0, A)];
    next := next + 1;
  }

  /** The character loop of encode_string, from index start of s on. */
  method EncodeChars(s: string, start: nat, dc: nat) returns (words: seq<Word>, next: nat)
    requires start <= |s|
    ensures words == CharWords(s[start..], dc)
    ensures next == dc + (|s| - start)
  {
    var i := start;
    words, next := [], dc;
    while i < |s|
      invariant start <= i <= |s|
      invariant next == dc + (i - start)
      invariant words == CharWords(s[start..i], dc)
    {
      var code := DecimalToBin(s[i] as int);
      assert s[start..i + 1][..i - start] == s[start..i];
      words := words + [Word(code, next, 0, A)];
      next := next + 1;
      i := i + 1;
    }
    assert s[start..i] == s[start..];
  }

  /** The one-operand case of Operands, for the token and count get_token gave. */
  lemma UnaryStep(ic: nat, line: string, pos: int, cmd: Command, lineNo: nat, commands: map<string, Command>,
                  a1: string, p1: int)
    requires 1 <= pos <= |line| && cmd.numOfArgs == 1
    requires a1 == Token(line[pos..], " ") && p1 == pos + TokenRead(line[pos..], " ")
    ensures Operands(ic, line, pos, cmd, lineNo, commands) == UnaryOperands(ic, cmd, lineNo, commands, a1, p1)
  {
  }

  /** The cursor Operands gives back stays on the line. */
  lemma OperandsBound(ic: nat, line: string, pos: int, cmd: Command, lineNo: nat, commands: map<string, Command>)
    requires 1 <= pos <= |line|
    ensures var r := Operands(ic, line, pos, cmd, lineNo, commands);
      r.Some? ==> 0 <= r.value.1 <= |line|
  {
  }

  /** The cursor after a token read from offset pos >= 1 stays on the line. */
  lemma TokenBound(line: string, pos: int, delims: string)
    requires 1 <= pos <= |line|
    ensures 0 <= pos + TokenRead(line[pos..], delims) < |line|
  {
  }

  /** The two-operand case of Operands, for the token and count get_token gave. */
  lemma BinaryStep(ic: nat, line: string, pos: int, cmd: Command, lineNo: nat, commands: map<string, Command>,
                   a1: string, p1: int)
    requires 1 <= pos <= |line| && cmd.numOfArgs >= 2 && 0 <= p1 < |line|
    requires a1 == Token(line[pos..], ",") && p1 == pos + TokenRead(line[pos..], ",")
    ensures Operands(ic, line, pos, cmd, lineNo, commands) == BinaryCase(ic, line, cmd, lineNo, commands, a1, p1)
  {
  }

  /** The operand checks and words of a one-operand command (firstScan.c lines 345-358, 399-426). */
  method EncodeUnary(ic: nat, cmd: Command, lineNo: nat, table: Table<Command>, arg1: string, p1: int)
    returns (r: Option<(seq<Word>, int)>)
    requires table.Valid()
    ensures r == UnaryOperands(ic, cmd, lineNo, table.Contents, arg1, p1)
  {
    var m1 := GetAddressingMethod(arg1);
    if arg1 == [] || At(cmd.validDst, m1.Index()) != '1' {
      return None;
    }
    var legal := LegalArg(arg1, m1, table);
    if !legal {
      return None;
    }
    var words := UnaryWords(ic, cmd, lineNo, arg1, m1);
    return Some((words, p1));
  }

  /** The command word and operand word of an accepted one-operand command. */
  method UnaryWords(ic: nat, cmd: Command, lineNo: nat, arg1: string, m1: AddrMethod) returns (words: seq<Word>)
    requires |arg1| > 0 && (m1 == ImdRegister ==> 0 <= Atoi(arg1[1..]) < NUM_OF_REGISTERS)
    ensures words == [Word(CommandWord(cmd.opcode, cmd.funct, 0, m1.Index()), ic, 1 + cmd.numOfArgs, A),
                      ArgWord(Word([], ic + 1, lineNo, A), arg1, m1)]
  {
    var word := EncodeCommand(cmd.opcode, cmd.funct, 0, m1.Index());
    var w1 := ConstructArg(Word([], ic + 1, lineNo, A), arg1, m1);
    words := [Word(word, ic, 1 + cmd.numOfArgs, A), w1];
  }

  /** The operand checks and words of a two-operand command (firstScan.c lines 376-388, 399-449). */
  method EncodeBinary(ic: nat, cmd: Command, lineNo: nat, table: Table<Command>, arg1: string, arg2: string, p2: int)
    returns (r: Option<(seq<Word>, int)>)
    requires table.Valid()
    ensures r == BinaryOperands(ic, cmd, lineNo, table.Contents, arg1, arg2, p2)
  {
    var m1 := GetAddressingMethod(arg1);
    var m2 := GetAddressingMethod(arg2);
    var legal := BinaryLegal(cmd, table, arg1, m1, arg2, m2);
    if !legal {
      return None;
    }
    var words := BinaryWords(ic, cmd, lineNo, arg1, m1, arg2, m2);
    return Some((words, p2));
  }

  /** The operand checks of a two-operand command: both present, allowed by the masks and legal. */
  method BinaryLegal(cmd: Command, table: Table<Command>, arg1: string, m1: AddrMethod, arg2: string, m2: AddrMethod)
    returns (legal: bool)
    requires table.Valid()
    ensures legal == (arg1 != [] && arg2 != [] && Allows(cmd.validSrc, m1) && Allows(cmd.validDst, m2)
                      && ValidArg(arg1, m1, table.Contents) && ValidArg(arg2, m2, table.Contents))
  {
    if arg1 == [] || arg2 == [] {
      return false;
    }
    if At(cmd.validSrc, m1.Index()) != '1' || At(cmd.validDst, m2.Index()) != '1' {
      return false;
    }
    var legal1 := LegalArg(arg1, m1, table);
    var legal2 := LegalArg(arg2, m2, table);
    return legal1 && legal2;
  }

  /** The command word and the two operand words of an accepted two-operand command. */
  method BinaryWords(ic: nat, cmd: Command, lineNo: nat, arg1: string, m1: AddrMethod, arg2: string, m2: AddrMethod)
    returns (words: seq<Word>)
    requires |arg1| > 0 && (m1 == ImdRegister ==> 0 <= Atoi(arg1[1..]) < NUM_OF_REGISTERS)
    requires |arg2| > 0 && (m2 == ImdRegister ==> 0 <= Atoi(arg2[1..]) < NUM_OF_REGISTERS)
    ensures words == [Word(CommandWord(cmd.opcode, cmd.funct, m1.Index(), m2.Index()), ic, 1 + cmd.numOfArgs, A),
                      ArgWord(Word([], ic + 1, lineNo, A), arg1, m1),
                      ArgWord(Word([], ic + 2, lineNo, A), arg2, m2)]
  {
    var word := EncodeCommand(cmd.opcode, cmd.funct, m1.Index(), m2.Index());
    var w1 := ConstructArg(Word([], ic + 1, lineNo, A), arg1, m1);
    var w2 := ConstructArg(Word([], ic + 2, lineNo, A), arg2, m2);
    words := [Word(word, ic, 1 + cmd.numOfArgs, A), w1, w2];
  }

  /** The operand of a one-operand command (firstScan.c lines 345-358). */
  method OneOperand(ic: nat, line: string, pos: int, cmd: Command, lineNo: nat, table: Table<Command>)
    returns (r: Option<(seq<Word>, int)>)
    requires table.Valid() && 1 <= pos <= |line| && cmd.numOfArgs == 1
    ensures r == Operands(ic, line, pos, cmd, lineNo, table.Contents)
  {
    var arg1, read := GetToken(line[pos..], " ");
    var cur := pos + read;
    UnaryStep(ic, line, pos, cmd, lineNo, table.Contents, arg1, cur);
    r := EncodeUnary(ic, cmd, lineNo, table, arg1, cur);
  }

  /**
   * The operands of a two-operand command (firstScan.c lines 360-388): the
   * first ends at a comma, and a missing comma is reported only when the first
   * operand text holds two words.
   */
  method TwoOperands(ic: nat, line: string, pos: int, cmd: Command, lineNo: nat, table: Table<Command>)
    returns (r: Option<(seq<Word>, int)>)
    requires table.Valid() && 1 <= pos <= |line| && cmd.numOfArgs >= 2
    ensures r == Operands(ic, line, pos, cmd, lineNo, table.Contents)
  {
    var arg1, read := GetToken(line[pos..], ",");
    var cur := pos + read;
    TokenBound(line, pos, ",");
    BinaryStep(ic, line, pos, cmd, lineNo, table.Contents, arg1, cur);
    r := AfterFirstOperand(ic, line, cur, cmd, lineNo, table, arg1);
  }

  /**
   * The two-operand case once the first operand arg1 has been read up to p1
   * (firstScan.c lines 364-388): the missing-comma check, then the second operand.
   */
  method AfterFirstOperand(ic: nat, line: string, p1: int, cmd: Command, lineNo: nat, table: Table<Command>, arg1: string)
    returns (r: Option<(seq<Word>, int)>)
    requires table.Valid() && 0 <= p1 < |line|
    ensures r == BinaryCase(ic, line, cmd, lineNo, table.Contents, arg1, p1)
  {
    var comma := At(line, p1) == ',';
    var spaced := IsContainingSpaceBetweenWords(arg1);
    if !comma && spaced {
      return None;
    }
    SecondCaseIs(ic, cmd, lineNo, table.Contents, arg1, line[p1 + 1..], p1 + 1);
    r := SecondOperand(ic, line[p1 + 1..], p1 + 1, cmd, lineNo, table, arg1);
  }

  /**
   * The second operand of a two-operand command (firstScan.c lines 369-388):
   * rest is the line after the comma, which starts at offset base of the line.
   */
  method SecondOperand(ic: nat, rest: string, base: int, cmd: Command, lineNo: nat, table: Table<Command>, arg1: string)
    returns (r: Option<(seq<Word>, int)>)
    requires table.Valid()
    ensures r == BinaryOperands(ic, cmd, lineNo, table.Contents, arg1, Token(rest, BLANK), base + TokenRead(rest, BLANK))
  {
    var arg2, read := GetToken(rest, BLANK);
    r := EncodeBinary(ic, cmd, lineNo, table, arg1, arg2, base + read);
  }

  /**
   * The operand part of a command line (firstScan.c lines 343-389 with the words
   * built at lines 399-449): None on an operand error; otherwise the command
   * word and the operand words from address ic, and the cursor the extra-text
   * check starts from.
   */
  method EncodeOperands(ic: nat, line: string, pos: int, cmd: Command, lineNo: nat, table: Table<Command>)
    returns (r: Option<(seq<Word>, int)>)
    requires table.Valid() && 1 <= pos <= |line|
    ensures r == Operands(ic, line, pos, cmd, lineNo, table.Contents)
  {
    if cmd.numOfArgs == 0 {
      var word := EncodeCommand(cmd.opcode, cmd.funct, 0, 0);
      r := Some(([Word(word, ic, 1 + cmd.numOfArgs, A)], pos));
    } else if cmd.numOfArgs == 1 {
      r := OneOperand(ic, line, pos, cmd, lineNo, table);
    } else {
      r := TwoOperands(ic, line, pos, cmd, lineNo, table);
    }
  }

  /** The inner loop of update_all_symbols_value: every cell of one chain, in place. */
  method BumpChain(chain: seq<Cell<Symbol>>, toAdd: nat) returns (r: seq<Cell<Symbol>>)
    ensures r == BumpedChain(chain, toAdd)
  {
    r := chain;
    var j := 0;
    while j < |r|
      invariant 0 <= j <= |r| == |chain|
      invariant forall i :: 0 <= i < j ==> r[i] == Cell(chain[i].key, Bumped(chain[i].value, toAdd))
      invariant forall i :: j <= i < |r| ==> r[i] == chain[i]
    {
      r := r[j := Cell(r[j].key, Bumped(r[j].value, toAdd))];
      j := j + 1;
    }
  }

  /** update_all_symbols_value: every data symbol of the table gains toAdd; every other symbol stays. */
  method UpdateAllSymbolsValue(table: Table<Symbol>, toAdd: nat)
    requires table.Valid()
    modifies table, table.storage
    ensures table.Valid() && table.Contents == BumpedAll(old(table.Contents), toAdd)
  {
    ghost var chains := table.storage[..];
    var i := 0;
    while i < TABLE_SIZE
      invariant 0 <= i <= TABLE_SIZE && table.storage.Length == TABLE_SIZE
      invariant forall h :: 0 <= h < i ==> table.storage[h] == BumpedChain(chains[h], toAdd)
      invariant forall h :: i <= h < TABLE_SIZE ==> table.storage[h] == chains[h]
      invariant table.Contents == old(table.Contents)
    {
      var chain := BumpChain(table.storage[i], toAdd);
      table.storage[i] := chain;
      i := i + 1;
    }
    table.Contents := BumpedAll(table.Contents, toAdd);
    forall k {:trigger Find(table.storage[Bucket(k)], k)}
      ensures Find(table.storage[Bucket(k)], k) == if k in table.Contents then Some(table.Contents[k]) else None
    {
      FindBumped(chains[Bucket(k)], toAdd, k);
    }
  }

  /** The instruction image as the array the second pass walks. */
  method ToArray(words: seq<Word>) returns (a: array<Word>)
    ensures fresh(a) && a[..] == words
  {
    a := new Word[|words|](j => if 0 <= j < |words| then words[j] else Word([], 0, 0, A));
  }

  /**
   * first_scan over the source lines (each non-empty, as fgets gives them): the
   * line loop, then, without errors, the rebase and the second pass. Reports
   * whether an error occurred, with the images and the symbol table the output
   * files are written from.
   */
  method FirstScan(lines: seq<string>, commands: Table<Command>) returns (errors: bool, code: array<Word>, asm: Assembler)
    requires commands.Valid()
    requires forall i :: 0 <= i < |lines| ==> |lines[i]| > 0
    ensures var o := Assemble(lines, commands.Contents);
      errors == o.errors && code[..] == o.code && asm.data == o.data && asm.symbols.Contents == o.symbols
  {
    asm := new Assembler();
    var i := 0;
    while i < |lines|
      invariant 0 <= i <= |lines|
      invariant fresh(asm.symbols) && fresh(asm.symbols.storage)
      invariant asm.Valid() && asm.State() == AfterLines(Start(), lines[..i], commands.Contents)
    {
      assert lines[..i + 1][..i] == lines[..i];
      asm.Line(lines[i], i + 1, commands);
      i := i + 1;
    }
    assert lines[..i] == lines;
    if asm.errors {
      errors := true;
      code := ToArray(asm.inst);
      return;
    }
    var icf := asm.ic;
    asm.RebaseData(icf);
    UpdateAllSymbolsValue(asm.symbols, icf);
    code := ToArray(asm.inst);
    errors := SecondScan.SecondScan(lines, asm.symbols, code);
  }

  /**
   * The engine of first_scan: the counters, the flags and the two images as
   * fields, and the symbol table it installs into. `State` is the Pass they
   * stand for.
   */
  class Assembler {
    var ic: nat
    var dc: nat
    var errors: bool
    var illegalScalar: bool
    var inst: seq<Word>
    var data: seq<Word>
    const symbols: Table<Symbol>

    ghost predicate Valid()
      reads symbols, symbols.storage
    {
      symbols.Valid()
    }

    ghost function State(): Pass
      reads this, symbols
    {
      Pass(ic, dc, errors, illegalScalar, inst, data, symbols.Contents)
    }

    /** The variables as first_scan initialises them, with an empty symbol table. */
    constructor ()
      ensures Valid() && State() == Start()
      ensures fresh(symbols) && fresh(symbols.storage)
    {
      ic, dc, errors, illegalScalar := CODE_LOADING_ADDRESS, 0, false, false;
      inst, data := [], [];
      symbols := new Table<Symbol>();
    }

    /** The rebase loop of first_scan: every data word's address gains icf, in place. */
    method RebaseData(icf: nat)
      requires Valid()
      modifies this
      ensures Valid() && State() == old(State()).(data := Rebased(old(data), icf))
    {
      ghost var d0 := data;
      var j := 0;
      while j < |data|
        invariant 0 <= j <= |data| == |d0|
        invariant forall i :: 0 <= i < j ==> data[i] == d0[i].(ic := d0[i].ic + icf)
        invariant forall i :: j <= i < |data| ==> data[i] == d0[i]
        invariant State() == old(State()).(data := data)
      {
        data := data[j := data[j].(ic := data[j].ic + icf)];
        j := j + 1;
      }
    }

    /** Gives the label of the line, if any, its address (through the symbol's entry in the table). */
    method Label(newLabel: Option<string>, code: bool)
      requires Valid() && (newLabel.Some? ==> newLabel.value in symbols.Contents)
      modifies symbols, symbols.storage
      ensures Valid() && State() == MarkLabel(old(State()), newLabel, code)
    {
      if newLabel.Some? {
        var s := symbols.Lookup(newLabel.value);
        var s' := if code then s.value.(isCode := true, value := ic) else s.value.(isData := true, value := dc);
        symbols.Install(newLabel.value, s');
      }
    }

    /** A `.string` directive. */
    method StringDirective(line: string, pos: int)
      requires Valid() && 0 <= pos <= |line|
      modifies this
      ensures Valid() && State() == AfterString(old(State()), line, pos)
    {
      var token, read := GetToken(line[pos..], "\"");
      var cur := pos + read + 1;
      StringStep(State(), line, pos, token, cur);
      if token == [] {
        errors := true;
        return;
      }
      var words, next := EncodeString(token, dc);
      data := data + words;
      dc := next;
      var extra := HasExtraText(line, cur);
      if extra {
        errors := true;
      }
    }

    /** A `.data` directive: its first token, then the scalar list. */
    method DataDirective(line: string, pos: int)
      requires Valid() && 0 <= pos <= |line|
      modifies this
      ensures Valid() && State() == AfterData(old(State()), line, pos)
    {
      var token, read := GetToken(line[pos..], ",");
      var cur := pos + read + 1;
      DataStep(State(), line, pos, token, cur);
      DataOperands(line, cur, token);
    }

    /** The scalar list of a `.data` directive, then the extra-text check unless an illegal scalar was ever met. */
    method DataOperands(line: string, cur: int, token: string)
      requires Valid() && 0 <= cur <= |line|
      modifies this
      ensures Valid() && State() == DataList(old(State()), line, cur, token)
    {
      if token == [] {
        errors := true;
        return;
      }
      var r := ScalarList(data, dc, line, cur, token);
      data, dc := r.data, r.dc;
      if r.illegal {
        errors, illegalScalar := true, true;
      }
      if !illegalScalar {
        var extra := HasExtraText(line, r.end);
        if extra {
          errors := true;
        }
      }
    }

    /** A `.extern` directive. */
    method ExternDirective(line: string, pos: int, commands: Table<Command>)
      requires Valid() && commands.Valid() && 0 <= pos <= |line|
      modifies this, symbols, symbols.storage
      ensures Valid() && State() == AfterExtern(old(State()), line, pos, old(commands.Contents))
    {
      var token, read := GetToken(line[pos..], " ");
      var cur := pos + read + 1;
      ExternStep(State(), line, pos, token, cur, commands.Contents);
      ghost var target := ExternTail(State(), line, token, cur, commands.Contents);
      var existing := symbols.Lookup(token);
      var legal := LegalSymbol(token, commands);
      if !legal || existing.Some? {
        errors := true;
        assert State() == target;
        return;
      }
      symbols.Install(token, ExternSymbol(token));
      var extra := HasExtraText(line, cur);
      if extra {
        errors := true;
      }
      assert State() == target;
    }

    /** A command line: find the command, label it, encode the operands, check for extra text, append. */
    method CommandLine(line: string, pos: int, token: string, newLabel: Option<string>, lineNo: nat,
                       commands: Table<Command>)
      requires Valid() && commands.Valid() && 1 <= pos <= |line|
      requires newLabel.Some? ==> newLabel.value in symbols.Contents
      modifies this, symbols, symbols.storage
      ensures Valid() && State() == AfterCommand(old(State()), line, pos, token, newLabel, lineNo, old(commands.Contents))
    {
      var c := commands.Lookup(token);
      if c.None? {
        errors := true;
        return;
      }
      Label(newLabel, true);
      var r := EncodeOperands(ic, line, pos, c.value, lineNo, commands);
      OperandsBound(ic, line, pos, c.value, lineNo, commands.Contents);
      CommandWords(line, r);
    }

    /** The end of a command line: an operand error or extra text marks an error, otherwise the words are appended. */
    method CommandWords(line: string, r: Option<(seq<Word>, int)>)
      requires Valid() && (r.Some? ==> 0 <= r.value.1 <= |line|)
      modifies this
      ensures Valid() && State() == CommandEnd(old(State()), line, r)
    {
      if r.None? {
        errors := true;
        return;
      }
      var (words, cur) := r.value;
      var extra := HasExtraText(line, cur);
      if extra {
        errors := true;
        return;
      }
      inst := inst + words;
      ic := ic + |words|;
    }

    /** The statement of a line, after its label if it has one. */
    method Statement(line: string, pos: int, token: string, newLabel: Option<string>, lineNo: nat,
                     commands: Table<Command>)
      requires Valid() && commands.Valid() && 1 <= pos <= |line|
      requires newLabel.Some? ==> newLabel.value in symbols.Contents
      modifies this, symbols, symbols.storage
      ensures Valid() && State() == AfterStatement(old(State()), line, pos, token, newLabel, lineNo, old(commands.Contents))
    {
      ghost var target := AfterStatement(State(), line, pos, token, newLabel, lineNo, commands.Contents);
      var kind := IsDataStoreInst(token);
      if kind != 0 {
        Label(newLabel, false);
        if kind == STRING_INST {
          StringDirective(line, pos);
        } else {
          DataDirective(line, pos);
        }
        assert State() == target;
        return;
      }
      if token == ".entry" {
        return;
      }
      if token == ".extern" {
        ExternDirective(line, pos, commands);
        return;
      }
      CommandLine(line, pos, token, newLabel, lineNo, commands);
    }

    /** The body of first_scan's line loop. */
    method Line(line: string, lineNo: nat, commands: Table<Command>)
      requires Valid() && commands.Valid()
      modifies this, symbols, symbols.storage
      ensures Valid() && State() == AfterLine(old(State()), line, lineNo, old(commands.Contents))
    {
      var blank := IsEmptyOrCommentLine(line);
      if blank {
        return;
      }
      var token, read := GetToken(line, " :");
      LineStep(State(), line, lineNo, commands.Contents, token, read);
      FirstToken(line, token, read, lineNo, commands);
    }

    /** A non-blank line: a first token ended by ':' is a label, otherwise it starts the statement. */
    method FirstToken(line: string, token: string, read: int, lineNo: nat, commands: Table<Command>)
      requires Valid() && commands.Valid() && 0 <= read < |line|
      modifies this, symbols, symbols.storage
      ensures Valid() && State() == AfterFirstToken(old(State()), line, token, read, lineNo, old(commands.Contents))
    {
      if line[read] != ':' {
        Statement(line, read + 1, token, None, lineNo, commands);
      } else {
        LabelledLine(line, read + 1, token, lineNo, commands);
      }
    }

    /** A line that starts with a label: the checks on the label, then its installation and statement. */
    method LabelledLine(line: string, pos: int, newLabel: string, lineNo: nat, commands: Table<Command>)
      requires Valid() && commands.Valid() && 1 <= pos <= |line|
      modifies this, symbols, symbols.storage
      ensures Valid() && State() == AfterLabel(old(State()), line, pos, newLabel, lineNo, old(commands.Contents))
    {
      if !IsSpace(At(line, pos)) {
        errors := true;
        return;
      }
      var legal := LegalSymbol(newLabel, commands);
      var empty := IsEmptyOrCommentLine(line[pos..]);
      if !legal || empty {
        errors := true;
        return;
      }
      var existing := symbols.Lookup(newLabel);
      if existing.Some? {
        errors := true;
        return;
      }
      symbols.Install(newLabel, NewSymbol(newLabel));
      var token, read := GetToken(line[pos..], " ");
      InstalledLabel(line, pos, newLabel, token, read, lineNo, commands);
    }

    /** The statement after a label that is now in the table, from the next token and count get_token gave. */
    method InstalledLabel(line: string, pos: int, newLabel: string, token: string, read: int, lineNo: nat,
                          commands: Table<Command>)
      requires Valid() && commands.Valid() && 1 <= pos <= |line| && !BlankOrComment(line[pos..])
      requires newLabel in symbols.Contents
      requires token == Token(line[pos..], " ") && read == TokenRead(line[pos..], " ")
      modifies this, symbols, symbols.storage
      ensures Valid() && State() == LabelledStatement(old(State()), line, pos, newLabel, lineNo, old(commands.Contents))
    {
      var next := pos + read;
      LabelledStep(State(), line, pos, newLabel, lineNo, commands.Contents, token, next);
      Statement(line, next, token, Some(newLabel), lineNo, commands);
    }
  }
}
