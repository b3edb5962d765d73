# A two-pass assembler for a 12-bit machine, in Dafny

This project models the core of a two-pass assembler written in C. The assembler
translates the assembly language of a small machine into object code. The
machine has:

- 12-bit words;
- sixteen instructions, with zero, one or two operands;
- four operand addressing methods: immediate `#n`, direct `label`, relative
  `%label` and register `r0`..`r7`;
- the directives `.data`, `.string`, `.entry` and `.extern`.

The model covers these parts:

- **numbering** (`numberingSystems.c`). A decimal number becomes its twelve-bit
  two's-complement digits. The first word of an instruction is built from its
  four fields. A binary string is read back as a number. A word becomes its
  three hexadecimal digits.
- **tables** (`tableTools.c`). The chained hash table of fifty buckets holds
  the command table and the symbol table. It is a class over an array of
  chains, with a ghost `Contents` map that every method keeps in step.
- **input handlers** (`inputHandlers.c`). Reading tokens, recognising blank and
  comment lines, and the legality tests for symbols, scalars, operands and
  registers.
- **commands** (`commands.c`). The table of the sixteen instructions, and the
  encoding of an operand word.
- **first pass** (`firstScan.c`). The walk over the source lines. It fills the
  instruction image, the data image and the symbol table. After the last line
  it moves the data behind the code and starts the second pass.
- **second pass** (`secondScan.c`). It marks `.entry` symbols. Then it resolves
  the operand words that still hold a name: the address of the symbol, or its
  distance for relative addressing. It records each use of an external symbol.

Each pass is specified twice:

- as a function on values: `AfterLine`, `AfterLines` and `Assemble` for the
  first pass, `AfterEntries` and `Resolve` for the second;
- as imperative methods on the hash table objects and arrays, each proved to
  follow that function.

The properties are lemmas about the functions. They cover:

- the invariant of the first pass's line loop;
- the layout in memory of a program assembled without errors;
- the table of instructions;
- the round trips of the number conversions;
- the behaviour on particular lines.

## Model

| member | source | states |
|---|---|---|
| Numbering.DecimalToBin | numberingSystems.c:16-33 | the loop produces exactly `BinOf(num)`, the twelve low bits of the number's unsigned representation, most significant first |
| Numbering.BinOfSpec | numberingSystems.c:16-33 | `BinOf(n)` has twelve characters, all '0'/'1'; character i is bit 11-i of the unsigned value; read back it gives n mod 4096 |
| Numbering.RoundTrip | numberingSystems.c:16-33 | reading back the digits of a number from 0 to 4095 gives the number itself |
| Numbering.TwosComplement | numberingSystems.c:16-33 | a negative number from -2048 on is written in two's complement: its value read back is 4096 + n, and its top digit is '1' |
| Numbering.BinOfInjective | numberingSystems.c:16-33 | two numbers get the same digits if and only if they agree modulo 4096 |
| Numbering.LowBits | numberingSystems.c:16-33 | the last 2, 4 or 12 digits of `BinOf(n)` are the low bits of n and read back as n mod 2^k |
| Numbering.BinDigitsValue | numberingSystems.c:23-27 | the w digits the division loop emits, plus 2^w times what it leaves over, give back the number |
| Numbering.BinDigitsAt | numberingSystems.c:23-27 | digit i of a w-digit expansion is bit w-1-i of the number |
| Numbering.BinDigitsSplit | numberingSystems.c:23-27 | a j+k digit expansion is the j-digit expansion of the shifted number followed by the k-digit expansion of the number |
| Numbering.EncodeCommand | numberingSystems.c:42-76 | the first word of an instruction is opcode, funct, source method and destination method in fields of 4, 4, 2 and 2 bits |
| Numbering.CommandWordLayout | numberingSystems.c:42-76 | the first word is twelve binary digits; its four fields read back as opcode mod 16, funct mod 16, source mod 4 and destination mod 4; its value is 256·opcode + 16·funct + 4·src + dst, each field reduced |
| Numbering.CommandWordFields | numberingSystems.c:42-76 | each of the four fields of the first word reads back as its input, reduced to the field's width |
| Numbering.CommandWordBinary | numberingSystems.c:42-76 | the first word holds only '0' and '1' |
| Numbering.FieldsValue | numberingSystems.c:42-76 | a twelve-digit word's value is the weighted sum of its 4/4/2/2 fields |
| Numbering.BinToHex | numberingSystems.c:88-112 | one hexadecimal digit per group of four binary digits; digit i is the hex digit of group i's value |
| Numbering.HexMatchesBinary | numberingSystems.c:88-112 | the hexadecimal text has the same value as the binary text it was made from |
| Numbering.WordHex | numberingSystems.c:88-112 | a twelve-digit word becomes three hexadecimal digits with the same value |
| Numbering.BinToDecimal | numberingSystems.c:122-133 | the loop returns the value of the digits read as an unsigned binary number |
| Numbering.BinValueBound | numberingSystems.c:122-133 | the value of k binary digits is below 2^k |
| Numbering.BinValueAppend | numberingSystems.c:122-133 | the value of a concatenation is the first part shifted by the length of the second, plus the second |
| Numbering.DecimalToHex | numberingSystems.c:142-150 | 0..15 map to '0'..'9','A'..'F', and the digit reads back as the number; anything else gives '0' |
| Tables.Hash | tableTools.c:21-29 | the bucket of a key is below the table size and is the one the specification function assigns |
| Tables.Position | tableTools.c:38-49 | the walk stops at the first cell holding the key, or at the end of the chain; the cell found is what a lookup by key finds |
| Tables.FindCons | tableTools.c:62-71 | a new cell put at the head of a chain shadows the same key further down, and hides nothing else |
| Tables.FindReplace | tableTools.c:72-74 | overwriting the value of the first cell with a key changes only that key's lookup |
| Tables.Table.constructor | tableTools.c:21-81 | a new table is well formed and empty |
| Tables.Table.Get | tableTools.c:38-49 | a lookup finds a value exactly when the key is in the table, and the value is the key's |
| Tables.Table.Lookup | tableTools.c:38-49 | the same, computed by walking the key's chain |
| Tables.Table.Install | tableTools.c:58-81 | the table afterwards maps the key to the new value and keeps every other pair; a new key goes to the head of its bucket; an old key keeps the length of its bucket; no other bucket changes |
| InputHandlers.Token | inputHandlers.c:39-63 | the token of an empty text is empty, and no token starts with whitespace |
| InputHandlers.TokenChars | inputHandlers.c:39-63 | no character after the first of a token is a delimiter, and none at all when the text does not start with whitespace |
| InputHandlers.TokenRead | inputHandlers.c:39-63 | the count is -1 exactly for an empty text and otherwise points into the text; when the token ends at a delimiter, the count points at that delimiter |
| InputHandlers.GetToken | inputHandlers.c:39-63 | the loop copies the token and returns the count that `Token` and `TokenRead` specify |
| InputHandlers.PlainToken | inputHandlers.c:39-63 | a text that starts with a non-blank gives the characters up to the first delimiter, and the count points at the delimiter or at the last character |
| InputHandlers.IndentedToken | inputHandlers.c:39-63 | leading whitespace is skipped; the first non-blank character is taken even if it is a delimiter |
| InputHandlers.BlankToken | inputHandlers.c:39-63 | a text of only whitespace gives an empty token and a count at its last character |
| InputHandlers.IsEmptyOrCommentLine | inputHandlers.c:16-29 | a line is skipped exactly when its first non-blank character is ';' or it has none |
| InputHandlers.HasExtraText | firstScan.c:54-63 | text remains after the cursor exactly when some character from the cursor on is not whitespace |
| InputHandlers.IsCharInDelims | inputHandlers.c:72-86 | a character is a delimiter exactly when it is whitespace (for a blank in the set) or appears in the set |
| InputHandlers.LegalSymbol | inputHandlers.c:96-119 | a symbol is legal exactly when it is 1 to 32 characters long, starts with a letter, holds only letters and digits, and is not a reserved word (a mnemonic, `entry`, `extern`, `data`, `string` or a register name) |
| InputHandlers.IsDataStoreInst | inputHandlers.c:127-141 | `.string` and `.data` are told apart; any other token gives 0; each way holds in both directions |
| InputHandlers.GetAddressingMethod | inputHandlers.c:150-162 | '#' means immediate, '%' relative, a register name register, anything else direct; each way holds in both directions |
| InputHandlers.LegalScalar | inputHandlers.c:172-201 | the loop decides exactly the scalar grammar of the code |
| InputHandlers.ScalarWithLeadingSpace | inputHandlers.c:172-201 | a scalar that starts with whitespace is accepted exactly when it is all whitespace |
| InputHandlers.ScalarWithoutLeadingSpace | inputHandlers.c:172-201 | any other scalar is accepted exactly when something follows an optional sign, and the first non-digit after it starts a run of trailing whitespace |
| InputHandlers.DigitsThenSpacesFrom | inputHandlers.c:183-199 | after the digits, only whitespace may follow |
| InputHandlers.SpacesFromIs | inputHandlers.c:183-199 | the recursive trailing-whitespace test means every character from the index on is whitespace |
| InputHandlers.LegalArg | inputHandlers.c:210-234 | an operand is legal exactly as its method demands: after '#' a legal scalar; for a register a number 0 to 7 after the 'r'; otherwise any text, with one leading '%' dropped, that is not a reserved word (so `a$b`, `1x` and a lone `%` pass) |
| InputHandlers.IsKeyWord | inputHandlers.c:295-311 | a word is reserved exactly when it is a mnemonic in the command table, one of `entry`, `extern`, `data` and `string`, or a register name |
| InputHandlers.IsContainingSpaceBetweenWords | inputHandlers.c:273-286 | the loop reports exactly the texts where a whitespace run is followed by a non-blank |
| Commands.FillTable | commands.c:13-181 | the table afterwards holds the sixteen instructions under their mnemonics, with the other contents kept |
| Commands.InstallsMakeCommandMap | commands.c:52-178 | the sixteen installs in order give the command map |
| Commands.CommandTableShape | commands.c:52-178 | every instruction is stored under its own mnemonic, with opcode and funct below 16 |
| Commands.CommandTableMasks | commands.c:52-178 | every legality mask has four binary digits |
| Commands.CommandTableArity | commands.c:52-178 | the five instructions of two operands and the two of none are exactly the ones with that count; no instruction has more than two; an absent operand allows no method |
| Commands.RelativeOnlyForJumps | commands.c:52-178 | relative addressing is allowed exactly for the destination of jmp, bne and jsr, never for a source; lea's source can only be direct |
| Commands.CommandWordDecodes | commands.c:52-178 | the opcode and funct fields of any instruction's first word name that instruction back |
| Commands.SymbolText | commands.c:219-237 | the text stored for a symbol operand is the operand up to its first whitespace |
| Commands.SymbolTextIs | commands.c:219-237 | the stored text ends at the first whitespace of the operand |
| Commands.ConstructArg | commands.c:192-238 | the loop builds the operand word `ArgWord` specifies and keeps its address and line number |
| Commands.ArgWordMeaning | commands.c:192-238 | an immediate operand is twelve binary digits worth its number mod 4096; a register operand is worth 2 to the register's number; a direct one keeps its name and is tagged R; a relative one keeps '%' and its name |
| Commands.RegisterWordIsPowerOfTwo | commands.c:199-213 | the register word has exactly the register's bit set, and reads back as 2^n |
| SecondScan.StatementOf | secondScan.c:58-65 | the statement token and the cursor after it; the cursor stays within the line |
| SecondScan.StatementToken | secondScan.c:58-65 | the method reads the statement token and its cursor as `StatementOf` specifies |
| SecondScan.EntryOperand | secondScan.c:71-93 | the method marks the named symbol as an entry, or reports a missing or external name, as `MarkEntry` specifies |
| SecondScan.EntryLine | secondScan.c:56-94 | one line of the first loop acts on the table as `AfterEntryLine` specifies |
| SecondScan.EntryLineOnlyMarks | secondScan.c:56-94 | one line keeps the table's keys, changes at most isEntry flags, and sets none on an external symbol |
| SecondScan.EntriesOnlyMarkEntries | secondScan.c:56-94 | the whole first loop keeps the table's keys, changes at most isEntry flags, and sets none on an external symbol |
| SecondScan.EntryOfUnknownOrExternal | secondScan.c:71-93 | `.entry` of an unknown or external name is an error and changes nothing |
| SecondScan.MarkEntries | secondScan.c:56-94 | the loop over the lines leaves the table and the error flag that `AfterEntries` specifies |
| SecondScan.ResolveWord | secondScan.c:97-174 | a word keeps its address and line number; an encoded word is left alone; only usage lists change in the table; an error changes nothing |
| SecondScan.ResolveWordIgnoresUsage | secondScan.c:97-174 | resolving a word does not depend on the usage lists recorded so far |
| SecondScan.ResolveTable | secondScan.c:97-174 | the walk keeps the image's length and changes only usage lists |
| SecondScan.ResolveWords | secondScan.c:97-174 | word j of the resolved image is word j resolved on its own |
| SecondScan.ResolveErrors | secondScan.c:97-174 | the walk reports an error exactly when some word fails to resolve |
| SecondScan.ResolveWordUsage | secondScan.c:155-166 | a word adds its own address to a symbol's usage list exactly when it refers directly to that external symbol |
| SecondScan.ResolveUsages | secondScan.c:155-166 | after the walk, a symbol's usage list is its old list plus the addresses of the direct references to it, in image order, when it is external |
| SecondScan.AddUsage | secondScan.c:188-203 | the symbol's usage list gains the address at its end, and nothing else changes |
| SecondScan.ResolveNode | secondScan.c:97-174 | one step of the walk on the table object does what `ResolveWord` specifies |
| SecondScan.ResolveAll | secondScan.c:97-174 | the walk over the array leaves the image, the table and the error flag that `Resolve` specifies |
| SecondScan.SecondScan | secondScan.c:40-180 | the second pass: mark entries over all lines, then resolve the image; errors from either loop count |
| FirstScan.Start | firstScan.c:105-106 | the pass starts with IC at the loading address 100, DC at 0, and nothing recorded |
| FirstScan.NewSymbol | firstScan.c:565-581 | a new symbol carries its name with all four flags false |
| FirstScan.ExternSymbol | firstScan.c:279-321 | an external symbol has address 0, no usages and no other flag |
| FirstScan.MarkLabel | firstScan.c:199-203 | labelling changes only the symbol table and keeps its keys |
| FirstScanProps.LabelValue | firstScan.c:336-340 | a label on a command line takes the IC and is marked code; one on a data line takes the DC and is marked data; no other symbol changes |
| FirstScan.CharWordsAt | firstScan.c:515-556 | word j of an encoded string holds character j's code, at DC dc + j, tagged A |
| FirstScan.EncodeString | firstScan.c:515-556 | the string becomes the words `StringWords` specifies, and DC advances by its length plus one |
| FirstScan.EncodeChars | firstScan.c:515-556 | the loop encodes the characters from start on, one word each |
| FirstScanProps.StringWordsShape | firstScan.c:515-556 | a string gives one word per character, each holding the character's code at its own DC, then a terminating 0 |
| FirstScan.ScanScalars | firstScan.c:223-266 | the scalar loop ends inside the line |
| FirstScan.NextScalar | firstScan.c:247-256 | one iteration advances the cursor and leaves the rest of the scan unchanged |
| FirstScan.ScalarList | firstScan.c:223-266 | the loop over the scalars leaves the data, DC, cursor and flags that `ScanScalars` specifies |
| FirstScanProps.ScanScalarsAppends | firstScan.c:223-266 | the scalar loop only appends to the data image, at consecutive DCs |
| FirstScanProps.TrailingComma | firstScan.c:257-260 | a last scalar followed by a comma and only whitespace is stored and is not an error |
| FirstScanProps.ExternOutcome | firstScan.c:279-321 | `.extern` changes no image; an illegal name or a name already in the table is an error; otherwise the name is installed as external |
| FirstScan.UnaryWords | firstScan.c:343-358 | a one-operand command gives its first word (destination method, L = 2) and its operand word carrying the line number |
| FirstScan.EncodeUnary | firstScan.c:343-358 | the method checks and encodes one operand as `UnaryOperands` specifies |
| FirstScan.BinaryLegal | firstScan.c:376-385 | two operands are accepted exactly when both are present, their methods are allowed as source and destination, and both are legal |
| FirstScan.BinaryWords | firstScan.c:360-387 | a two-operand command gives its first word (both methods, L = 3) and the two operand words carrying the line number |
| FirstScan.EncodeBinary | firstScan.c:360-387 | the method checks and encodes two operands as `BinaryOperands` specifies |
| FirstScan.OneOperand | firstScan.c:345-358 | the one-operand branch does what `Operands` specifies |
| FirstScan.TwoOperands | firstScan.c:359-387 | the two-operand branch does what `Operands` specifies |
| FirstScan.AfterFirstOperand | firstScan.c:365-375 | a missing comma is an error only when the first operand holds two words; otherwise the second operand is read after the comma position |
| FirstScan.SecondOperand | firstScan.c:372-387 | the second operand is read up to whitespace and checked with the first |
| FirstScan.EncodeOperands | firstScan.c:343-389 | the operand branches together do what `Operands` specifies |
| FirstScan.OperandsBound | firstScan.c:343-389 | the cursor after the operands stays inside the line |
| FirstScanProps.UnaryShape | firstScan.c:343-358 | accepted operands of a one-operand command have the shape of a command: first word at IC, one word per operand at the following addresses |
| FirstScanProps.BinaryShape | firstScan.c:360-387 | the same for a two-operand command |
| FirstScanProps.OperandsShape | firstScan.c:343-389 | any accepted command line has that shape |
| FirstScanProps.CommandLineWords | firstScan.c:330-449 | a known command either fails without touching the image and IC, or appends exactly 1 + n words at IC, which has the command's shape, and advances IC by 1 + n |
| FirstScanProps.ShapeAddresses | firstScan.c:399-449 | the words of a command take consecutive addresses from IC |
| FirstScanProps.StartWellFormed | firstScan.c:105-106 | the starting state satisfies the line loop's invariant |
| FirstScanProps.FitsGrow | firstScan.c:146-450 | symbols that fit the images keep fitting when the images grow |
| FirstScanProps.CodeAppend | firstScan.c:399-449 | appending words at consecutive addresses from IC keeps the instruction image consecutive from 100 |
| FirstScanProps.DataAppend | firstScan.c:205-266 | appending words at consecutive DCs keeps the data image consecutive from 0 |
| FirstScanProps.FailWellFormed | firstScan.c:27-28 | marking an error keeps the invariant |
| FirstScanProps.StringWellFormed | firstScan.c:205-222 | a `.string` line keeps the invariant |
| FirstScanProps.DataWellFormed | firstScan.c:223-266 | a `.data` line keeps the invariant |
| FirstScanProps.MarkWellFormed | firstScan.c:199-203 | labelling a fresh label keeps the invariant |
| FirstScanProps.ExternWellFormed | firstScan.c:279-321 | an `.extern` line keeps the invariant |
| FirstScanProps.CommandEndWellFormed | firstScan.c:391-449 | appending the words of a command keeps the invariant |
| FirstScanProps.CommandWellFormed | firstScan.c:324-449 | a command line keeps the invariant |
| FirstScanProps.StatementWellFormed | firstScan.c:199-449 | every kind of statement keeps the invariant |
| FirstScanProps.LabelWellFormed | firstScan.c:170-197 | a labelled line keeps the invariant |
| FirstScanProps.FirstTokenWellFormed | firstScan.c:158-168 | a line read from its first token keeps the invariant |
| FirstScanProps.LineWellFormed | firstScan.c:146-450 | every line keeps the invariant: consecutive images, and labels inside them |
| FirstScanProps.LinesWellFormed | firstScan.c:146-450 | the whole line loop keeps the invariant |
| FirstScanProps.StatementSymbols | firstScan.c:199-449 | what each kind of statement does to the symbol table: a data directive or a known command labels the line; `.entry` changes nothing; `.extern` installs at most its own new name |
| FirstScanProps.StringSymbols | firstScan.c:205-222 | the `.string` operand leaves the symbol table alone |
| FirstScanProps.DataSymbols | firstScan.c:223-266 | the `.data` operands leave the symbol table alone |
| FirstScanProps.CommandSymbols | firstScan.c:324-340 | a command line changes the table only by labelling, and only for a known mnemonic |
| FirstScanProps.StatementLabel | firstScan.c:199-203 | a label before a data directive becomes data at DC; one before a known command becomes code at IC |
| FirstScanProps.StatementKeeps | firstScan.c:199-449 | a statement changes no existing symbol other than its own label |
| FirstScanProps.LabelKeeps | firstScan.c:170-197 | a labelled line changes no symbol that was in the table before it |
| FirstScanProps.FirstTokenKeeps | firstScan.c:158-197 | the same, for any line read from its first token |
| FirstScanProps.LineKeepsSymbols | firstScan.c:146-450 | no line changes a symbol that an earlier line defined |
| FirstScanProps.RedefinedLabel | firstScan.c:185-193 | a label that is already in the table makes the line an error and changes nothing else |
| FirstScanProps.UnlabelledString | firstScan.c:205-222 | a `.string "..."` line without a label is rejected |
| FirstScanProps.QuoteAtCursor | firstScan.c:205-222 | a `.string` whose cursor stands on the opening quote reads an empty operand and is rejected |
| FirstScanProps.DigitLedOperand | inputHandlers.c:225-233 | the operand "1x" is taken as direct and legal, and the second pass leaves it untouched as an already encoded word |
| FirstScan.BumpedChain | firstScan.c:490-503 | updating a chain keeps its length |
| FirstScan.FindBumped | firstScan.c:490-503 | a lookup in an updated chain finds the updated value of the old lookup |
| FirstScan.BumpChain | firstScan.c:490-503 | the loop over one chain adds the offset to each data symbol, as `BumpedChain` specifies |
| FirstScan.UpdateAllSymbolsValue | firstScan.c:490-503 | the table afterwards maps each key to its symbol with ICF added to a data symbol's address |
| FirstScan.Rebased | firstScan.c:457-468 | rebasing keeps the number of data words |
| FirstScanProps.RebaseFacts | firstScan.c:457-468 | the rebase moves each data word to ICF + j; each data label moves by ICF and lands inside the moved data; nothing else changes |
| FirstScanProps.BumpedLaidOut | firstScan.c:457-468 | after the rebase, code labels lie in the code, data labels in the data after it, and external names at 0 |
| FirstScanProps.SecondPassLaidOut | secondScan.c:40-180 | the second pass changes no symbol's address or kind, so the layout survives it |
| FirstScanProps.ResolvedAddresses | secondScan.c:97-174 | resolution keeps every code word at its address |
| FirstScanProps.AssembleLoaded | firstScan.c:104-483 | an assembly without errors gives code at consecutive addresses from 100, the data right after it, code labels in the code, data labels in the data and external names at 0 |
| FirstScan.FirstScan | firstScan.c:104-483 | the imperative pass yields the verdict, instruction image, data image and symbol table that `Assemble` specifies |
| FirstScan.Assembler.constructor | firstScan.c:105-145 | a new assembler state is the starting state |
| FirstScan.Assembler.RebaseData | firstScan.c:457-468 | the data image is rebased and nothing else changes |
| FirstScan.Assembler.Label | firstScan.c:199-203 | the table object follows `MarkLabel` |
| FirstScan.Assembler.StringDirective | firstScan.c:205-222 | a `.string` line updates the state as `AfterString` specifies |
| FirstScan.Assembler.DataDirective | firstScan.c:223-266 | a `.data` line updates the state as `AfterData` specifies |
| FirstScan.Assembler.DataOperands | firstScan.c:244-266 | the scalar loop and the line's end update the state as `DataList` specifies |
| FirstScan.Assembler.ExternDirective | firstScan.c:279-321 | an `.extern` line updates the state as `AfterExtern` specifies |
| FirstScan.Assembler.CommandLine | firstScan.c:324-449 | a command line updates the state as `AfterCommand` specifies |
| FirstScan.Assembler.CommandWords | firstScan.c:391-449 | the end of a command line updates the state as `CommandEnd` specifies |
| FirstScan.Assembler.Statement | firstScan.c:199-449 | the statement updates the state as `AfterStatement` specifies |
| FirstScan.Assembler.Line | firstScan.c:146-450 | one iteration of the line loop updates the state as `AfterLine` specifies |
| FirstScan.Assembler.FirstToken | firstScan.c:158-168 | a line read from its first token updates the state as `AfterFirstToken` specifies |
| FirstScan.Assembler.LabelledLine | firstScan.c:170-197 | a labelled line updates the state as `AfterLabel` specifies |
| FirstScan.Assembler.InstalledLabel | firstScan.c:194-197 | after the label is installed, the statement runs as `LabelledStatement` specifies |

## Where the code and its comments differ

The model follows the code in each case below.

- **Symbol length.** `legal_symbol` accepts names of up to 32 characters
  (`MAX_SYMBOL_LENGTH`). The comment in `inputHandlers.h` says 31.
- **Unlabelled strings.** `get_token` compares the first character of its input
  with the delimiters. The cursor of an unlabelled `.string "text"` line stands
  on the opening quote, so the operand is read as empty and the line is
  rejected (`FirstScanProps.UnlabelledString`).
- **Trailing comma.** A `.data` list that ends with a comma is not an error
  (`FirstScanProps.TrailingComma`).
- **Repeated `.extern`.** `.extern` rejects any name already in the table,
  including one declared external before (`FirstScanProps.ExternOutcome`).
- **Last line without a newline.** On such a line the cursor after an operand
  lands on the last character, so the operand's own last character counts as
  extra text.
- **Digit-led operands.** `legal_arg` accepts an operand such as `1x` as
  direct. The second pass then treats the word as already encoded, because it
  starts with '1' (`FirstScanProps.DigitLedOperand`).
- **Scalars.**
  - `legal_scalar` accepts a scalar that is all whitespace.
  - It accepts a sign followed by whitespace.
  - It rejects digits after leading whitespace.
  - `ScalarWithLeadingSpace` and `ScalarWithoutLeadingSpace` state the exact
    grammar.
- **Sticky illegal-scalar flag.** Once a line holds an illegal scalar, the flag
  stays set. On later `.data` lines it skips the extra-text check. It is set
  only together with the error flag, so the verdict is unchanged.

## Left out

- `assembler.c` is not part of this model. It holds the driver: the file names
  and the loop over the files.
- `Commands.FillTable`: the model requires a well-formed table, such as the
  empty one the constructor makes.
  In `assembler.c` the command table comes from `malloc`, not `calloc`, so its
  bucket pointers are indeterminate when `fill_table` first looks them up. The
  comment above it says the array is initialised automatically, which the code
  does not do.
- `buildOutputFiles.c` is not part of this model. It writes the object, entries
  and externals files.
- Reading lines with `fgets`: the model receives the source as a sequence of
  non-empty lines.
- Line truncation at `MAX_LINE_LENGTH`.
- The printed diagnostics. Only the error flag is modelled, and the warning for
  a label before `.entry` or `.extern` is omitted.
- Memory allocation failures. `install` returning NULL, and `free_list` and
  `free_table`, are outside a model without manual memory.
- Fixed buffer sizes, such as the symbol buffer and the word buffers: the
  strings in the model are unbounded.
- Locale: `isspace`, `isalpha` and `isdigit` are modelled on ASCII.
- `atoi` overflow: `Atoi` returns the exact value.
- `Tables.Hash`: the C hash adds signed `char` values. The model adds character
  codes, so the bucket can differ from the C bucket for non-ASCII keys.
- `FirstScan.CharWords`, `FirstScan.StringWords`: a character is encoded by
  its code point. The C code passes a plain, usually signed, `char` to
  `decimal_to_bin`, so a byte from 0x80 up gives its value minus 256 reduced to
  twelve bits. A multi-byte UTF-8 character is one word in the model and
  several in C. `encode_string` is documented for ASCII text only.
- `Numbering.BinToDecimal`: the C `int` can overflow on inputs longer than 31
  digits. The model's integers are unbounded.
- `FirstScan.NewSymbol`: `create_new_symbol` leaves the address uninitialised.
  The model sets it to 0. A label before `.entry` or `.extern` is installed
  but never given an address, and `update_all_symbols_value` skips it. A later
  direct or relative reference to it, as in `X: .entry Y` followed by `jmp X`,
  makes the C code encode an indeterminate value. The model encodes address 0.
- `SecondScan.AddUsage`: the C usage list begins with a dummy head node. The
  model's usage sequence holds only the recorded addresses.
- Pointer aliasing. The C code updates a symbol through the pointer stored in
  the table. The model updates the table with `Install` on the existing key,
  which keeps the key's place in its chain.
- `SecondScan.SecondScan`: the C loop also passes blank and comment lines to
  `get_token`. The model requires every line to be non-empty, because
  `get_token` on an empty line returns -1 and the code then reads before the
  line.
- Unsigned wrap-around in `decimal_to_bin` of a negative number is written out
  as `Unsigned`, the value modulo 2^32.
