// Reading the source text: blank and comment lines, tokens, and the
// classification and checking of symbols, scalars, registers and operands
// (inputHandlers.c). A string is the sequence of characters before its
// terminating NUL; `At` gives the NUL a pointer sees past the end.

module InputHandlers {
  import opened Generals
  import opened CText
  import opened Tables

  // ---------------------------------------------------------------------------
  // Reference definitions

  /** The line holds only whitespace, or its first non-whitespace character is ';'. */
  predicate BlankOrComment(line: string)
  {
    var p := SkipSpaces(line, 0);
    p == |line| || line[p] == ';'
  }

  /** c matches the delimiter set: a ' ' in the set stands for any whitespace. */
  predicate InDelims(c: char, delims: string)
  {
    delims != [] && ((if delims[0] == ' ' then IsSpace(c) else c == delims[0]) || InDelims(c, delims[1..]))
  }

  /** The first offset at or after i holding a delimiter (or |s|). */
  function DelimAt(s: string, i: nat, delims: string): (r: nat)
    requires i <= |s|
    ensures i <= r <= |s|
    ensures r < |s| ==> InDelims(s[r], delims)
    decreases |s| - i
  {
    if i < |s| && !InDelims(s[i], delims) then DelimAt(s, i + 1, delims) else i
  }

  /** Nothing DelimAt passes over is a delimiter. */
  lemma {:induction false} DelimAtSkips(s: string, i: nat, delims: string)
    requires i <= |s|
    ensures forall j :: i <= j < DelimAt(s, i, delims) ==> !InDelims(s[j], delims)
    decreases |s| - i
  {
    if i < |s| && !InDelims(s[i], delims) {
      DelimAtSkips(s, i + 1, delims);
    }
  }

  /** Where the token of get_token starts: after the leading whitespace. */
  function TokenStart(line: string): nat
  {
    SkipSpaces(line, 0)
  }

  /**
   * Where the token of get_token ends. When the line starts with whitespace the
   * first non-whitespace character is taken whatever it is, and the search for a
   * delimiter starts after it; otherwise the very first character is tested.
   */
  function TokenEnd(line: string, delims: string): (e: nat)
    ensures TokenStart(line) <= e <= |line|
  {
    var p := SkipSpaces(line, 0);
    if line == [] then 0
    else if IsSpace(line[0]) then (if p == |line| then |line| else DelimAt(line, p + 1, delims))
    else DelimAt(line, 0, delims)
  }

  /** The token get_token copies out. */
  function Token(line: string, delims: string): (t: string)
    ensures line == [] ==> t == []
    ensures |t| > 0 ==> !IsSpace(t[0])
  {
    line[TokenStart(line)..TokenEnd(line, delims)]
  }

  /**
   * No character of a token after its first is a delimiter; when the line does
   * not start with whitespace, not even the first.
   */
  lemma TokenChars(line: string, delims: string)
    ensures forall j :: 0 < j < |Token(line, delims)| ==> !InDelims(Token(line, delims)[j], delims)
    ensures |line| > 0 && !IsSpace(line[0]) ==> forall j :: 0 <= j < |Token(line, delims)| ==> !InDelims(Token(line, delims)[j], delims)
  {
    var p := SkipSpaces(line, 0);
    if line != [] {
      if IsSpace(line[0]) {
        if p < |line| {
          DelimAtSkips(line, p + 1, delims);
        }
      } else {
        DelimAtSkips(line, 0, delims);
      }
    }
  }

  /**
   * What get_token returns: one less than the characters it scanned, that is the
   * offset of the delimiter that stopped it, or |line| - 1 when it ran to the end.
   */
  function TokenRead(line: string, delims: string): (r: int)
    ensures -1 <= r < |line|
    ensures r == -1 <==> line == []
    ensures TokenEnd(line, delims) < |line| ==> r == TokenEnd(line, delims) && InDelims(line[r], delims)
  {
    var e := TokenEnd(line, delims);
    if e < |line| then e else |line| - 1
  }

  /** From offset i to the end, s holds only whitespace. */
  predicate SpacesFrom(s: string, i: nat)
    decreases |s| - i
  {
    i >= |s| || (IsSpace(s[i]) && SpacesFrom(s, i + 1))
  }

  /** From offset i to the end, s holds only letters and digits. */
  predicate AlnumFrom(s: string, i: nat)
    decreases |s| - i
  {
    i >= |s| || (IsAlnum(s[i]) && AlnumFrom(s, i + 1))
  }

  /**
   * Where legal_scalar starts its digit check: on the last leading whitespace
   * character if there is leading whitespace, otherwise after an optional sign.
   */
  function ScalarStart(s: string): nat
  {
    var w := SkipSpaces(s, 0);
    if w > 0 then w - 1
    else if |s| > 0 && (s[0] == '-' || s[0] == '+') then 1
    else 0
  }

  /**
   * The scalars legal_scalar accepts: from its start there is at least one
   * character, and the run of digits there is followed by whitespace only.
   */
  predicate ValidScalar(s: string)
  {
    var st := ScalarStart(s);
    st < |s| && SpacesFrom(s, SkipDigits(s, st))
  }

  /** The text names a register: 'r' followed by a legal scalar whose value is 0 .. 7. */
  predicate IsRegister(s: string)
  {
    |s| > 0 && s[0] == 'r' && ValidScalar(s[1..]) && 0 <= Atoi(s[1..]) < NUM_OF_REGISTERS
  }

  /**
   * The text is a reserved word: a mnemonic of the command table (given as the
   * map it holds), a directive name without its dot, or a register.
   */
  predicate KeyWord(c: string, commands: map<string, Command>)
  {
    c in commands || c in {"entry", "extern", "data", "string"} || IsRegister(c)
  }

  /** The names legal_symbol accepts. */
  predicate ValidSymbol(s: string, commands: map<string, Command>)
  {
    |s| > 0 && IsAlpha(s[0]) && !KeyWord(s, commands)
    && AlnumFrom(s, 1) && |s| <= MAX_SYMBOL_LENGTH
  }

  /** Some whitespace character is followed, later, by a non-whitespace one. */
  predicate SpaceBetweenWords(s: string)
  {
    exists i, j :: 0 <= i < j < |s| && IsSpace(s[i]) && !IsSpace(s[j])
  }

  /**
   * The extra-text check both passes make at the end of a statement: from the
   * cursor on, the line holds something other than whitespace.
   */
  predicate ExtraText(line: string, pos: int)
    requires 0 <= pos <= |line|
  {
    SkipSpaces(line, pos) < |line|
  }

  // ---------------------------------------------------------------------------
  // Uniqueness of the search functions

  lemma {:induction false} SkipSpacesIs(s: string, i: nat, r: nat)
    requires i <= r <= |s|
    requires forall j :: i <= j < r ==> IsSpace(s[j])
    requires r < |s| ==> !IsSpace(s[r])
    ensures SkipSpaces(s, i) == r
    decreases r - i
  {
    if i < r {
      SkipSpacesIs(s, i + 1, r);
    }
  }

  lemma {:induction false} DelimAtIs(s: string, i: nat, delims: string, r: nat)
    requires i <= r <= |s|
    requires forall j :: i <= j < r ==> !InDelims(s[j], delims)
    requires r < |s| ==> InDelims(s[r], delims)
    ensures DelimAt(s, i, delims) == r
    decreases r - i
  {
    if i < r {
      DelimAtIs(s, i + 1, delims, r);
    }
  }

  // ---------------------------------------------------------------------------
  // The operations

  /** is_empty_or_comment_line */
  method IsEmptyOrCommentLine(line: string) returns (b: bool)
    ensures b == BlankOrComment(line)
  {
    var i := 0;
    while i < |line|
      invariant 0 <= i <= |line|
      invariant forall j :: 0 <= j < i ==> IsSpace(line[j])
    {
      if line[i] == ';' {
        SkipSpacesIs(line, 0, i);
        return true;
      }
      if !IsSpace(line[i]) {
        SkipSpacesIs(line, 0, i);
        return false;
      }
      i := i + 1;
    }
    SkipSpacesIs(line, 0, i);
    return true;
  }

  /** CHECK_EXTRA_TEXT: skips whitespace from the cursor and reports whether anything else follows. */
  method HasExtraText(line: string, pos: int) returns (extra: bool)
    requires 0 <= pos <= |line|
    ensures extra == ExtraText(line, pos)
    ensures extra <==> exists j :: pos <= j < |line| && !IsSpace(line[j])
  {
    var i := pos;
    while i < |line| && IsSpace(line[i])
      invariant pos <= i <= |line|
      invariant forall j :: pos <= j < i ==> IsSpace(line[j])
    {
      i := i + 1;
    }
    SkipSpacesIs(line, pos, i);
    extra := i < |line|;
  }

  /** is_char_in_delims */
  method IsCharInDelims(c: char, delims: string) returns (b: bool)
    ensures b == InDelims(c, delims)
  {
    var i := 0;
    while i < |delims|
      invariant 0 <= i <= |delims|
      invariant InDelims(c, delims) == InDelims(c, delims[i..])
    {
      assert delims[i..][1..] == delims[i + 1..];
      if delims[i] == ' ' {
        if IsSpace(c) {
          return true;
        }
      } else if c == delims[i] {
        return true;
      }
      i := i + 1;
    }
    return false;
  }

  /**
   * get_token: copies the next token out of line and returns one less than the
   * number of characters it scanned.
   */
  method GetToken(line: string, delims: string) returns (token: string, read: int)
    ensures token == Token(line, delims)
    ensures read == TokenRead(line, delims)
  {
    ghost var p := SkipSpaces(line, 0);
    ghost var leading := |line| > 0 && IsSpace(line[0]);
    ghost var from := if leading then p + 1 else 0;
    var readChars := 0;
    var reachedToken := !(|line| > 0 && IsSpace(line[0]));
    var stop := false;
    token := [];
    var i := 0;
    assert !leading ==> p == 0 && line[p..i] == [];
    while i < |line| && !stop
      invariant 0 <= i <= |line|
      invariant readChars == if stop then i + 1 else i
      invariant reachedToken <==> !leading || i > p || (stop && i == p)
      invariant !reachedToken ==> token == [] && i <= p
      invariant reachedToken ==> p <= i && token == line[p..i] && from <= i
      invariant forall j :: from <= j < i ==> !InDelims(line[j], delims)
      invariant stop ==> i < |line| && InDelims(line[i], delims) && from <= i
      invariant leading ==> forall j :: 0 <= j < i && j < p ==> IsSpace(line[j])
      decreases |line| - i, if stop then 0 else 1
    {
      readChars := readChars + 1;
      if !reachedToken {
        if !IsSpace(line[i]) {
          SkipSpacesIs(line, 0, i);
          token := token + [line[i]];
          reachedToken := true;
        }
      } else {
        var isDelim := IsCharInDelims(line[i], delims);
        if isDelim {
          stop := true;
        } else {
          token := token + [line[i]];
        }
      }
      if !stop {
        i := i + 1;
      }
    }
    read := readChars - 1;
    if line != [] {
      if leading && p == |line| {
      } else {
        DelimAtIs(line, from, delims, i);
      }
    }
  }

  /** legal_symbol */
  method LegalSymbol(symbol: string, table: Table<Command>) returns (legal: bool)
    requires table.Valid()
    ensures legal == ValidSymbol(symbol, table.Contents)
  {
    if !(|symbol| > 0 && IsAlpha(symbol[0])) {
      return false;
    }
    var keyWord := IsKeyWord(symbol, table);
    if keyWord {
      return false;
    }
    var i := 1;
    while i < |symbol|
      invariant 1 <= i <= |symbol|
      invariant AlnumFrom(symbol, 1) == AlnumFrom(symbol, i)
    {
      if !IsAlpha(symbol[i]) && !IsDigit(symbol[i]) {
        return false;
      }
      i := i + 1;
    }
    if i > MAX_SYMBOL_LENGTH {
      return false;
    }
    return true;
  }

  /** is_data_store_inst: STRING_INST for ".string", DATA_INST for ".data", 0 otherwise. */
  function IsDataStoreInst(token: string): (kind: int)
    ensures kind == STRING_INST <==> token == ".string"
    ensures kind == DATA_INST <==> token == ".data"
    ensures kind == 0 <==> token != ".string" && token != ".data"
  {
    if token == ".string" then STRING_INST
    else if token == ".data" then DATA_INST
    else 0
  }

  /** get_addressing_method: decided by the first character, then by the register test. */
  function GetAddressingMethod(arg: string): (m: AddrMethod)
    ensures m == Immediate <==> At(arg, 0) == '#'
    ensures m == Relative <==> At(arg, 0) == '%'
    ensures m == ImdRegister <==> IsRegister(arg)
    ensures m == Direct <==> At(arg, 0) != '#' && At(arg, 0) != '%' && !IsRegister(arg)
  {
    if At(arg, 0) == '#' then Immediate
    else if At(arg, 0) == '%' then Relative
    else if IsRegister(arg) then ImdRegister
    else Direct
  }

  /** legal_scalar */
  method LegalScalar(scalar: string) returns (legal: bool)
    ensures legal == ValidScalar(scalar)
  {
    var ind := 0;
    while ind < |scalar| && IsSpace(scalar[ind])
      invariant 0 <= ind <= |scalar|
      invariant forall j :: 0 <= j < ind ==> IsSpace(scalar[j])
    {
      ind := ind + 1;
    }
    SkipSpacesIs(scalar, 0, ind);
    ind := if ind > 0 then ind - 1 else ind;
    if ind < |scalar| && (scalar[ind] == '-' || scalar[ind] == '+') {
      ind := ind + 1;
    }
    if ind == |scalar| {
      return false;
    }
    assert ind == ScalarStart(scalar);
    legal := DigitsThenSpacesFrom(scalar, ind);
  }

  /**
   * The digit loop of legal_scalar from offset start: a character that is
   * neither digit nor whitespace, or a digit after whitespace, makes it illegal.
   */
  method DigitsThenSpacesFrom(scalar: string, start: nat) returns (legal: bool)
    requires start <= |scalar|
    ensures legal == SpacesFrom(scalar, SkipDigits(scalar, start))
  {
    ghost var d := SkipDigits(scalar, start);
    SkipDigitsSkips(scalar, start);
    var ind := start;
    var scalarDone := false;
    while ind < |scalar|
      invariant start <= ind <= |scalar|
      invariant scalarDone <==> ind > d
      invariant ind > d ==> SpacesFrom(scalar, d) == SpacesFrom(scalar, ind)
    {
      if !IsDigit(scalar[ind]) && !scalarDone && !IsSpace(scalar[ind]) {
        return false;
      } else if IsSpace(scalar[ind]) {
        scalarDone := true;
      } else if scalarDone {
        return false;
      }
      ind := ind + 1;
    }
    return true;
  }

  /**
   * The operands legal_arg accepts: an immediate operand is a legal scalar after
   * its '#', a register operand names register 0 .. 7, and a direct or relative
   * operand (its '%' dropped) is no reserved word.
   */
  predicate ValidArg(arg: string, m: AddrMethod, commands: map<string, Command>)
    requires arg != []
  {
    match m
    case Immediate => ValidScalar(arg[1..])
    case ImdRegister => 0 <= Atoi(arg[1..]) < NUM_OF_REGISTERS
    case _ => !KeyWord(if arg[0] == '%' then arg[1..] else arg, commands)
  }

  /** is_key_word: looks c up in the command table before the fixed keywords and the registers. */
  method IsKeyWord(c: string, table: Table<Command>) returns (b: bool)
    requires table.Valid()
    ensures b == KeyWord(c, table.Contents)
  {
    var found := table.Lookup(c);
    if found.Some? {
      return true;
    }
    if c == "entry" || c == "extern" || c == "data" || c == "string" {
      return true;
    }
    return IsRegister(c);
  }

  /** legal_arg */
  method LegalArg(arg: string, m: AddrMethod, table: Table<Command>) returns (legal: bool)
    requires table.Valid() && arg != []
    ensures legal == ValidArg(arg, m, table.Contents)
  {
    if m == Immediate {
      legal := LegalScalar(arg[1..]);
      return;
    }
    if m == ImdRegister {
      var num := Atoi(arg[1..]);
      return 0 <= num < NUM_OF_REGISTERS;
    }
    var name := if arg[0] == '%' then arg[1..] else arg;
    var keyWord := IsKeyWord(name, table);
    return !keyWord;
  }

  /** is_containing_space_between_words */
  method IsContainingSpaceBetweenWords(c: string) returns (b: bool)
    ensures b == SpaceBetweenWords(c)
  {
    var i := 0;
    var space := false;
    while i < |c|
      invariant 0 <= i <= |c|
      invariant space <==> exists j :: 0 <= j < i && IsSpace(c[j])
      invariant !exists j, k :: 0 <= j < k < i && IsSpace(c[j]) && !IsSpace(c[k])
    {
      if IsSpace(c[i]) {
        space := true;
      } else if space {
        return true;
      }
      i := i + 1;
    }
    return false;
  }
  // ---------------------------------------------------------------------------
  // What legal_scalar accepts, in two cases

  /** With leading whitespace, only an all-whitespace text is legal. */
  lemma ScalarWithLeadingSpace(s: string)
    requires |s| > 0 && IsSpace(s[0])
    ensures ValidScalar(s) <==> AllSpaces(s)
  {
    var w := SkipSpaces(s, 0);
    SkipSpacesSkips(s, 0);
    assert SkipDigits(s, w - 1) == w - 1;
    SpacesFromIs(s, w - 1);
  }

  /** The recursive reading of SpacesFrom agrees with the quantified one. */
  lemma {:induction false} SpacesFromIs(s: string, i: nat)
    ensures SpacesFrom(s, i) <==> forall j :: i <= j < |s| ==> IsSpace(s[j])
    decreases |s| - i
  {
    if i < |s| {
      SpacesFromIs(s, i + 1);
    }
  }

  /**
   * Without leading whitespace, a scalar is legal iff after an optional sign
   * there is at least one character, and the digits that follow are followed
   * by whitespace only.
   */
  lemma ScalarWithoutLeadingSpace(s: string)
    requires s == [] || !IsSpace(s[0])
    ensures ValidScalar(s) <==>
      var b := if |s| > 0 && (s[0] == '-' || s[0] == '+') then 1 else 0;
      b < |s| && SpacesFrom(s, SkipDigits(s, b))
  {
    SkipSpacesIs(s, 0, 0);
  }
  // ---------------------------------------------------------------------------
  // The token of get_token, by the shape of the line

  /**
   * A line that does not start with whitespace: the token runs from its first
   * character to the first delimiter, which may be that very character.
   */
  lemma PlainToken(line: string, delims: string, e: nat)
    requires |line| > 0 && !IsSpace(line[0]) && e <= |line|
    requires forall j :: 0 <= j < e ==> !InDelims(line[j], delims)
    requires e < |line| ==> InDelims(line[e], delims)
    ensures Token(line, delims) == line[..e]
    ensures TokenRead(line, delims) == if e < |line| then e else |line| - 1
  {
    SkipSpacesIs(line, 0, 0);
    DelimAtIs(line, 0, delims, e);
  }

  /**
   * A line that starts with whitespace up to offset p: the character at p is
   * taken whatever it is, and the token runs on to the next delimiter.
   */
  lemma IndentedToken(line: string, delims: string, p: nat, e: nat)
    requires 0 < p < e <= |line|
    requires forall j :: 0 <= j < p ==> IsSpace(line[j])
    requires !IsSpace(line[p])
    requires forall j :: p < j < e ==> !InDelims(line[j], delims)
    requires e < |line| ==> InDelims(line[e], delims)
    ensures Token(line, delims) == line[p..e]
    ensures TokenRead(line, delims) == if e < |line| then e else |line| - 1
  {
    SkipSpacesIs(line, 0, p);
    DelimAtIs(line, p + 1, delims, e);
  }

  /** A line of whitespace only holds no token, and get_token scans all of it. */
  lemma BlankToken(line: string, delims: string)
    requires |line| > 0 && forall j :: 0 <= j < |line| ==> IsSpace(line[j])
    ensures Token(line, delims) == []
    ensures TokenRead(line, delims) == |line| - 1
  {
    SkipSpacesIs(line, 0, |line|);
  }
}

