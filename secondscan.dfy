// The second pass (secondScan.c): it marks the symbols named by `.entry`
// lines, then walks the instruction image and replaces every operand word that
// still holds a symbol's name by the symbol's address or by the distance to it,
// recording where external symbols are used.

module SecondScan {
  import opened Generals
  import opened CText
  import opened Numbering
  import opened Tables
  import opened InputHandlers

  // ---------------------------------------------------------------------------
  // Marking entries

  /**
   * The statement token of a line as the second pass finds it: the first token,
   * or, after a label, the token that follows it; and the cursor after it.
   */
  function StatementOf(line: string): (r: (string, int))
    requires |line| > 0
    ensures 0 <= r.1 <= |line|
  {
    var tok := Token(line, " :");
    var p := TokenRead(line, " :");
    if At(line, p) == ':' then
      var rest := line[p + 1..];
      (Token(rest, " "), p + 1 + TokenRead(rest, " ") + 1)
    else (tok, p + 1)
  }

  /**
   * One line of the entry pass: a `.entry` line marks the symbol it names; a
   * name not in the table or naming an external symbol is an error, and so is
   * extra text after a marked name. Every other line changes nothing.
   */
  function AfterEntryLine(symbols: map<string, Symbol>, line: string): (r: (map<string, Symbol>, bool))
    requires |line| > 0
  {
    var (tok, pos) := StatementOf(line);
    if IsDataStoreInst(tok) != 0 || tok == ".extern" || tok != ".entry" then (symbols, false)
    else MarkEntry(symbols, line, pos)
  }

  /**
   * The operand of a `.entry` line whose name starts at pos: a name not in the
   * table or naming an external symbol is an error; otherwise the symbol is
   * marked and extra text after the name is an error.
   */
  function MarkEntry(symbols: map<string, Symbol>, line: string, pos: int): (map<string, Symbol>, bool)
    requires 0 <= pos <= |line|
  {
    var rest := line[pos..];
    var name := Token(rest, " ");
    var after := pos + TokenRead(rest, " ") + 1;
    if name !in symbols || symbols[name].isExternal then (symbols, true)
    else (symbols[name := symbols[name].(isEntry := true)], ExtraText(line, after))
  }

  /** The entry pass over the first lines of the source: the table and whether an error was met. */
  function AfterEntries(symbols: map<string, Symbol>, lines: seq<string>): (map<string, Symbol>, bool)
    requires forall i :: 0 <= i < |lines| ==> |lines[i]| > 0
  {
    if lines == [] then (symbols, false)
    else
      var (s, e) := AfterEntries(symbols, lines[..|lines| - 1]);
      var (s', e') := AfterEntryLine(s, lines[|lines| - 1]);
      (s', e || e')
  }

  /** The entry pass only sets isEntry flags, and only on symbols that are not external. */
  lemma {:induction false} EntriesOnlyMarkEntries(symbols: map<string, Symbol>, lines: seq<string>)
    requires forall i :: 0 <= i < |lines| ==> |lines[i]| > 0
    ensures var s := AfterEntries(symbols, lines).0;
      s.Keys == symbols.Keys
      && (forall k :: k in s ==> s[k] == symbols[k].(isEntry := s[k].isEntry))
      && (forall k :: k in s && s[k].isEntry && !symbols[k].isEntry ==> !symbols[k].isExternal)
  {
    if lines != [] {
      EntriesOnlyMarkEntries(symbols, lines[..|lines| - 1]);
      EntryLineOnlyMarks(AfterEntries(symbols, lines[..|lines| - 1]).0, lines[|lines| - 1]);
    }
  }

  /** One line of the entry pass only sets an isEntry flag, and only on a symbol that is not external. */
  lemma EntryLineOnlyMarks(symbols: map<string, Symbol>, line: string)
    requires |line| > 0
    ensures var s := AfterEntryLine(symbols, line).0;
      s.Keys == symbols.Keys
      && (forall k :: k in s ==> s[k] == symbols[k].(isEntry := s[k].isEntry))
      && (forall k :: k in s && s[k].isEntry && !symbols[k].isEntry ==> !symbols[k].isExternal)
  {
  }

  /** A `.entry` line naming a symbol that is missing or external is an error and changes nothing. */
  lemma EntryOfUnknownOrExternal(symbols: map<string, Symbol>, line: string)
    requires |line| > 0
    requires StatementOf(line).0 == ".entry"
    requires var pos := StatementOf(line).1;
      var name := Token(line[pos..], " ");
      name !in symbols || symbols[name].isExternal
    ensures AfterEntryLine(symbols, line) == (symbols, true)
  {
  }

  // ---------------------------------------------------------------------------
  // Resolving the instruction image

  /** A word still holds a name rather than binary digits: it does not start with '0' or '1'. */
  predicate Unresolved(w: Word)
  {
    At(w.code, 0) != '0' && At(w.code, 0) != '1'
  }

  /**
   * One word of the resolution walk: the new word, the new table and whether an
   * error was met. A relative reference `%name` becomes the distance from the
   * word to a symbol that is neither external nor data; a direct reference
   * becomes the symbol's address tagged R, or E for an external symbol, whose
   * usage list then gains the word's address.
   */
  function ResolveWord(symbols: map<string, Symbol>, w: Word): (r: (Word, map<string, Symbol>, bool))
    ensures r.0.ic == w.ic && r.0.l == w.l
    ensures !Unresolved(w) ==> r.0 == w && !r.2
    ensures SameButUsage(symbols, r.1)
    ensures r.2 ==> r.0 == w && r.1 == symbols
  {
    if !Unresolved(w) then (w, symbols, false)
    else if At(w.code, 0) == '%' then
      var name := w.code[1..];
      if name !in symbols || symbols[name].isExternal || symbols[name].isData then (w, symbols, true)
      else (w.(code := BinOf(symbols[name].value - w.ic)), symbols, false)
    else
      var name := w.code;
      if name !in symbols then (w, symbols, true)
      else if symbols[name].isExternal then
        (w.(code := BinOf(symbols[name].value), are := E),
         symbols[name := symbols[name].(usage := symbols[name].usage + [w.ic])], false)
      else (w.(code := BinOf(symbols[name].value), are := R), symbols, false)
  }

  datatype Resolution = Resolution(code: seq<Word>, symbols: map<string, Symbol>, errors: bool)

  /** The resolution walk over the first words of the image. */
  function Resolve(symbols: map<string, Symbol>, code: seq<Word>): Resolution
  {
    if code == [] then Resolution([], symbols, false)
    else
      var r := Resolve(symbols, code[..|code| - 1]);
      var (w, s, e) := ResolveWord(r.symbols, code[|code| - 1]);
      Resolution(r.code + [w], s, r.errors || e)
  }

  /** Two tables that differ at most in their usage lists. */
  predicate SameButUsage(s: map<string, Symbol>, t: map<string, Symbol>)
  {
    s.Keys == t.Keys && forall k :: k in s ==> t[k] == s[k].(usage := t[k].usage)
  }

  /** The addresses of the words of code that refer directly to the external symbol name. */
  function UsageSites(symbols: map<string, Symbol>, code: seq<Word>, name: string): seq<nat>
  {
    if code == [] then []
    else
      var w := code[|code| - 1];
      UsageSites(symbols, code[..|code| - 1], name)
      + (if Unresolved(w) && At(w.code, 0) != '%' && w.code == name
            && name in symbols && symbols[name].isExternal then [w.ic] else [])
  }

  lemma ResolveWordIgnoresUsage(s: map<string, Symbol>, t: map<string, Symbol>, w: Word)
    requires SameButUsage(s, t)
    ensures ResolveWord(s, w).0 == ResolveWord(t, w).0
    ensures ResolveWord(s, w).2 == ResolveWord(t, w).2
    ensures SameButUsage(s, ResolveWord(t, w).1)
  {
  }

  /**
   * What the walk does to the image: every word is visited whatever errors came
   * before, each against the table as the walk began (only usage lists change on
   * the way), and words already in binary are left alone.
   */
  lemma {:induction false} ResolveTable(symbols: map<string, Symbol>, code: seq<Word>)
    ensures |Resolve(symbols, code).code| == |code|
    ensures SameButUsage(symbols, Resolve(symbols, code).symbols)
  {
    if code != [] {
      ResolveTable(symbols, code[..|code| - 1]);
    }
  }

  lemma {:induction false} ResolveWords(symbols: map<string, Symbol>, code: seq<Word>)
    ensures |Resolve(symbols, code).code| == |code|
    ensures forall j :: 0 <= j < |code| ==> Resolve(symbols, code).code[j] == ResolveWord(symbols, code[j]).0
  {
    if code != [] {
      var init := code[..|code| - 1];
      ResolveWords(symbols, init);
      ResolveTable(symbols, init);
      var r0 := Resolve(symbols, init);
      ResolveWordIgnoresUsage(symbols, r0.symbols, code[|code| - 1]);
      var r := Resolve(symbols, code);
      assert r.code == r0.code + [ResolveWord(r0.symbols, code[|code| - 1]).0];
      forall j | 0 <= j < |code|
        ensures r.code[j] == ResolveWord(symbols, code[j]).0
      {
        if j < |init| {
          assert code[j] == init[j];
        }
      }
    }
  }

  /** The walk fails iff some word of the image fails on its own. */
  lemma {:induction false} ResolveErrors(symbols: map<string, Symbol>, code: seq<Word>)
    ensures Resolve(symbols, code).errors <==> exists j :: 0 <= j < |code| && ResolveWord(symbols, code[j]).2
  {
    if code != [] {
      var init := code[..|code| - 1];
      ResolveErrors(symbols, init);
      ResolveTable(symbols, init);
      ResolveWordIgnoresUsage(symbols, Resolve(symbols, init).symbols, code[|code| - 1]);
      if exists j :: 0 <= j < |code| && ResolveWord(symbols, code[j]).2 {
        var j :| 0 <= j < |code| && ResolveWord(symbols, code[j]).2;
        if j < |init| {
          assert code[j] == init[j];
        }
      }
      if exists j :: 0 <= j < |init| && ResolveWord(symbols, init[j]).2 {
        var j :| 0 <= j < |init| && ResolveWord(symbols, init[j]).2;
        assert code[j] == init[j];
      }
    }
  }

  lemma ResolveWordUsage(s: map<string, Symbol>, t: map<string, Symbol>, w: Word, k: string)
    requires SameButUsage(s, t) && k in t
    ensures k in ResolveWord(t, w).1
    ensures ResolveWord(t, w).1[k].usage == t[k].usage
      + (if Unresolved(w) && At(w.code, 0) != '%' && w.code == k && s[k].isExternal then [w.ic] else [])
  {
  }

  /**
   * The usage list of each symbol gains, at its tail and in image order, the
   * addresses of the words that refer directly to it while it is external.
   */
  lemma {:induction false} ResolveUsages(symbols: map<string, Symbol>, code: seq<Word>, k: string)
    requires k in symbols
    ensures k in Resolve(symbols, code).symbols
    ensures Resolve(symbols, code).symbols[k].usage == symbols[k].usage + UsageSites(symbols, code, k)
  {
    if code != [] {
      var init := code[..|code| - 1];
      ResolveUsages(symbols, init, k);
      ResolveTable(symbols, init);
      ResolveWordUsage(symbols, Resolve(symbols, init).symbols, code[|code| - 1], k);
    }
  }

  // ---------------------------------------------------------------------------
  // The operations

  /** addUsage: appends an address at the tail of the usage list of the symbol stored under name. */
  method AddUsage(symbols: Table<Symbol>, name: string, value: nat)
    requires symbols.Valid() && name in symbols.Contents
    modifies symbols, symbols.storage
    ensures symbols.Valid()
    ensures symbols.Contents == old(symbols.Contents)[name := old(symbols.Contents)[name].(usage := old(symbols.Contents)[name].usage + [value])]
  {
    var s := symbols.Lookup(name);
    symbols.Install(name, s.value.(usage := s.value.usage + [value]));
  }

  /** The entry pass on one line. */
  method EntryLine(symbols: Table<Symbol>, line: string) returns (error: bool)
    requires symbols.Valid() && |line| > 0
    modifies symbols, symbols.storage
    ensures symbols.Valid()
    ensures (symbols.Contents, error) == AfterEntryLine(old(symbols.Contents), line)
  {
    var token, pos := StatementToken(line);
    if IsDataStoreInst(token) != 0 || token == ".extern" {
      return false;
    }
    if token == ".entry" {
      error := EntryOperand(symbols, line, pos);
      return;
    }
    return false;
  }

  /** The statement token of a line and the cursor after it, read as the second pass reads them. */
  method StatementToken(line: string) returns (token: string, pos: int)
    requires |line| > 0
    ensures (token, pos) == StatementOf(line)
  {
    var read;
    token, read := GetToken(line, " :");
    pos := read;
    var c := At(line, pos);
    pos := pos + 1;
    if c == ':' {
      token, read := GetToken(line[pos..], " ");
      pos := pos + read + 1;
    }
  }

  /** The operand of a `.entry` line: the named symbol is marked when it may be. */
  method EntryOperand(symbols: Table<Symbol>, line: string, pos: int) returns (error: bool)
    requires symbols.Valid() && 0 <= pos <= |line|
    modifies symbols, symbols.storage
    ensures symbols.Valid()
    ensures (symbols.Contents, error) == MarkEntry(old(symbols.Contents), line, pos)
  {
    var name, read := GetToken(line[pos..], " ");
    var after := pos + read + 1;
    var entry := symbols.Lookup(name);
    if entry.None? {
      return true;
    }
    if entry.value.isExternal {
      return true;
    }
    symbols.Install(name, entry.value.(isEntry := true));
    error := HasExtraText(line, after);
  }

  /** The resolution of one word of the image. */
  method ResolveNode(symbols: Table<Symbol>, w: Word) returns (r: Word, error: bool)
    requires symbols.Valid()
    modifies symbols, symbols.storage
    ensures symbols.Valid()
    ensures (r, symbols.Contents, error) == ResolveWord(old(symbols.Contents), w)
  {
    r, error := w, false;
    if At(w.code, 0) != '0' && At(w.code, 0) != '1' {
      if At(w.code, 0) == '%' {
        var c := symbols.Lookup(w.code[1..]);
        if c.None? {
          return w, true;
        }
        if c.value.isExternal {
          return w, true;
        }
        if c.value.isData {
          return w, true;
        }
        var code := DecimalToBin(c.value.value - w.ic);
        r := w.(code := code);
      } else {
        var c := symbols.Lookup(w.code);
        if c.None? {
          return w, true;
        }
        var code := DecimalToBin(c.value.value);
        r := w.(code := code, are := R);
        if c.value.isExternal {
          r := r.(are := E);
          AddUsage(symbols, w.code, w.ic);
        }
      }
    }
  }

  /** One more word of the walk. */
  lemma ResolveStep(symbols: map<string, Symbol>, code: seq<Word>, j: nat)
    requires j < |code|
    ensures var r0 := Resolve(symbols, code[..j]);
      var (w, s, e) := ResolveWord(r0.symbols, code[j]);
      Resolve(symbols, code[..j + 1]) == Resolution(r0.code + [w], s, r0.errors || e)
  {
    assert code[..j + 1][..j] == code[..j];
  }

  /** The first loop of secondScan: the entry pass over every line. */
  method MarkEntries(lines: seq<string>, symbols: Table<Symbol>) returns (errors: bool)
    requires symbols.Valid()
    requires forall i :: 0 <= i < |lines| ==> |lines[i]| > 0
    modifies symbols, symbols.storage
    ensures symbols.Valid()
    ensures (symbols.Contents, errors) == AfterEntries(old(symbols.Contents), lines)
  {
    errors := false;
    var i := 0;
    while i < |lines|
      invariant 0 <= i <= |lines|
      invariant symbols.Valid()
      invariant (symbols.Contents, errors) == AfterEntries(old(symbols.Contents), lines[..i])
    {
      assert lines[..i + 1][..i] == lines[..i];
      var e := EntryLine(symbols, lines[i]);
      errors := errors || e;
      i := i + 1;
    }
    assert lines[..i] == lines;
  }

  /** The second loop of secondScan: the resolution walk over the image, in place. */
  method ResolveAll(symbols: Table<Symbol>, codeList: array<Word>) returns (errors: bool)
    requires symbols.Valid()
    modifies symbols, symbols.storage, codeList
    ensures symbols.Valid()
    ensures var r := Resolve(old(symbols.Contents), old(codeList[..]));
      codeList[..] == r.code && symbols.Contents == r.symbols && errors == r.errors
  {
    ghost var marked := symbols.Contents;
    ghost var code := codeList[..];
    errors := false;
    var j := 0;
    while j < codeList.Length
      invariant 0 <= j <= codeList.Length
      invariant symbols.Valid()
      invariant codeList[j..] == code[j..]
      invariant codeList[..j] == Resolve(marked, code[..j]).code
      invariant symbols.Contents == Resolve(marked, code[..j]).symbols
      invariant errors == Resolve(marked, code[..j]).errors
    {
      assert code[j] == codeList[j];
      ResolveStep(marked, code, j);
      var w, e := ResolveNode(symbols, codeList[j]);
      codeList[j] := w;
      errors := errors || e;
      assert codeList[..j + 1] == codeList[..j] + [w];
      j := j + 1;
    }
    assert code[..j] == code;
  }

  /**
   * secondScan: the entry pass over every line, then the resolution walk over
   * the whole image, which is updated in place. Reports whether any error occurred.
   */
  method SecondScan(lines: seq<string>, symbols: Table<Symbol>, codeList: array<Word>) returns (errors: bool)
    requires symbols.Valid()
    requires forall i :: 0 <= i < |lines| ==> |lines[i]| > 0
    modifies symbols, symbols.storage, codeList
    ensures symbols.Valid()
    ensures var (marked, entryErrors) := AfterEntries(old(symbols.Contents), lines);
      var r := Resolve(marked, old(codeList[..]));
      codeList[..] == r.code && symbols.Contents == r.symbols && errors == (entryErrors || r.errors)
  {
    var entryErrors := MarkEntries(lines, symbols);
    var resolveErrors := ResolveAll(symbols, codeList);
    errors := entryErrors || resolveErrors;
  }
}
