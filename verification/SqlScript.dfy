/**
  The migration splitter: drop full-line comments, cut inline comments at `--`, split on `;`, trim,
  drop empties. Beside it stand a one-pass scanner with its own state, which reads the same words from
  every text, and a printer that the splitter undoes.
 */
module SqlScript {
  import opened Text

  // ---------- The splitter ----------

  predicate NoDashes(s: string) {
    forall i :: 0 <= i < |s| - 1 ==> s[i] != '-' || s[i + 1] != '-'
  }

  /** The line up to its first `--`, or all of it. */
  function BeforeDashes(line: string): (r: string)
    ensures r <= line && NoDashes(r)
    ensures r != line ==> "--" <= line[|r|..]
  {
    if line == "" || "--" <= line then "" else [line[0]] + BeforeDashes(line[1..])
  }

  predicate FullComment(line: string) {
    "--" <= Strip(line)
  }

  function KeptLines(lines: seq<string>): seq<string> {
    if lines == [] then []
    else if FullComment(lines[0]) then KeptLines(lines[1..])
    else [BeforeDashes(lines[0])] + KeptLines(lines[1..])
  }

  lemma KeptLinesSnoc(lines: seq<string>, i: nat)
    requires i < |lines|
    ensures KeptLines(lines[..i + 1])
         == KeptLines(lines[..i]) + (if FullComment(lines[i]) then [] else [BeforeDashes(lines[i])])
  {
    hide FullComment, BeforeDashes;
    assert lines[..i + 1] == lines[..i] + [lines[i]];
    KeptLinesConcat(lines[..i], [lines[i]]);
    assert KeptLines([]) == [];
  }

  function Cleaned(text: string): string {
    Join(KeptLines(Split(text, '\n')), "\n")
  }

  function Statements(segments: seq<string>): seq<string> {
    if segments == [] then []
    else
      var s := Strip(segments[0]);
      (if s != "" then [s] else []) + Statements(segments[1..])
  }

  function Parse(text: string): seq<string> {
    Statements(Split(Cleaned(text), ';'))
  }

  /** The loop of the source that appends the lines it keeps. */
  method KeepLines(lines: seq<string>) returns (kept: seq<string>)
    ensures kept == KeptLines(lines)
  {
    kept := [];
    for i := 0 to |lines|
      invariant kept == KeptLines(lines[..i])
    {
      var line := lines[i];
      KeptLinesSnoc(lines, i);
      if FullComment(line) {
        continue;
      }
      line := BeforeDashes(line);
      kept := kept + [line];
    }
    assert lines[..|lines|] == lines;
  }

  method ParseScript(text: string) returns (statements: seq<string>)
    ensures statements == Parse(text)
  {
    var kept := KeepLines(Split(text, '\n'));
    statements := Statements(Split(Join(kept, "\n"), ';'));
  }

  // ---------- The reference: a one-pass scanner ----------

  function Closed(word: string, statement: seq<string>): seq<string> {
    if word == "" then statement else statement + [word]
  }

  function Emit(statement: seq<string>): seq<seq<string>> {
    if statement == [] then [] else [statement]
  }

  /**
    Reads the text one character at a time. `inComment` is the only mode; `word` is the word being read,
    `statement` the words of the statement being read. The result is the list of statements, each as its words.
   */
  function Scan(s: string, inComment: bool, word: string, statement: seq<string>): seq<seq<string>> {
    var closed := Closed(word, statement);
    if s == "" then Emit(closed)
    else if inComment then
      if s[0] == '\n' then Scan(s[1..], false, "", closed) else Scan(s[1..], true, word, statement)
    else if "--" <= s then Scan(s[2..], true, word, statement)
    else if s[0] == ';' then Emit(closed) + Scan(s[1..], false, "", [])
    else if IsSpace(s[0]) then Scan(s[1..], false, "", closed)
    else Scan(s[1..], false, word + [s[0]], statement)
  }

  /** Python's `s.split()`: the maximal runs of non-blank characters. */
  function Words(s: string): seq<string> {
    if s == "" then []
    else if IsSpace(s[0]) then Words(s[1..])
    else [s[..WordLength(s, false)]] + Words(s[WordLength(s, false)..])
  }

  function AllWords(statements: seq<string>): seq<seq<string>> {
    seq(|statements|, i requires 0 <= i < |statements| => Words(statements[i]))
  }

  /** The line-based splitter and the scanner read the same statements, word for word, from every text. */
  lemma {:induction false} SplitterRefinesScanner(text: string)
    ensures AllWords(Parse(text)) == Scan(text, false, "", [])
  {
    SplitterTokens(text);
    ScannerTokens(text);
    CommentLinesHaveNoTokens(Split(text, '\n'));
  }

  lemma SplitterTokens(text: string)
    ensures AllWords(Parse(text)) == Group(LineTokens(KeptLines(Split(text, '\n'))), [])
  {
    hide IsSpace, Strip, Tokens, Group, Trimmed;
    JoinSplit(Cleaned(text), ';');
    StatementsAreGroups(Split(Cleaned(text), ';'));
    TokensOfLines(KeptLines(Split(text, '\n')));
  }

  lemma ScannerTokens(text: string)
    ensures Scan(text, false, "", []) == Group(LineTokens(CutLines(Split(text, '\n'))), [])
  {
    hide IsSpace, Tokens, Group, Scan, BeforeDashes;
    var lines := Split(text, '\n');
    ScanIsGroup(text, false, "", []);
    StrippedByLine(text, false);
    assert CutFrom(text, false) == CutLines(lines);
    assert "" + Stripped(text, false) == Stripped(text, false);
    TokensOfLines(CutLines(lines));
  }

  // ---------- The printer ----------

  /** What the splitter can return: trimmed, non-empty statements without `;` and without `--`. */
  predicate WellFormed(statements: seq<string>) {
    forall i :: 0 <= i < |statements| ==>
      && statements[i] != "" && Trimmed(statements[i])
      && ';' !in statements[i] && NoDashes(statements[i])
  }

  function Print(statements: seq<string>): string {
    Join(statements, ";\n")
  }

  lemma ParsedIsWellFormed(text: string)
    ensures WellFormed(Parse(text))
  {
    KeptLinesNoDashes(Split(text, '\n'));
    JoinNoDashes(KeptLines(Split(text, '\n')), "\n");
    SplitNoDashes(Cleaned(text), ';');
    StatementsWellFormed(Split(Cleaned(text), ';'));
  }

  /** Printing and parsing again gives the same statements, exactly. */
  lemma {:induction false} ParsePrint(statements: seq<string>)
    requires WellFormed(statements)
    ensures Parse(Print(statements)) == statements
  {
    var text := Print(statements);
    JoinNoDashes(statements, ";\n");
    NoCommentsKept(text);
    if statements != [] {
      SplitPrinted("", statements);
      assert "" + text == text;
    }
  }

  /** The well-formed lists are exactly the lists some text parses to. */
  lemma ParseImage(statements: seq<string>)
    ensures WellFormed(statements) <==> exists text :: Parse(text) == statements
  {
    if WellFormed(statements) {
      ParsePrint(statements);
    }
    if text :| Parse(text) == statements {
      ParsedIsWellFormed(text);
    }
  }

  /** Two scripts put together with a `;` line between them parse to their statements in order. */
  lemma {:induction false} ParseConcat(a: string, b: string)
    ensures Parse(a + "\n;\n" + b) == Parse(a) + Parse(b)
  {
    hide IsSpace, Strip, Trimmed;
    var ka, kb := KeptLines(Split(a, '\n')), KeptLines(Split(b, '\n'));
    CleanedConcat(a, b);
    SplitAt(LinesThenBreak(ka), BreakThenLines(kb), ';');
    StatementsConcat(Split(LinesThenBreak(ka), ';'), Split(BreakThenLines(kb), ';'));
    TrailingNewline(Join(ka, "\n"));
    LeadingNewline(Join(kb, "\n"));
  }

  /** A full-line comment may stand anywhere between two lines. */
  lemma CommentLineIgnored(a: string, comment: string, b: string)
    requires '\n' !in comment && "--" <= Strip(comment)
    ensures Parse(a + "\n" + comment + "\n" + b) == Parse(a + "\n" + b)
  {
    hide Parse, Strip;
    FullCommentIgnored(a, comment, b);
  }

  lemma {:induction false} FullCommentIgnored(a: string, comment: string, b: string)
    requires '\n' !in comment && FullComment(comment)
    ensures Parse(a + "\n" + comment + "\n" + b) == Parse(a + "\n" + b)
  {
    hide IsSpace, FullComment, BeforeDashes, Split;
    var la, lb := Split(a, '\n'), Split(b, '\n');
    assert Split(a + "\n" + b, '\n') == la + lb by {
      SplitAt(a, b, '\n');
    }
    assert Split(a + "\n" + comment + "\n" + b, '\n') == la + [comment] + lb by {
      SplitAt(a + "\n" + comment, b, '\n');
      SplitAt(a, comment, '\n');
      SplitNone(comment, '\n');
    }
    assert KeptLines(la + [comment] + lb) == KeptLines(la + lb) by {
      KeptLinesConcat(la, lb);
      KeptLinesConcat(la + [comment], lb);
      KeptLinesConcat(la, [comment]);
    }
  }

  // ---------- Tokens: what both readers agree on ----------

  datatype Token = Word(text: string) | Semicolon

  function WordLength(s: string, stopAtSemicolon: bool): (n: nat)
    ensures n <= |s| && (s != "" && !IsSpace(s[0]) && (stopAtSemicolon ==> s[0] != ';') ==> n > 0)
  {
    if s == "" || IsSpace(s[0]) || (stopAtSemicolon && s[0] == ';') then 0
    else 1 + WordLength(s[1..], stopAtSemicolon)
  }

  function Tokens(s: string): seq<Token> {
    if s == "" then []
    else if IsSpace(s[0]) then Tokens(s[1..])
    else if s[0] == ';' then [Semicolon] + Tokens(s[1..])
    else [Word(s[..WordLength(s, true)])] + Tokens(s[WordLength(s, true)..])
  }

  /** The statements a token list stands for, the first of them continuing `statement`. */
  function Group(tokens: seq<Token>, statement: seq<string>): seq<seq<string>> {
    if tokens == [] then Emit(statement)
    else match tokens[0]
      case Word(w) => Group(tokens[1..], statement + [w])
      case Semicolon => Emit(statement) + Group(tokens[1..], [])
  }

  predicate Breaks(s: string) {
    s == "" || IsSpace(s[0]) || s[0] == ';'
  }

  lemma {:induction false} WordLengthConcat(a: string, b: string)
    requires Breaks(b)
    ensures WordLength(a + b, true) == WordLength(a, true)
  {
    if a == "" {
      assert a + b == b;
    } else {
      assert (a + b)[1..] == a[1..] + b;
      WordLengthConcat(a[1..], b);
    }
  }

  lemma {:induction false} TokensConcat(a: string, b: string)
    requires Breaks(b)
    ensures Tokens(a + b) == Tokens(a) + Tokens(b)
    decreases |a|
  {
    hide IsSpace;
    if a == "" {
      assert a + b == b;
    } else if IsSpace(a[0]) || a[0] == ';' {
      assert (a + b)[1..] == a[1..] + b;
      TokensConcat(a[1..], b);
    } else {
      var n := WordLength(a, true);
      WordLengthConcat(a, b);
      assert (a + b)[..n] == a[..n] && (a + b)[n..] == a[n..] + b;
      TokensConcat(a[n..], b);
    }
  }

  lemma {:induction false} BlankHasNoTokens(s: string)
    requires Blank(s)
    ensures Tokens(s) == []
  {
    if s != "" {
      assert forall i :: 0 <= i < |s[1..]| ==> s[1..][i] == s[i + 1];
      BlankHasNoTokens(s[1..]);
    }
  }

  lemma {:induction false} LeadingBlankTokens(lead: string, s: string)
    requires Blank(lead)
    ensures Tokens(lead + s) == Tokens(s)
  {
    if lead == "" {
      assert lead + s == s;
    } else {
      assert (lead + s)[1..] == lead[1..] + s;
      LeadingBlankTokens(lead[1..], s);
    }
  }

  lemma StripKeepsTokens(s: string)
    ensures Tokens(Strip(s)) == Tokens(s)
  {
    hide IsSpace, Strip, Tokens;
    var i, j := StripTakesBlanks(s);
    assert s == s[..i] + (s[i..j] + s[j..]);
    LeadingBlankTokens(s[..i], s[i..j] + s[j..]);
    assert Breaks(s[j..]) by {
      if s[j..] != "" {
        assert IsSpace(s[j..][0]);
      }
    }
    TokensConcat(s[i..j], s[j..]);
    BlankHasNoTokens(s[j..]);
  }

  function AsTokens(words: seq<string>): seq<Token> {
    seq(|words|, i requires 0 <= i < |words| => Word(words[i]))
  }

  lemma {:induction false} WordLengthAgrees(s: string)
    requires ';' !in s
    ensures WordLength(s, true) == WordLength(s, false)
  {
    if s != "" {
      WordLengthAgrees(s[1..]);
    }
  }

  lemma {:induction false} TokensOfWords(s: string)
    requires ';' !in s
    ensures Tokens(s) == AsTokens(Words(s))
    decreases |s|
  {
    hide IsSpace;
    if s != "" {
      if IsSpace(s[0]) {
        TokensOfWords(s[1..]);
      } else {
        WordLengthAgrees(s);
        TokensOfWords(s[WordLength(s, false)..]);
      }
    }
  }

  // ---------- The splitter in tokens ----------

  lemma {:induction false} GroupWords(words: seq<string>, rest: seq<Token>, statement: seq<string>)
    ensures Group(AsTokens(words) + rest, statement) == Group(rest, statement + words)
  {
    if words == [] {
      assert AsTokens(words) + rest == rest && statement + words == statement;
    } else {
      assert (AsTokens(words) + rest)[1..] == AsTokens(words[1..]) + rest;
      GroupWords(words[1..], rest, statement + [words[0]]);
      assert statement + [words[0]] + words[1..] == statement + words;
    }
  }

  lemma WordsOfStrip(x: string)
    requires ';' !in x
    ensures Words(Strip(x)) == Words(x)
    ensures Strip(x) == "" <==> Words(x) == []
  {
    var i, j := StripTakesBlanks(x);
    StripKeepsTokens(x);
    TokensOfWords(x);
    TokensOfWords(Strip(x));
    AsTokensInjective(Words(x), Words(Strip(x)));
    assert Strip(x) != "" ==> Words(Strip(x)) != [];
  }

  lemma AsTokensInjective(a: seq<string>, b: seq<string>)
    requires AsTokens(a) == AsTokens(b)
    ensures a == b
  {
    assert |a| == |AsTokens(a)| == |b|;
    forall k | 0 <= k < |a| ensures a[k] == b[k] {
      assert AsTokens(a)[k] == AsTokens(b)[k];
    }
  }

  lemma GroupSegment(x: string, rest: string)
    requires ';' !in x
    ensures Group(Tokens(x), []) == Emit(Words(x))
    ensures Group(Tokens(x + ";" + rest), []) == Emit(Words(x)) + Group(Tokens(rest), [])
  {
    var tail := Tokens(rest);
    TokensOfWords(x);
    GroupWords(Words(x), [], []);
    GroupWords(Words(x), [Semicolon] + tail, []);
    assert [] + Words(x) == Words(x) && AsTokens(Words(x)) + [] == AsTokens(Words(x));
    assert x + ";" + rest == x + (";" + rest);
    TokensConcat(x, ";" + rest);
    assert (";" + rest)[1..] == rest && ([Semicolon] + tail)[1..] == tail;
  }

  lemma {:induction false} StatementsAreGroups(segments: seq<string>)
    requires segments != [] && forall i :: 0 <= i < |segments| ==> ';' !in segments[i]
    ensures AllWords(Statements(segments)) == Group(Tokens(Join(segments, ";")), [])
  {
    hide IsSpace, Strip, Trimmed, Tokens, Words, Group;
    var x, rest := segments[0], segments[1..];
    WordsOfStrip(x);
    GroupSegment(x, Join(rest, ";"));
    if rest == [] {
      assert Statements(rest) == [];
    } else {
      StatementsAreGroups(rest);
    }
    var first := if Strip(x) != "" then [Strip(x)] else [];
    assert Statements(segments) == first + Statements(rest);
    assert AllWords(first) == Emit(Words(x));
    assert AllWords(first + Statements(rest)) == AllWords(first) + AllWords(Statements(rest));
  }

  function CutLines(lines: seq<string>): seq<string> {
    seq(|lines|, i requires 0 <= i < |lines| => BeforeDashes(lines[i]))
  }

  function LineTokens(lines: seq<string>): seq<Token> {
    if lines == [] then [] else Tokens(lines[0]) + LineTokens(lines[1..])
  }

  lemma {:induction false} TokensOfLines(lines: seq<string>)
    ensures Tokens(Join(lines, "\n")) == LineTokens(lines)
  {
    if |lines| == 1 {
      assert LineTokens(lines[1..]) == [];
    } else if lines != [] {
      var rest := Join(lines[1..], "\n");
      assert lines[0] + "\n" + rest == lines[0] + ("\n" + rest);
      TokensConcat(lines[0], "\n" + rest);
      assert ("\n" + rest)[1..] == rest;
      TokensOfLines(lines[1..]);
    }
  }

  lemma {:induction false} CutBefore(line: string, i: nat)
    requires i + 2 <= |line| && line[i] == '-' && line[i + 1] == '-'
    ensures |BeforeDashes(line)| <= i
  {
    if !("--" <= line) {
      CutBefore(line[1..], i - 1);
    }
  }

  lemma FullCommentCutsToBlank(line: string)
    requires FullComment(line)
    ensures Blank(BeforeDashes(line))
  {
    var i, j := StripTakesBlanks(line);
    assert line[i] == Strip(line)[0] && line[i + 1] == Strip(line)[1];
    CutBefore(line, i);
    forall k | 0 <= k < |BeforeDashes(line)| ensures IsSpace(BeforeDashes(line)[k]) {
      assert BeforeDashes(line)[k] == line[..i][k];
    }
  }

  lemma {:induction false} CommentLinesHaveNoTokens(lines: seq<string>)
    ensures LineTokens(KeptLines(lines)) == LineTokens(CutLines(lines))
  {
    hide IsSpace, Strip, Trimmed, Tokens;
    if lines != [] {
      CommentLinesHaveNoTokens(lines[1..]);
      assert CutLines(lines)[1..] == CutLines(lines[1..]);
      if FullComment(lines[0]) {
        FullCommentCutsToBlank(lines[0]);
        BlankHasNoTokens(BeforeDashes(lines[0]));
      }
    }
  }

  // ---------- The scanner in tokens ----------

  /** The text with every comment taken out, its line break kept. */
  function Stripped(s: string, inComment: bool): string {
    if s == "" then ""
    else if inComment then
      if s[0] == '\n' then "\n" + Stripped(s[1..], false) else Stripped(s[1..], true)
    else if "--" <= s then Stripped(s[2..], true)
    else [s[0]] + Stripped(s[1..], false)
  }

  predicate WordPart(word: string) {
    forall i :: 0 <= i < |word| ==> !IsSpace(word[i]) && word[i] != ';'
  }

  lemma {:induction false} WordPartLength(word: string)
    requires WordPart(word)
    ensures WordLength(word, true) == |word|
    ensures Tokens(word) == if word == "" then [] else [Word(word)]
  {
    if word != "" {
      assert forall i :: 0 <= i < |word[1..]| ==> word[1..][i] == word[i + 1];
      WordPartLength(word[1..]);
      assert word[..|word|] == word && word[|word|..] == "";
    }
  }

  lemma GroupWordThen(word: string, rest: string, statement: seq<string>)
    requires WordPart(word) && Breaks(rest)
    ensures Group(Tokens(word + rest), statement) == Group(Tokens(rest), Closed(word, statement))
  {
    WordPartLength(word);
    TokensConcat(word, rest);
    if word == "" {
      assert Tokens(word) + Tokens(rest) == Tokens(rest);
    } else {
      assert ([Word(word)] + Tokens(rest))[1..] == Tokens(rest);
    }
  }

  /** A blank closes the word; a semicolon closes the statement as well. */
  lemma GroupAtBreak(word: string, c: char, rest: string, statement: seq<string>)
    requires WordPart(word) && (IsSpace(c) || c == ';')
    ensures IsSpace(c) ==> Group(Tokens(word + ([c] + rest)), statement) == Group(Tokens(rest), Closed(word, statement))
    ensures c == ';' ==>
              Group(Tokens(word + ([c] + rest)), statement) == Emit(Closed(word, statement)) + Group(Tokens(rest), [])
  {
    GroupWordThen(word, [c] + rest, statement);
    assert ([c] + rest)[1..] == rest;
    if c == ';' {
      assert ([Semicolon] + Tokens(rest))[1..] == Tokens(rest);
    }
  }

  lemma {:induction false} ScanIsGroup(s: string, inComment: bool, word: string, statement: seq<string>)
    requires WordPart(word)
    ensures Scan(s, inComment, word, statement) == Group(Tokens(word + Stripped(s, inComment)), statement)
    decreases |s|
  {
    if s == "" {
      GroupWordThen(word, "", statement);
    } else if inComment && s[0] != '\n' {
      ScanIsGroup(s[1..], true, word, statement);
    } else if !inComment && "--" <= s {
      ScanIsGroup(s[2..], true, word, statement);
    } else {
      var rest := Stripped(s[1..], false);
      if IsSpace(s[0]) || s[0] == ';' {
        GroupAtBreak(word, s[0], rest, statement);
        assert "" + rest == rest;
        ScanIsGroup(s[1..], false, "", if s[0] == ';' then [] else Closed(word, statement));
      } else {
        assert word + ([s[0]] + rest) == word + [s[0]] + rest;
        ScanIsGroup(s[1..], false, word + [s[0]], statement);
      }
    }
  }

  /** The lines left when the first of them is read from the given mode. */
  function CutFrom(s: string, inComment: bool): seq<string> {
    var lines := Split(s, '\n');
    [if inComment then "" else BeforeDashes(lines[0])] + CutLines(lines[1..])
  }

  /** Taking comments out character by character is cutting every line at its `--`. */
  lemma {:induction false} StrippedByLine(s: string, inComment: bool)
    ensures Stripped(s, inComment) == Join(CutFrom(s, inComment), "\n")
    decreases |s|
  {
    if s != "" {
      hide CutFrom;
      CutFromStep(s, inComment);
      if s[0] == '\n' {
        StrippedByLine(s[1..], false);
        assert ([""] + CutFrom(s[1..], false))[1..] == CutFrom(s[1..], false);
      } else if inComment {
        StrippedByLine(s[1..], true);
      } else if "--" <= s {
        StrippedByLine(s[2..], true);
      } else {
        StrippedByLine(s[1..], false);
        var rest := CutFrom(s[1..], false);
        assert rest == [rest[0]] + rest[1..];
        PrependToJoin([s[0]], rest[0], rest[1..]);
      }
    }
  }

  lemma CutFromStep(s: string, inComment: bool)
    requires s != ""
    ensures s[0] == '\n' ==> CutFrom(s, inComment) == [""] + CutFrom(s[1..], false)
    ensures s[0] != '\n' && inComment ==> CutFrom(s, true) == CutFrom(s[1..], true)
    ensures "--" <= s ==> CutFrom(s, false) == CutFrom(s[2..], true)
    ensures s[0] != '\n' && !("--" <= s) ==>
              CutFrom(s, false) == [[s[0]] + CutFrom(s[1..], false)[0]] + CutFrom(s[1..], false)[1..]
  {
    var lines, next := Split(s, '\n'), Split(s[1..], '\n');
    if s[0] == '\n' {
      assert lines[1..] == next;
      assert CutLines(next) == [BeforeDashes(next[0])] + CutLines(next[1..]);
    } else {
      assert lines[0] == [s[0]] + next[0] && lines[1..] == next[1..];
      FirstLineHead(s[1..]);
      if "--" <= s {
        assert s[1..][1..] == s[2..];
        assert next[1..] == Split(s[2..], '\n')[1..];
        assert "--" <= lines[0];
      } else {
        assert lines[0][1..] == next[0];
        assert !("--" <= lines[0]);
      }
    }
  }

  lemma FirstLineHead(s: string)
    ensures Split(s, '\n')[0] != "" ==> s != "" && s[0] == Split(s, '\n')[0][0]
  {
  }

  lemma PrependToJoin(c: string, first: string, rest: seq<string>)
    ensures c + Join([first] + rest, "\n") == Join([c + first] + rest, "\n")
  {
    if rest != [] {
      assert ([first] + rest)[1..] == rest && ([c + first] + rest)[1..] == rest;
    }
  }

  // ---------- Well-formedness ----------

  lemma {:induction false} KeptLinesNoDashes(lines: seq<string>)
    ensures forall i :: 0 <= i < |KeptLines(lines)| ==> NoDashes(KeptLines(lines)[i])
  {
    if lines != [] {
      KeptLinesNoDashes(lines[1..]);
    }
  }

  lemma {:induction false} JoinNoDashes(parts: seq<string>, sep: string)
    requires sep == "\n" || sep == ";\n"
    requires forall i :: 0 <= i < |parts| ==> NoDashes(parts[i])
    ensures NoDashes(Join(parts, sep))
  {
    if |parts| > 1 {
      JoinNoDashes(parts[1..], sep);
    }
  }

  lemma {:induction false} SplitNoDashes(s: string, sep: char)
    requires NoDashes(s)
    ensures forall i :: 0 <= i < |Split(s, sep)| ==> NoDashes(Split(s, sep)[i])
  {
    if s != "" {
      var rest := Split(s[1..], sep);
      SplitNoDashes(s[1..], sep);
      if s[0] != sep {
        assert rest[0] != "" ==> s[1] == rest[0][0];
      }
    }
  }

  lemma {:induction false} StatementsWellFormed(segments: seq<string>)
    requires forall i :: 0 <= i < |segments| ==> ';' !in segments[i] && NoDashes(segments[i])
    ensures WellFormed(Statements(segments))
  {
    hide IsSpace, LeadingBlanks, ContentEnd, Strip, Trimmed;
    if segments != [] {
      var i, j := StripTakesBlanks(segments[0]);
      var x := Strip(segments[0]);
      assert NoDashes(x) by {
        assert forall k :: 0 <= k < |x| ==> x[k] == segments[0][i + k];
      }
      assert ';' !in x;
      StatementsWellFormed(segments[1..]);
    }
  }

  lemma SuffixNoDashes(line: string, i: nat, j: nat)
    requires NoDashes(line) && i <= j <= |line|
    ensures !("--" <= line[i..j])
  {
    if i + 2 <= j {
      assert line[i..j][0] == line[i] && line[i..j][1] == line[i + 1];
    }
  }

  lemma {:induction false} NoDashesUncut(line: string)
    requires NoDashes(line)
    ensures BeforeDashes(line) == line && !FullComment(line)
  {
    var i, j := StripTakesBlanks(line);
    var r := BeforeDashes(line);
    assert !("--" <= line[|r|..]) by {
      SuffixNoDashes(line, |r|, |line|);
    }
    SuffixNoDashes(line, i, j);
  }

  lemma {:induction false} UncutLines(lines: seq<string>)
    requires forall i :: 0 <= i < |lines| ==> NoDashes(lines[i])
    ensures KeptLines(lines) == lines
  {
    hide FullComment, BeforeDashes;
    if lines != [] {
      NoDashesUncut(lines[0]);
      UncutLines(lines[1..]);
    }
  }

  lemma NoCommentsKept(text: string)
    requires NoDashes(text)
    ensures Cleaned(text) == text
  {
    SplitNoDashes(text, '\n');
    UncutLines(Split(text, '\n'));
    JoinSplit(text, '\n');
  }

  // ---------- Lists of segments ----------

  lemma {:induction false} KeptLinesConcat(a: seq<string>, b: seq<string>)
    ensures KeptLines(a + b) == KeptLines(a) + KeptLines(b)
  {
    hide FullComment, BeforeDashes;
    if a == [] {
      assert a + b == b;
    } else {
      assert (a + b)[1..] == a[1..] + b;
      KeptLinesConcat(a[1..], b);
    }
  }

  function LinesThenBreak(lines: seq<string>): string {
    if lines == [] then "" else Join(lines, "\n") + "\n"
  }

  function BreakThenLines(lines: seq<string>): string {
    if lines == [] then "" else "\n" + Join(lines, "\n")
  }

  lemma JoinAfterSemicolon(kb: seq<string>)
    ensures Join([";"] + kb, "\n") == ";" + BreakThenLines(kb)
  {
    if kb == [] {
      assert [";"] + kb == [";"];
    } else {
      JoinConcat([";"], kb, "\n");
    }
  }

  lemma JoinAround(ka: seq<string>, kb: seq<string>)
    ensures Join(ka + ([";"] + kb), "\n") == LinesThenBreak(ka) + [';'] + BreakThenLines(kb)
  {
    hide Join, BreakThenLines;
    JoinAfterSemicolon(kb);
    if ka == [] {
      assert ka + ([";"] + kb) == [";"] + kb;
    } else {
      JoinConcat(ka, [";"] + kb, "\n");
      assert ";" + BreakThenLines(kb) == [';'] + BreakThenLines(kb);
    }
  }

  lemma LoneSemicolonKept()
    ensures KeptLines([";"]) == [";"] && Split(";", '\n') == [";"]
  {
    SplitNone(";", '\n');
    NoDashesUncut(";");
    UncutLines([";"]);
  }

  lemma LinesAround(a: string, b: string)
    ensures Split(a + "\n;\n" + b, '\n') == Split(a, '\n') + ([";"] + Split(b, '\n'))
  {
    assert a + "\n;\n" + b == a + ['\n'] + (";" + ['\n'] + b);
    SplitAt(a, ";" + ['\n'] + b, '\n');
    SplitAt(";", b, '\n');
    LoneSemicolonKept();
  }

  lemma CleanedConcat(a: string, b: string)
    ensures Cleaned(a + "\n;\n" + b)
         == LinesThenBreak(KeptLines(Split(a, '\n'))) + [';'] + BreakThenLines(KeptLines(Split(b, '\n')))
  {
    hide FullComment, BeforeDashes, Split, Join;
    var la, lb := Split(a, '\n'), Split(b, '\n');
    LinesAround(a, b);
    KeptLinesConcat(la, [";"] + lb);
    KeptLinesConcat([";"], lb);
    LoneSemicolonKept();
    JoinAround(KeptLines(la), KeptLines(lb));
  }

  lemma {:induction false} StatementsConcat(a: seq<string>, b: seq<string>)
    ensures Statements(a + b) == Statements(a) + Statements(b)
  {
    hide IsSpace, Strip, Trimmed;
    if a == [] {
      assert a + b == b;
    } else {
      assert (a + b)[1..] == a[1..] + b;
      StatementsConcat(a[1..], b);
    }
  }

  lemma StripIs(t: string, i: nat, j: nat)
    requires i < j <= |t| && !IsSpace(t[i]) && !IsSpace(t[j - 1])
    requires (forall k :: 0 <= k < i ==> IsSpace(t[k])) && (forall k :: j <= k < |t| ==> IsSpace(t[k]))
    ensures Strip(t) == t[i..j]
  {
    hide IsSpace;
    assert LeadingBlanks(t) == i;
    assert ContentEnd(t) == j;
  }

  lemma NewlineIsBlank()
    ensures IsSpace('\n') && Blank("") && Blank("\n")
  {
  }

  /** Blanks around a string do not matter to `strip`. */
  lemma StripPadded(lead: string, s: string, tail: string)
    requires Blank(lead) && Blank(tail)
    ensures Strip(lead + s + tail) == Strip(s)
  {
    hide IsSpace, Strip;
    var t := lead + s + tail;
    if Blank(s) {
      assert Blank(t);
    } else {
      var i, j := LeadingBlanks(s), ContentEnd(s);
      StripIs(s, i, j);
      assert t[|lead| + i] == s[i] && t[|lead| + j - 1] == s[j - 1];
      assert forall k :: |lead| + j <= k < |lead| + |s| ==> t[k] == s[k - |lead|];
      StripIs(t, |lead| + i, |lead| + j);
      assert t[|lead| + i..|lead| + j] == s[i..j];
    }
  }

  lemma {:induction false} SplitPrinted(lead: string, statements: seq<string>)
    requires WellFormed(statements) && statements != []
    requires lead == "" || lead == "\n"
    ensures Statements(Split(lead + Print(statements), ';')) == statements
    decreases |statements|
  {
    hide IsSpace, Strip, Trimmed, Statements;
    NewlineIsBlank();
    NewlineIsBlank();
    var x, rest := statements[0], statements[1..];
    PaddedStatement(lead, x);
    if rest == [] {
      SplitNone(lead + x, ';');
    } else {
      var tail := "\n" + Print(rest);
      PrintStep(lead, statements);
      SplitAt(lead + x, tail, ';');
      SplitPrinted("\n", rest);
      StatementsConcat([lead + x], Split(tail, ';'));
      SplitNone(lead + x, ';');
    }
    assert [x] + rest == statements;
  }

  lemma PrintStep(lead: string, statements: seq<string>)
    requires |statements| > 1
    ensures lead + Print(statements) == lead + statements[0] + [';'] + ("\n" + Print(statements[1..]))
  {
  }

  lemma PaddedStatement(lead: string, x: string)
    requires Blank(lead) && Trimmed(x) && x != ""
    ensures Statements([lead + x]) == [x]
  {
    hide IsSpace, Strip;
    var i, j := StripTakesBlanks(x);
    StripPadded(lead, x, "");
    assert lead + x + "" == lead + x;
  }

  lemma LeadingNewline(s: string)
    ensures Statements(Split("\n" + s, ';')) == Statements(Split(s, ';'))
  {
    hide IsSpace, Strip, Blank;
    NewlineIsBlank();
    var parts := Split(s, ';');
    assert ("\n" + s)[1..] == s;
    StripPadded("\n", parts[0], "");
    assert "\n" + parts[0] + "" == "\n" + parts[0];
    assert Split("\n" + s, ';')[1..] == parts[1..];
  }

  lemma {:induction false} TrailingNewline(s: string)
    ensures Statements(Split(s + "\n", ';')) == Statements(Split(s, ';'))
  {
    hide IsSpace, Strip, Split, Blank;
    NewlineIsBlank();
    SplitTrailing(s);
    var parts := Split(s, ';');
    var last := parts[|parts| - 1];
    assert parts == parts[..|parts| - 1] + [last];
    StatementsConcat(parts[..|parts| - 1], [last]);
    StatementsConcat(parts[..|parts| - 1], [last + "\n"]);
    StripPadded("", last, "\n");
    assert "" + last + "\n" == last + "\n";
  }

  lemma {:induction false} SplitTrailing(s: string)
    ensures var parts := Split(s, ';');
            Split(s + "\n", ';') == parts[..|parts| - 1] + [parts[|parts| - 1] + "\n"]
  {
    hide IsSpace;
    if s == "" {
      assert s + "\n" == "\n";
      assert Split("\n", ';') == ["\n"] by {
        SplitNone("\n", ';');
      }
    } else {
      assert (s + "\n")[1..] == s[1..] + "\n";
      SplitTrailing(s[1..]);
      var rest := Split(s[1..], ';');
      if |rest| == 1 && s[0] != ';' {
        assert [s[0]] + (rest[0] + "\n") == [s[0]] + rest[0] + "\n";
      }
    }
  }
}
