/**
 * The scanner of Scanner.cpp as pure functions: character classes, the keyword
 * table, the effect of one `scan_token` call (`Step`) and of the whole
 * `scan_tokens` loop (`ScanFrom`), with the properties those promise.
 * The imperative scanner in scanner.dfy is proved against these definitions.
 */
module Lexing {
  import opened Wrappers
  import opened Tokens

  // ---------------------------------------------------------------------------
  // Character classes (the C library's isdigit/isalpha/isalnum in the "C" locale)

  predicate IsDigit(c: char) { '0' <= c <= '9' }

  predicate IsAlpha(c: char) { 'a' <= c <= 'z' || 'A' <= c <= 'Z' }

  predicate IsAlphaNumeric(c: char) { IsAlpha(c) || IsDigit(c) }

  predicate NotNewline(c: char) { c != '\n' }

  predicate NotQuote(c: char) { c != '"' }

  // ---------------------------------------------------------------------------
  // The keyword table (Scanner.cpp, the static `keywords` map)

  const Keywords: map<string, TokenType> := map[
    "and" := And, "class" := Class, "else" := Else, "false" := False,
    "for" := For, "fun" := Fun, "if" := If, "nil" := Nil,
    "or" := Or, "print" := Print, "return" := Return, "super" := Super,
    "this" := This, "true" := True, "var" := Var, "while" := While
  ]

  /** The category of a scanned identifier: a keyword's own token, else IDENTIFIER. */
  function IdentifierKind(text: string): (k: TokenType)
    ensures k == Identifier <==> text !in Keywords
    ensures text in Keywords ==> k == Keywords[text]
  {
    if text in Keywords then Keywords[text] else Identifier
  }

  /** The table holds exactly the sixteen reserved words. */
  lemma ReservedWords()
    ensures Keywords.Keys == {"and", "class", "else", "false", "for", "fun", "if", "nil",
                              "or", "print", "return", "super", "this", "true", "var", "while"}
  {
  }

  /** The reserved word of a keyword token (the word is its name in lower case). */
  function KeywordWord(k: TokenType): string
  {
    match k
    case And => "and" case Class => "class" case Else => "else" case False => "false"
    case For => "for" case Fun => "fun" case If => "if" case Nil => "nil"
    case Or => "or" case Print => "print" case Return => "return" case Super => "super"
    case This => "this" case True => "true" case Var => "var" case While => "while"
    case _ => ""
  }

  /** Each reserved word is mapped to a keyword token whose own word it is. */
  lemma KeywordTable(w: string)
    requires w in Keywords
    ensures KeywordWord(Keywords[w]) == w
    ensures Keywords[w] !in {Identifier, EndOfFile}
  {
  }

  /** A reserved word is a non-empty run of letters, so it scans as one identifier. */
  lemma KeywordsAreWords(w: string)
    requires w in Keywords
    ensures |w| > 0 && forall k :: 0 <= k < |w| ==> IsAlpha(w[k])
  {
  }

  /** Distinct reserved words are scanned as distinct tokens. */
  lemma KeywordsDistinct(v: string, w: string)
    requires v in Keywords && w in Keywords && v != w
    ensures Keywords[v] != Keywords[w]
  {
    KeywordTable(v);
    KeywordTable(w);
  }

  // ---------------------------------------------------------------------------
  // Runs of characters, line counting, std::string::substr

  /**
   * The end of the maximal run of characters satisfying `inRun` that starts at
   * `i`: the first index at or after `i` whose character is not in the run, or
   * the end of the input.
   */
  function RunEnd(s: string, i: nat, inRun: char -> bool): (j: nat)
    requires i <= |s|
    ensures i <= j <= |s|
    ensures forall k :: i <= k < j ==> inRun(s[k])
    ensures j == |s| || !inRun(s[j])
    decreases |s| - i
  {
    if i == |s| || !inRun(s[i]) then i else RunEnd(s, i + 1, inRun)
  }

  /** A run is determined by its extent: any maximal run from `i` ends where `RunEnd` says. */
  lemma {:induction false} RunEndAt(s: string, i: nat, j: nat, inRun: char -> bool)
    requires i <= j <= |s|
    requires forall k :: i <= k < j ==> inRun(s[k])
    requires j == |s| || !inRun(s[j])
    ensures RunEnd(s, i, inRun) == j
    decreases j - i
  {
    if i < j {
      RunEndAt(s, i + 1, j, inRun);
    }
  }

  /** The number of newline characters in `s`. */
  function Newlines(s: string): nat
  {
    if s == [] then 0 else Newlines(s[..|s| - 1]) + (if s[|s| - 1] == '\n' then 1 else 0)
  }

  lemma {:induction false} NewlinesAppend(a: string, b: string)
    ensures Newlines(a + b) == Newlines(a) + Newlines(b)
    decreases |b|
  {
    if b == [] {
      assert a + b == a;
    } else {
      var b' := b[..|b| - 1];
      assert (a + b)[..|a + b| - 1] == a + b';
      NewlinesAppend(a, b');
    }
  }

  lemma {:induction false} NoNewlines(s: string)
    requires forall k :: 0 <= k < |s| ==> s[k] != '\n'
    ensures Newlines(s) == 0
    decreases |s|
  {
    if s != [] {
      NoNewlines(s[..|s| - 1]);
    }
  }

  /** Newlines of a slice grow by one character at a time. */
  lemma NewlinesExtend(s: string, a: nat, c: nat)
    requires a <= c < |s|
    ensures Newlines(s[a..c + 1]) == Newlines(s[a..c]) + (if s[c] == '\n' then 1 else 0)
  {
    assert s[a..c + 1][..c - a] == s[a..c];
  }

  /** `std::string::substr(pos, len)`: at most `len` characters starting at `pos`. */
  function Substr(s: string, pos: nat, len: nat): (r: string)
    requires pos <= |s|
    ensures |r| == if pos + len <= |s| then len else |s| - pos
    ensures r == s[pos..pos + |r|]
  {
    if pos + len <= |s| then s[pos..pos + len] else s[pos..]
  }

  /**
   * The literal of a string token as Scanner.cpp computes it:
   * `source.substr(start + 1, current - 2)`, whose second argument is a length
   * taken as if the string began at offset 0.
   */
  function StringLiteralAsWritten(s: string, start: nat, current: nat): (r: string)
    requires start + 2 <= current <= |s|
    ensures current - start - 2 <= |r| && r[..current - start - 2] == s[start + 1..current - 1]
    ensures |r| == current - start - 2 <==> start == 0
  {
    Substr(s, start + 1, current - 2)
  }

  /** The literal of a string token with the length argument `current - start - 2`. */
  function StringLiteral(s: string, start: nat, current: nat): string
    requires start + 2 <= current <= |s|
  {
    Substr(s, start + 1, current - start - 2)
  }

  /** The corrected literal is exactly the text between the quotes. */
  lemma StringLiteralIsContents(s: string, start: nat, current: nat)
    requires start + 2 <= current <= |s|
    ensures StringLiteral(s, start, current) == s[start + 1..current - 1]
  {
  }

  /** As written, the literal is the quoted text only for a string at offset 0. */
  lemma StringLiteralAsWrittenAtStart(s: string, current: nat)
    requires 2 <= current <= |s|
    ensures StringLiteralAsWritten(s, 0, current) == s[1..current - 1]
  {
  }

  /**
   * As written, the literal runs from after the opening quote for `current - 2`
   * characters, clipped at the end of the source: past the closing quote by
   * `start` characters, so it is the quoted text exactly when `start == 0`.
   */
  lemma StringLiteralAsWrittenText(s: string, start: nat, current: nat)
    requires start + 2 <= current <= |s|
    ensures var stop := if start + current - 1 <= |s| then start + current - 1 else |s|;
      StringLiteralAsWritten(s, start, current) == s[start + 1..stop]
    ensures StringLiteralAsWritten(s, start, current) == s[start + 1..current - 1] <==> start == 0
  {
    var r := StringLiteralAsWritten(s, start, current);
    if start > 0 {
      assert |r| != |s[start + 1..current - 1]|;
    }
  }

  /** As written, a string after one space keeps its closing quote: ` "a"` yields `a"`. */
  lemma StringLiteralAsWrittenOffByStart()
    ensures StringLiteralAsWritten(" \"a\"", 1, 4) == "a\""
    ensures StringLiteral(" \"a\"", 1, 4) == "a"
  {
    assert StringLiteralAsWritten(" \"a\"", 1, 4) == " \"a\""[2..4];
    assert StringLiteral(" \"a\"", 1, 4) == " \"a\""[2..3];
  }

  // ---------------------------------------------------------------------------
  // One call of scan_token

  datatype LexError = UnexpectedCharacter(line: nat) | UnterminatedString(line: nat)

  /**
   * The effect of one `scan_token` call that starts at `start` on line `line`:
   * the token added (if any), where `current` ends up, the new line count and
   * the error reported (if any).
   */
  datatype Lexed = Lexed(token: Option<Token>, end: nat, line: nat, error: Option<LexError>)

  /** A token whose lexeme is `s[start..end]`, added at `end`. */
  function Emit(s: string, start: nat, end: nat, kind: TokenType, literal: string, line: nat): Lexed
    requires start <= end <= |s|
  {
    Lexed(Some(Token(kind, s[start..end], literal, line)), end, line, None)
  }

  /** Where `number()` leaves `current` when called with `current == i`. */
  function NumberEnd(s: string, i: nat): (j: nat)
    requires i <= |s|
    ensures i <= j <= |s|
    ensures j == |s| || !IsDigit(s[j])
    ensures forall k :: i <= k < j ==> IsDigit(s[k]) || (s[k] == '.' && k + 1 < j)
    ensures forall k, k' :: i <= k < k' < j && s[k] == '.' ==> s[k'] != '.'
  {
    var whole := RunEnd(s, i, IsDigit);
    if whole + 1 < |s| && s[whole] == '.' && IsDigit(s[whole + 1])
    then RunEnd(s, whole + 1, IsDigit)
    else whole
  }

  /** `string()` after the opening quote at `start`. */
  function StringStep(s: string, start: nat, line: nat): (r: Lexed)
    requires start < |s|
    ensures start < r.end <= |s|
  {
    var close := RunEnd(s, start + 1, NotQuote);
    var line' := line + Newlines(s[start + 1..close]);
    if close == |s| then Lexed(None, close, line', Some(UnterminatedString(line')))
    else Emit(s, start, close + 1, String, StringLiteralAsWritten(s, start, close + 1), line')
  }

  /** The characters that always form a token of their own (the first ten cases of `scan_token`). */
  const SingleCharTokens: map<char, TokenType> := map[
    '(' := LeftParen, ')' := RightParen, '{' := LeftBrace, '}' := RightBrace,
    ',' := Comma, '.' := Dot, '-' := Minus, '+' := Plus, ';' := Semicolon, '*' := Star
  ]

  /** The characters that `match('=')` may extend, with their one- and two-character tokens. */
  const EqualSuffixTokens: map<char, (TokenType, TokenType)> := map[
    '!' := (Bang, BangEqual), '=' := (Equal, EqualEqual),
    '<' := (Less, LessEqual), '>' := (Greater, GreaterEqual)
  ]

  /** `number()` after the first digit at `start`. */
  function NumberStep(s: string, start: nat, line: nat): Lexed
    requires start < |s|
  {
    var e := NumberEnd(s, start + 1);
    Emit(s, start, e, Number, s[start..e], line)
  }

  /** `identifier()` after the first letter at `start`. */
  function IdentifierStep(s: string, start: nat, line: nat): Lexed
    requires start < |s|
  {
    var e := RunEnd(s, start + 1, IsAlphaNumeric);
    Emit(s, start, e, IdentifierKind(s[start..e]), "", line)
  }

  /** Where the comment loop leaves `current`, with `//` at `start`. */
  function CommentEnd(s: string, start: nat): (e: nat)
    requires start + 2 <= |s|
    ensures start + 2 <= e <= |s|
  {
    RunEnd(s, start + 2, NotNewline)
  }

  /** `scan_token` called with `start == current`. */
  function Step(s: string, start: nat, line: nat): (r: Lexed)
    requires start < |s|
    ensures start < r.end <= |s|
    ensures r.token.Some? ==> r.token.value.lexeme == s[start..r.end] && r.token.value.line == r.line
  {
    var c := s[start];
    var next := start + 1;
    if c in SingleCharTokens then Emit(s, start, next, SingleCharTokens[c], "", line)
    else if c in EqualSuffixTokens then
      if next < |s| && s[next] == '='
      then Emit(s, start, next + 1, EqualSuffixTokens[c].1, "", line)
      else Emit(s, start, next, EqualSuffixTokens[c].0, "", line)
    else if c == '/' then
      if next < |s| && s[next] == '/' then Lexed(None, CommentEnd(s, start), line, None)
      else Emit(s, start, next, Slash, "", line)
    else if c == ' ' || c == '\r' || c == '\t' then Lexed(None, next, line, None)
    else if c == '\n' then Lexed(None, next, line + 1, None)
    else if c == '"' then StringStep(s, start, line)
    else if IsDigit(c) then NumberStep(s, start, line)
    else if IsAlpha(c) then IdentifierStep(s, start, line)
    else Lexed(None, next, line, Some(UnexpectedCharacter(line)))
  }

  /** The two outcomes of a string step, spelled out. */
  lemma StringStepShape(s: string, start: nat, line: nat)
    requires start < |s|
    ensures var close := RunEnd(s, start + 1, NotQuote);
      var r := StringStep(s, start, line);
      && r.line == line + Newlines(s[start + 1..close])
      && (close == |s| ==> r == Lexed(None, close, r.line, Some(UnterminatedString(r.line))))
      && (close < |s| ==>
            r == Lexed(Some(Token(String, s[start..close + 1], StringLiteralAsWritten(s, start, close + 1), r.line)),
                       close + 1, r.line, None))
  {
  }

  lemma StringStepCountsLines(s: string, start: nat, line: nat)
    requires start < |s| && s[start] == '"'
    ensures StringStep(s, start, line).line == line + Newlines(s[start..StringStep(s, start, line).end])
  {
    var r := StringStep(s, start, line);
    var close := RunEnd(s, start + 1, NotQuote);
    var body := s[start + 1..close];
    var tail := s[close..r.end];
    assert s[start..r.end] == [s[start]] + body + tail;
    NewlinesAppend([s[start]] + body, tail);
    NewlinesAppend([s[start]], body);
    NoNewlines([s[start]]);
    NoNewlines(tail);
  }

  /** A step from any character but a quote or a newline consumes no newline. */
  lemma StepNoNewlines(s: string, start: nat, line: nat)
    requires start < |s| && s[start] != '"' && s[start] != '\n'
    ensures forall k :: start <= k < Step(s, start, line).end ==> s[k] != '\n'
    ensures Step(s, start, line).line == line
  {
    var c := s[start];
    if IsDigit(c) && c !in SingleCharTokens && c !in EqualSuffixTokens {
      NumberNoNewlines(s, start + 1);
    }
  }

  lemma NumberNoNewlines(s: string, i: nat)
    requires i <= |s|
    ensures forall k :: i <= k < NumberEnd(s, i) ==> s[k] != '\n'
  {
    var w := RunEnd(s, i, IsDigit);
    assert forall k :: i <= k < NumberEnd(s, i) ==> IsDigit(s[k]) || k == w;
  }

  /** Each newline consumed by a step, bare or inside a string, adds exactly one line. */
  lemma StepCountsLines(s: string, start: nat, line: nat)
    requires start < |s|
    ensures Step(s, start, line).line == line + Newlines(s[start..Step(s, start, line).end])
  {
    var c := s[start];
    var r := Step(s, start, line);
    if c == '"' {
      StepIsStringStep(s, start, line);
      StringStepCountsLines(s, start, line);
    } else if c == '\n' {
      assert r == Lexed(None, start + 1, line + 1, None);
      assert s[start..start + 1] == [c];
      assert s[start..start + 1][..0] == [];
    } else {
      StepNoNewlines(s, start, line);
      NoNewlines(s[start..r.end]);
    }
  }

  /** `!`, `=`, `<`, `>` form one two-character token with a following `=`, else a one-character token. */
  lemma StepOperators(s: string, start: nat, line: nat)
    requires start < |s| && s[start] in "!=<>"
    ensures var r := Step(s, start, line);
      && r.token.Some? && r.error == None && r.line == line
      && (if start + 1 < |s| && s[start + 1] == '='
          then r.end == start + 2 && r.token.value.kind in {BangEqual, EqualEqual, LessEqual, GreaterEqual}
          else r.end == start + 1 && r.token.value.kind in {Bang, Equal, Less, Greater})
  {
  }

  /** `//` runs up to, not including, the next newline (or the end) and adds nothing. */
  lemma StepComment(s: string, start: nat, line: nat)
    requires start + 1 < |s| && s[start] == '/' && s[start + 1] == '/'
    ensures var r := Step(s, start, line);
      && r.token == None && r.error == None && r.line == line
      && (r.end == |s| || s[r.end] == '\n')
      && forall k :: start <= k < r.end ==> s[k] != '\n'
  {
  }

  /** A `/` not followed by another `/` is a SLASH token of one character. */
  lemma StepSlash(s: string, start: nat, line: nat)
    requires start < |s| && s[start] == '/' && !(start + 1 < |s| && s[start + 1] == '/')
    ensures Step(s, start, line) == Lexed(Some(Token(Slash, "/", "", line)), start + 1, line, None)
  {
    assert s[start..start + 1] == "/";
  }

  /** Blanks add nothing; a newline adds nothing but one line. */
  lemma StepWhitespace(s: string, start: nat, line: nat)
    requires start < |s| && s[start] in " \r\t\n"
    ensures var r := Step(s, start, line);
      && r.token == None && r.error == None && r.end == start + 1
      && r.line == if s[start] == '\n' then line + 1 else line
  {
  }

  /**
   * What scanning a number from the digit at `start` yields: a maximal digit
   * run, extended by a `.` only when a digit follows it, as one NUMBER token
   * whose literal is its own text. At most one `.` is taken, so `1.2.3`
   * ends before its second `.`.
   */
  ghost predicate NumberScanned(s: string, start: nat, line: nat, r: Lexed)
  {
    && start < r.end <= |s|
    && r.token.Some? && r.error == None && r.line == line
    && r.token.value.kind == Number && r.token.value.literal == r.token.value.lexeme
    && (r.end == |s| || !IsDigit(s[r.end]))
    && !(r.end + 1 < |s| && s[r.end] == '.' && IsDigit(s[r.end + 1]) && forall k :: start <= k < r.end ==> IsDigit(s[k]))
    && (forall k :: start <= k < r.end ==> IsDigit(s[k]) || (s[k] == '.' && start < k && k + 1 < r.end))
    && forall k, k' :: start <= k < k' < r.end && s[k] == '.' ==> s[k'] != '.'
  }

  /** A digit starts a number literal. */
  lemma StepNumber(s: string, start: nat, line: nat)
    requires start < |s| && IsDigit(s[start])
    ensures NumberScanned(s, start, line, Step(s, start, line))
  {
    StepIsNumberStep(s, start, line);
    NumberStepScanned(s, start, line);
  }

  lemma StepIsNumberStep(s: string, start: nat, line: nat)
    requires start < |s| && IsDigit(s[start])
    ensures Step(s, start, line) == NumberStep(s, start, line)
  {
  }

  lemma NumberStepScanned(s: string, start: nat, line: nat)
    requires start < |s| && IsDigit(s[start])
    ensures NumberScanned(s, start, line, NumberStep(s, start, line))
  {
  }

  /** `NumberScanned` fixes where a number ends: at `NumberEnd`, as `number()` stops. */
  lemma NumberScannedEnd(s: string, start: nat, line: nat, r: Lexed)
    requires start < |s| && NumberScanned(s, start, line, r)
    ensures r.end == NumberEnd(s, start + 1)
  {
    if forall k :: start <= k < r.end ==> IsDigit(s[k]) {
      RunEndAt(s, start + 1, r.end, IsDigit);
    } else {
      var w :| start <= w < r.end && !IsDigit(s[w]);
      assert s[w] == '.' && start < w && w + 1 < r.end;
      forall k | start <= k < r.end && k != w
        ensures IsDigit(s[k])
      {
        if k < w { assert s[k] != '.'; } else { assert s[k] != '.'; }
      }
      RunEndAt(s, start + 1, w, IsDigit);
      RunEndAt(s, w + 1, r.end, IsDigit);
    }
  }

  /** `1.2.3` scans as the number `1.2`; the second `.` is left for the next step. */
  lemma StepNumberSecondDot()
    ensures Step("1.2.3", 0, 1) == Lexed(Some(Token(Number, "1.2", "1.2", 1)), 3, 1, None)
  {
    var s := "1.2.3";
    assert RunEnd(s, 1, IsDigit) == 1;
    assert RunEnd(s, 2, IsDigit) == 3;
    assert NumberEnd(s, 1) == 3;
    assert s[0..3] == "1.2";
  }

  /** `1.` scans as the number `1`; the dot is left for the next step. */
  lemma StepNumberTrailingDot()
    ensures Step("1.", 0, 1) == Lexed(Some(Token(Number, "1", "1", 1)), 1, 1, None)
    ensures Step("1.", 1, 1) == Lexed(Some(Token(Dot, ".", "", 1)), 2, 1, None)
  {
    var s := "1.";
    assert s[0] == '1' && s[1] == '.';
    assert RunEnd(s, 1, IsDigit) == 1;
    assert NumberEnd(s, 1) == 1;
    assert s[0..1] == "1" && s[1..2] == ".";
  }

  /** An identifier is a maximal alphanumeric run from a letter; table words become keywords. */
  lemma StepIdentifier(s: string, start: nat, line: nat)
    requires start < |s| && IsAlpha(s[start])
    ensures var r := Step(s, start, line);
      && r.token.Some? && r.error == None && r.line == line
      && (forall k :: start <= k < r.end ==> IsAlphaNumeric(s[k]))
      && (r.end == |s| || !IsAlphaNumeric(s[r.end]))
      && (r.token.value.kind == Identifier <==> s[start..r.end] !in Keywords)
      && (s[start..r.end] in Keywords ==> r.token.value.kind == Keywords[s[start..r.end]])
  {
  }

  /**
   * What scanning a string from the `"` at `start` yields: it runs to the next
   * `"`. Closed, it is one STRING token whose literal is the as-written
   * substring, which is the text between the quotes only for a string at
   * offset 0; unclosed, it adds no token and reports an error on the line
   * scanning stopped at.
   */
  ghost predicate StringScanned(s: string, start: nat, r: Lexed)
  {
    && start < r.end <= |s|
    && ((forall k :: start < k < |s| ==> s[k] != '"') <==> r.token == None)
    && (r.token == None ==> r.error == Some(UnterminatedString(r.line)) && r.end == |s|)
    && (r.token.Some? ==>
          && r.error == None && start + 2 <= r.end && s[r.end - 1] == '"'
          && (forall k :: start < k < r.end - 1 ==> s[k] != '"')
          && r.token.value.kind == String
          && r.token.value.literal == StringLiteralAsWritten(s, start, r.end)
          && (r.token.value.literal == s[start + 1..r.end - 1] <==> start == 0))
  }

  /** `"` starts a string literal. */
  lemma StepString(s: string, start: nat, line: nat)
    requires start < |s| && s[start] == '"'
    ensures StringScanned(s, start, Step(s, start, line))
  {
    StepIsStringStep(s, start, line);
    StringStepScanned(s, start, line);
  }

  lemma StringStepScanned(s: string, start: nat, line: nat)
    requires start < |s|
    ensures StringScanned(s, start, StringStep(s, start, line))
  {
    var r := StringStep(s, start, line);
    StringStepEnds(s, start, line, r);
    StringStepLiteral(s, start, line, r);
  }

  lemma StringStepEnds(s: string, start: nat, line: nat, r: Lexed)
    requires start < |s| && r == StringStep(s, start, line)
    ensures
      && ((forall k :: start < k < |s| ==> s[k] != '"') <==> r.token == None)
      && (r.token == None ==> r.error == Some(UnterminatedString(r.line)) && r.end == |s|)
      && (r.token.Some? ==>
            && r.error == None && start + 2 <= r.end && s[r.end - 1] == '"'
            && (forall k :: start < k < r.end - 1 ==> s[k] != '"')
            && r.token.value.kind == String)
  {
    StringStepShape(s, start, line);
  }

  lemma StringStepLiteral(s: string, start: nat, line: nat, r: Lexed)
    requires start < |s| && r == StringStep(s, start, line)
    ensures
      r.token.Some? ==>
        && start + 2 <= r.end <= |s|
        && r.token.value.literal == StringLiteralAsWritten(s, start, r.end)
        && (r.token.value.literal == s[start + 1..r.end - 1] <==> start == 0)
  {
    StringStepShape(s, start, line);
    var close := RunEnd(s, start + 1, NotQuote);
    if close < |s| {
      StringLiteralAsWrittenText(s, start, close + 1);
    }
  }

  lemma StepIsStringStep(s: string, start: nat, line: nat)
    requires start < |s| && s[start] == '"'
    ensures Step(s, start, line) == StringStep(s, start, line)
  {
  }

  /** Any other character reports an error, adds no token, and scanning moves on by one. */
  lemma StepUnexpected(s: string, start: nat, line: nat)
    requires start < |s| && s[start] !in "(){},.-+;*!=<>/ \r\t\n\"" && !IsDigit(s[start]) && !IsAlpha(s[start])
    ensures Step(s, start, line) == Lexed(None, start + 1, line, Some(UnexpectedCharacter(line)))
  {
  }

  // ---------------------------------------------------------------------------
  // The whole scan_tokens loop

  datatype Lexing = Lexing(tokens: seq<Token>, errors: seq<LexError>)

  /** The tokens and errors `scan_tokens` produces from position `pos` on line `line`. */
  function ScanFrom(s: string, pos: nat, line: nat): (r: Lexing)
    requires pos <= |s|
    ensures 0 < |r.tokens| <= |s| - pos + 1 && r.tokens[|r.tokens| - 1].kind == EndOfFile
    ensures |r.errors| <= |s| - pos
    decreases |s| - pos
  {
    if pos == |s| then Lexing([Token(EndOfFile, "end", "", line)], [])
    else
      var r := Step(s, pos, line);
      var rest := ScanFrom(s, r.end, r.line);
      Lexing(r.token.ToSeq() + rest.tokens, r.error.ToSeq() + rest.errors)
  }

  /** The token list of a fresh scanner over `s`. */
  function Tokenize(s: string): Lexing
  {
    ScanFrom(s, 0, 1)
  }

  /** `t` ends with one END_OF_FILE token on line `line` and has no other. */
  predicate EndsWithEof(t: seq<Token>, line: nat)
  {
    && |t| > 0
    && t[|t| - 1] == Token(EndOfFile, "end", "", line)
    && forall k :: 0 <= k < |t| - 1 ==> t[k].kind != EndOfFile
  }

  lemma EofPrepend(head: seq<Token>, rest: seq<Token>, line: nat)
    requires forall k :: 0 <= k < |head| ==> head[k].kind != EndOfFile
    requires EndsWithEof(rest, line)
    ensures EndsWithEof(head + rest, line)
  {
    var t := head + rest;
    assert t[|t| - 1] == rest[|rest| - 1];
    forall k | 0 <= k < |t| - 1
      ensures t[k].kind != EndOfFile
    {
      if k >= |head| {
        assert t[k] == rest[k - |head|];
      }
    }
  }

  /** The line a step leaves off at, plus the newlines still ahead, is the line it started at plus all newlines ahead. */
  lemma StepLinesAhead(s: string, pos: nat, line: nat)
    requires pos < |s|
    ensures Step(s, pos, line).line + Newlines(s[Step(s, pos, line).end..]) == line + Newlines(s[pos..])
  {
    var r := Step(s, pos, line);
    StepCountsLines(s, pos, line);
    assert s[pos..] == s[pos..r.end] + s[r.end..];
    NewlinesAppend(s[pos..r.end], s[r.end..]);
  }

  /**
   * The scan ends with exactly one END_OF_FILE token, with lexeme "end",
   * carrying the final line count: the start line plus every newline scanned.
   */
  lemma {:induction false} ScanEndsWithEof(s: string, pos: nat, line: nat)
    requires pos <= |s|
    ensures EndsWithEof(ScanFrom(s, pos, line).tokens, line + Newlines(s[pos..]))
    decreases |s| - pos
  {
    if pos < |s| {
      var r := Step(s, pos, line);
      var rest := ScanFrom(s, r.end, r.line).tokens;
      var head := r.token.ToSeq();
      assert ScanFrom(s, pos, line).tokens == head + rest;
      ScanEndsWithEof(s, r.end, r.line);
      StepLinesAhead(s, pos, line);
      StepNeverEof(s, pos, line);
      EofPrepend(head, rest, line + Newlines(s[pos..]));
    }
  }

  /** No step produces an END_OF_FILE token. */
  lemma StepNeverEof(s: string, start: nat, line: nat)
    requires start < |s|
    ensures Step(s, start, line).token.Some? ==> Step(s, start, line).token.value.kind != EndOfFile
  {
    var c := s[start];
    if IsAlpha(c) {
      var e := RunEnd(s, start + 1, IsAlphaNumeric);
      if s[start..e] in Keywords {
        KeywordTable(s[start..e]);
      }
    }
  }

  /** Line numbers along `t` start at `line` or later and never decrease. */
  ghost predicate LinesFrom(t: seq<Token>, line: nat)
  {
    && (forall i :: 0 <= i < |t| ==> line <= t[i].line)
    && (forall i, j :: 0 <= i <= j < |t| ==> t[i].line <= t[j].line)
  }

  /** Line numbers never decrease along the token list, and none is below the start line. */
  lemma {:induction false} ScanLinesNonDecreasing(s: string, pos: nat, line: nat)
    requires pos <= |s|
    ensures LinesFrom(ScanFrom(s, pos, line).tokens, line)
    decreases |s| - pos
  {
    if pos < |s| {
      var r := Step(s, pos, line);
      var rest := ScanFrom(s, r.end, r.line).tokens;
      var head := r.token.ToSeq();
      assert ScanFrom(s, pos, line).tokens == head + rest;
      ScanLinesNonDecreasing(s, r.end, r.line);
      StepCountsLines(s, pos, line);
      LinesPrepend(head, rest, line, r.line);
    }
  }

  lemma LinesPrepend(head: seq<Token>, rest: seq<Token>, line: nat, line': nat)
    requires line <= line' && LinesFrom(rest, line')
    requires forall k :: 0 <= k < |head| ==> head[k].line == line'
    ensures LinesFrom(head + rest, line)
  {
    var t := head + rest;
    forall i | 0 <= i < |t|
      ensures line <= t[i].line
    {
      if i >= |head| {
        assert t[i] == rest[i - |head|];
      }
    }
    forall i, j | 0 <= i <= j < |t|
      ensures t[i].line <= t[j].line
    {
      if j >= |head| {
        assert t[j] == rest[j - |head|];
        if i >= |head| {
          assert t[i] == rest[i - |head|];
        }
      }
    }
  }

  /** A fresh scan ends with END_OF_FILE on line 1 plus the number of newlines in the source. */
  lemma TokenizeEndsWithEof(s: string)
    ensures EndsWithEof(Tokenize(s).tokens, 1 + Newlines(s))
  {
    assert s[0..] == s;
    ScanEndsWithEof(s, 0, 1);
  }
}
