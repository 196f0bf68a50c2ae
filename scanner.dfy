/**
 * The cursor-driven scanner of Scanner.cpp. The fields `start`, `current` and
 * `line` are advanced in place and tokens are appended as they are found; each
 * method is proved to have the effect the pure definitions in lexing.dfy give.
 */
module Scanners {
  import opened Wrappers
  import opened Tokens
  import opened Lexing

  class Scanner {
    const source: string
    var tokens: seq<Token>
    var start: nat
    var current: nat
    var line: nat
    /** The diagnostics passed to `Lox::error`, in order. */
    var errors: seq<LexError>

    ghost predicate Valid()
      reads this
    {
      start <= current <= |source|
    }

    constructor (source: string)
      ensures this.source == source && Valid()
      ensures tokens == [] && errors == [] && start == 0 && current == 0 && line == 1
    {
      this.source := source;
      tokens, errors := [], [];
      start, current, line := 0, 0, 1;
    }

    predicate IsAtEnd()
      reads this
    {
      current >= |source|
    }

    /** Consumes the character under the cursor and returns it. */
    method Advance() returns (c: char)
      requires current < |source|
      modifies this`current
      ensures current == old(current) + 1 && c == source[old(current)]
    {
      c := source[current];
      current := current + 1;
    }

    /** The character under the cursor, or NUL at the end. */
    function Peek(): (c: char)
      reads this
      ensures current < |source| ==> c == source[current]
      ensures current >= |source| ==> c == '\0'
    {
      if IsAtEnd() then '\0' else source[current]
    }

    /** The character after the cursor, or NUL when there is none. */
    function PeekNext(): (c: char)
      reads this
      ensures current + 1 < |source| ==> c == source[current + 1]
      ensures current + 1 >= |source| ==> c == '\0'
    {
      if current + 1 >= |source| then '\0' else source[current + 1]
    }

    /** Consumes the character under the cursor exactly when it is `expected`. */
    method Match(expected: char) returns (matched: bool)
      modifies this`current
      ensures matched <==> old(current) < |source| && source[old(current)] == expected
      ensures current == if matched then old(current) + 1 else old(current)
    {
      if IsAtEnd() { return false; }
      if source[current] != expected { return false; }
      current := current + 1;
      return true;
    }

    /** Appends a token whose lexeme is the text between `start` and `current`. */
    method AddToken(kind: TokenType, literal: string)
      requires start <= current <= |source|
      modifies this`tokens
      ensures tokens == old(tokens) + [Token(kind, source[start..current], literal, line)]
    {
      tokens := tokens + [Token(kind, source[start..current], literal, line)];
    }

    /** Scans the whole source, then appends the END_OF_FILE token and returns the list. */
    method ScanTokens() returns (result: seq<Token>)
      requires Valid()
      modifies this`start, this`current, this`line, this`tokens, this`errors
      ensures Valid() && current == |source|
      ensures tokens == old(tokens) + ScanFrom(source, old(current), old(line)).tokens
      ensures errors == old(errors) + ScanFrom(source, old(current), old(line)).errors
      ensures result == tokens
    {
      while !IsAtEnd()
        invariant Valid()
        invariant old(tokens) + ScanFrom(source, old(current), old(line)).tokens
               == tokens + ScanFrom(source, current, line).tokens
        invariant old(errors) + ScanFrom(source, old(current), old(line)).errors
               == errors + ScanFrom(source, current, line).errors
        decreases |source| - current
      {
        ghost var r := Step(source, current, line);
        ghost var rest := ScanFrom(source, r.end, r.line);
        ghost var before, errorsBefore := tokens, errors;
        start := current;
        ScanToken();
        ConcatAssoc(before, r.token.ToSeq(), rest.tokens);
        ConcatAssoc(errorsBefore, r.error.ToSeq(), rest.errors);
      }
      tokens := tokens + [Token(EndOfFile, "end", "", line)];
      result := tokens;
    }

    /** Scans one lexeme starting at `start == current`. */
    method ScanToken()
      requires Valid() && start == current < |source|
      modifies this`current, this`line, this`tokens, this`errors
      ensures Valid() && start == old(start)
      ensures var r := Step(source, old(current), old(line));
        && current == r.end && line == r.line
        && tokens == old(tokens) + r.token.ToSeq()
        && errors == old(errors) + r.error.ToSeq()
    {
      var c := Advance();
      if c in SingleCharTokens || c in EqualSuffixTokens || c == '/' {
        ScanPunctuation(c);
      } else if c == ' ' || c == '\r' || c == '\t' {
      } else if c == '\n' {
        line := line + 1;
      } else if c == '"' {
        ScanString();
      } else if IsDigit(c) {
        ScanNumber();
      } else if IsAlpha(c) {
        ScanIdentifier();
      } else {
        errors := errors + [UnexpectedCharacter(line)];
      }
    }

    /** The cases of `scan_token` for punctuation, operators and `/`, which may start a comment. */
    method ScanPunctuation(c: char)
      requires Valid() && current == start + 1 && source[start] == c
      requires c in SingleCharTokens || c in EqualSuffixTokens || c == '/'
      modifies this`current, this`tokens
      ensures Valid() && start == old(start)
      ensures var r := Step(source, start, line);
        && current == r.end && r.line == line && r.error == None
        && tokens == old(tokens) + r.token.ToSeq()
    {
      if c in SingleCharTokens {
        AddToken(SingleCharTokens[c], "");
      } else if c in EqualSuffixTokens {
        var two := Match('=');
        AddToken(if two then EqualSuffixTokens[c].1 else EqualSuffixTokens[c].0, "");
      } else {
        var comment := Match('/');
        if comment {
          SkipComment();
        } else {
          AddToken(Slash, "");
        }
      }
    }

    /** The body of a `//` comment: everything up to the next newline or the end. */
    method SkipComment()
      requires Valid() && current == start + 2 && source[start] == '/' && source[start + 1] == '/'
      modifies this`current
      ensures Valid() && current == CommentEnd(source, start)
    {
      while Peek() != '\n' && !IsAtEnd()
        invariant start + 2 <= current <= |source|
        invariant RunEnd(source, current, NotNewline) == CommentEnd(source, start)
        decreases |source| - current
      {
        var _ := Advance();
      }
    }

    /** `string()`: the rest of a string literal after its opening quote. */
    method ScanString()
      requires Valid() && current == start + 1 && source[start] == '"'
      modifies this`current, this`line, this`tokens, this`errors
      ensures Valid() && start == old(start)
      ensures var r := StringStep(source, start, old(line));
        && current == r.end && line == r.line
        && tokens == old(tokens) + r.token.ToSeq()
        && errors == old(errors) + r.error.ToSeq()
    {
      StringStepShape(source, start, line);
      StringBody();
      if IsAtEnd() {
        errors := errors + [UnterminatedString(line)];
        return;
      }
      // The closing quote.
      var _ := Advance();
      AddToken(String, StringLiteralAsWritten(source, start, current));
    }

    /** The loop of `string()`: up to the closing quote or the end, counting lines. */
    method StringBody()
      requires Valid() && start < current
      modifies this`current, this`line
      ensures Valid() && current == RunEnd(source, old(current), NotQuote)
      ensures line == old(line) + Newlines(source[old(current)..current])
    {
      while Peek() != '"' && !IsAtEnd()
        invariant old(current) <= current <= |source|
        invariant forall k :: old(current) <= k < current ==> NotQuote(source[k])
        invariant line == old(line) + Newlines(source[old(current)..current])
        decreases |source| - current
      {
        NewlinesExtend(source, old(current), current);
        if Peek() == '\n' {
          line := line + 1;
        }
        var _ := Advance();
      }
      RunEndAt(source, old(current), current, NotQuote);
    }

    /** `number()`: the rest of a number after its first digit. */
    method ScanNumber()
      requires Valid() && current == start + 1 && IsDigit(source[start])
      modifies this`current, this`tokens
      ensures Valid() && start == old(start)
      ensures current == NumberEnd(source, old(current))
      ensures tokens == old(tokens) + [Token(Number, source[start..current], source[start..current], line)]
    {
      DigitRun();
      // Look for a fractional part.
      if Peek() == '.' && IsDigit(PeekNext()) {
        var _ := Advance();
        DigitRun();
      }
      AddToken(Number, source[start..current]);
    }

    /** A loop of `number()`: consumes digits while there are any. */
    method DigitRun()
      requires current <= |source|
      modifies this`current
      ensures current == RunEnd(source, old(current), IsDigit)
    {
      while IsDigit(Peek())
        invariant old(current) <= current <= |source|
        invariant RunEnd(source, current, IsDigit) == RunEnd(source, old(current), IsDigit)
        decreases |source| - current
      {
        var _ := Advance();
      }
    }

    /** `identifier()`: the rest of an identifier or keyword after its first letter. */
    method ScanIdentifier()
      requires Valid() && current == start + 1 && IsAlpha(source[start])
      modifies this`current, this`tokens
      ensures Valid() && start == old(start)
      ensures current == RunEnd(source, old(current), IsAlphaNumeric)
      ensures tokens == old(tokens) + [Token(IdentifierKind(source[start..current]), source[start..current], "", line)]
    {
      while IsAlphaNumeric(Peek())
        invariant old(current) <= current <= |source|
        invariant RunEnd(source, current, IsAlphaNumeric) == RunEnd(source, old(current), IsAlphaNumeric)
        invariant tokens == old(tokens)
        decreases |source| - current
      {
        var _ := Advance();
      }
      var text := source[start..current];
      AddToken(IdentifierKind(text), "");
    }
  }

  lemma ConcatAssoc<T>(a: seq<T>, b: seq<T>, c: seq<T>)
    ensures (a + b) + c == a + (b + c)
  {
  }

  /** Runs a fresh scanner over `source`: the token list is `Tokenize(source)`. */
  method Scan(source: string) returns (tokens: seq<Token>, errors: seq<LexError>)
    ensures tokens == Tokenize(source).tokens && errors == Tokenize(source).errors
    ensures EndsWithEof(tokens, 1 + Newlines(source))
  {
    var scanner := new Scanner(source);
    tokens := scanner.ScanTokens();
    errors := scanner.errors;
    assert tokens == [] + ScanFrom(source, 0, 1).tokens;
    TokenizeEndsWithEof(source);
  }
}
