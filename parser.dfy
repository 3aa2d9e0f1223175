/**
 * The parser engine: a two-token window (current, peek) over the lexer, the
 * statement parsers, the expression routine and the error list.
 */
module Parser {
  import opened Options
  import opened Tokens
  import opened Lexer
  import opened Ast
  import opened ParserSpec
  import Precedences

  class Parser {
    /** Everything the lexer will hand out, in order (then EOF forever). */
    const tokens: seq<Token>
    /** How many tokens have been pulled from the lexer. */
    var read: nat

    var curToken: Token
    var peekToken: Token
    var prefixParseFns: map<TokenType, PrefixFn>
    var errors: seq<ParseError>

    /** The window shows the last two tokens pulled, and the registry is the constructor's. */
    ghost predicate Valid()
      reads this
    {
      2 <= read
      && curToken == TokenAt(tokens, read - 2)
      && peekToken == TokenAt(tokens, read - 1)
      && prefixParseFns == PrefixRegistry
    }

    /** The stream position of the current token. */
    ghost function Cursor(): nat
      reads this
      requires 2 <= read
    {
      read - 2
    }

    constructor New(ts: seq<Token>)
      ensures Valid() && tokens == ts
      ensures Cursor() == 0 && curToken == TokenAt(ts, 0) && peekToken == TokenAt(ts, 1)
      ensures errors == []
    {
      tokens := ts;
      read := 0;
      // Go's zero-valued tokens; both are overwritten by the two advances below.
      curToken, peekToken := Token(Illegal, ""), Token(Illegal, "");
      prefixParseFns := map[];
      errors := [];
      new;
      RegisterPrefix(Ident, ParseIdentifierFn);
      NextToken();
      NextToken();
    }

    /** Shift the window by one token; nothing else changes. */
    method NextToken()
      modifies this`curToken, this`peekToken, this`read
      ensures curToken == old(peekToken) && peekToken == TokenAt(tokens, old(read))
      ensures read == old(read) + 1
      ensures old(Valid()) ==> Valid()
    {
      curToken := peekToken;
      peekToken := TokenAt(tokens, read);
      read := read + 1;
    }

    method RegisterPrefix(t: TokenType, fn: PrefixFn)
      modifies this`prefixParseFns
      ensures prefixParseFns == old(prefixParseFns)[t := fn]
    {
      prefixParseFns := prefixParseFns[t := fn];
    }

    /** The current token has category `t`: the stream's token at the cursor does. */
    predicate CurTokenIs(t: TokenType)
      reads this
      ensures Valid() ==> (CurTokenIs(t) <==> TokenAt(tokens, Cursor()).typ == t)
    {
      curToken.typ == t
    }

    /** The peek token has category `t`: the stream's token just after the cursor does. */
    predicate PeekTokenIs(t: TokenType)
      reads this
      ensures Valid() ==> (PeekTokenIs(t) <==> TokenAt(tokens, Cursor() + 1).typ == t)
    {
      peekToken.typ == t
    }

    /** Advance if the peek token has category `t`; otherwise record exactly one error. */
    method ExpectPeek(t: TokenType) returns (ok: bool)
      requires Valid()
      modifies this`curToken, this`peekToken, this`read, this`errors
      ensures Valid()
      ensures ok <==> old(peekToken).typ == t
      ensures ok ==> Cursor() == old(Cursor()) + 1 && curToken == old(peekToken) && errors == old(errors)
      ensures !ok ==>
        read == old(read) && curToken == old(curToken) && peekToken == old(peekToken)
        && errors == old(errors) + [ExpectedNext(t, old(peekToken).typ)]
    {
      if PeekTokenIs(t) {
        NextToken();
        return true;
      } else {
        PeekError(t);
        return false;
      }
    }

    method Errors() returns (es: seq<ParseError>)
      ensures es == errors
    {
      es := errors;
    }

    /** Append one error naming the expected category and the peek token's. */
    method PeekError(t: TokenType)
      modifies this`errors
      ensures errors == old(errors) + [ExpectedNext(t, peekToken.typ)]
    {
      errors := errors + [ExpectedNext(t, peekToken.typ)];
    }

    /** Advance until the current token is the first semicolon at or after it. */
    method SkipToSemicolon()
      requires Valid() && SemicolonFrom(tokens, Cursor())
      modifies this`curToken, this`peekToken, this`read
      ensures Valid() && Cursor() == NextSemicolon(tokens, old(Cursor()))
      ensures curToken.typ == Semicolon
    {
      ghost var target := NextSemicolon(tokens, Cursor());
      while !CurTokenIs(Semicolon)
        invariant Valid()
        invariant SemicolonFrom(tokens, Cursor()) && NextSemicolon(tokens, Cursor()) == target
        decreases target - Cursor()
      {
        NextToken();
      }
    }

    /** `let <ident> = ...;`: both checks through ExpectPeek, then skip to the semicolon. */
    method ParseLetStatement() returns (s: Option<Statement>)
      requires Valid() && LetHalts(tokens, Cursor())
      modifies this`curToken, this`peekToken, this`read, this`errors
      ensures Valid()
      ensures old(peekToken).typ != Ident ==>
        s == None && Cursor() == old(Cursor()) && errors == old(errors) + [ExpectedNext(Ident, old(peekToken).typ)]
      ensures var eq := TokenAt(tokens, old(Cursor()) + 2);
        old(peekToken).typ == Ident && eq.typ != Assign ==>
          s == None && Cursor() == old(Cursor()) + 1 && errors == old(errors) + [ExpectedNext(Assign, eq.typ)]
      ensures var name := old(peekToken);
        name.typ == Ident && TokenAt(tokens, old(Cursor()) + 2).typ == Assign ==>
          s == Some(LetStatement(old(curToken), Identifier(name, name.literal), None))
          && Cursor() == NextSemicolon(tokens, old(Cursor()) + 2) && curToken.typ == Semicolon
          && errors == old(errors)
    {
      var letToken := curToken;
      var ok := ExpectPeek(Ident);
      if !ok {
        return None;
      }
      var name := Identifier(curToken, curToken.literal);
      ok := ExpectPeek(Assign);
      if !ok {
        return None;
      }
      SkipToSemicolon();
      return Some(LetStatement(letToken, name, None));
    }

    /** `return ...;`: step past `return`, then skip to the semicolon. */
    method ParseReturnStatement() returns (s: Option<Statement>)
      requires Valid() && SemicolonFrom(tokens, Cursor() + 1)
      modifies this`curToken, this`peekToken, this`read
      ensures Valid()
      ensures s == Some(ReturnStatement(old(curToken), None))
      ensures Cursor() == NextSemicolon(tokens, old(Cursor()) + 1) && curToken.typ == Semicolon
    {
      var returnToken := curToken;
      NextToken();
      SkipToSemicolon();
      return Some(ReturnStatement(returnToken, None));
    }

    /** An expression statement: the current token's expression, then skip to the semicolon. */
    method ParseExpressionStatement() returns (s: Option<Statement>)
      requires Valid() && SemicolonFrom(tokens, Cursor())
      modifies this`curToken, this`peekToken, this`read
      ensures Valid()
      ensures s == Some(ExpressionStatement(old(curToken), ExpressionAt(old(curToken))))
      ensures Cursor() == NextSemicolon(tokens, old(Cursor())) && curToken.typ == Semicolon
    {
      var first := curToken;
      var e := ParseExpression(Precedences.Lowest);
      SkipToSemicolon();
      return Some(ExpressionStatement(first, e));
    }

    /**
     * Look up the current token's prefix procedure and run it. The precedence is
     * not used yet. Records nothing and leaves the window alone.
     */
    method ParseExpression(precedence: int) returns (e: Option<Expression>)
      requires Valid()
      ensures e.Some? <==> curToken.typ == Ident
      ensures e.Some? ==> e.value == Identifier(curToken, curToken.literal)
    {
      if curToken.typ !in prefixParseFns {
        return None;
      }
      match prefixParseFns[curToken.typ]
      case ParseIdentifierFn =>
        var id := ParseIdentifier();
        return Some(id);
    }

    /** An identifier node for the current token. */
    method ParseIdentifier() returns (e: Expression)
      ensures e.token == curToken && e.value == curToken.literal
    {
      return Identifier(curToken, curToken.literal);
    }

    /**
     * Dispatch on the current token. Each statement parser's pointer is returned
     * as an `ast.Statement` interface value, which is never the nil interface.
     */
    method ParseStatement() returns (v: StatementRef)
      requires Valid() && StatementHalts(tokens, Cursor())
      modifies this`curToken, this`peekToken, this`read, this`errors
      ensures Valid()
      ensures var st := StatementAt(tokens, old(Cursor()));
        v == Points(st.stmt) && Cursor() == st.next && errors == old(errors) + st.errs
    {
      ghost var c := Cursor();
      var s: Option<Statement>;
      if curToken.typ == Let {
        ghost var name, eq := peekToken, TokenAt(tokens, c + 2);
        s := ParseLetStatement();
        if name.typ != Ident {
          assert StatementAt(tokens, c) == Step(None, c, [ExpectedNext(Ident, name.typ)]);
        } else if eq.typ != Assign {
          assert StatementAt(tokens, c) == Step(None, c + 1, [ExpectedNext(Assign, eq.typ)]);
        }
      } else if curToken.typ == Return {
        s := ParseReturnStatement();
      } else {
        s := ParseExpressionStatement();
      }
      v := Points(s);
    }

    /**
     * The program loop as written: its `stmt != nil` test is on the interface
     * value, so a failed `let` is stored as a nil statement pointer.
     */
    method ParseProgramAsWritten() returns (program: Program)
      requires Valid() && Halts(tokens, Cursor())
      modifies this`curToken, this`peekToken, this`read, this`errors
      ensures Valid() && curToken.typ == Eof
      ensures var r := WrittenRun(tokens, old(Cursor()));
        program.statements == r.stmts && errors == old(errors) + r.errs
    {
      ghost var whole := WrittenRun(tokens, Cursor());
      ghost var before := errors;
      var statements: seq<StatementRef> := [];
      AccountsStart(tokens, Cursor(), errors);
      while curToken.typ != Eof
        invariant Valid() && WrittenAccounts(tokens, Cursor(), statements, errors, whole, before)
        decreases |tokens| - Cursor()
      {
        ghost var c, done, errsBefore := Cursor(), statements, errors;
        WrittenRunUnfold(tokens, c);
        var stmt := ParseStatement();
        if stmt != NilInterface {
          statements := statements + [stmt];
        }
        NextToken();
        WrittenRunAdvance(tokens, c, Cursor(), done, errsBefore, before, whole, statements, errors);
      }
      AccountsEnd(tokens, Cursor(), statements, errors, whole, before);
      program := Program(statements);
    }

    /**
     * The program loop as intended: parse statements until the current token is
     * EOF, storing only statements that were actually built.
     */
    method ParseProgram() returns (program: Program)
      requires Valid() && Halts(tokens, Cursor())
      modifies this`curToken, this`peekToken, this`read, this`errors
      ensures Valid() && curToken.typ == Eof
      ensures var r := Run(tokens, old(Cursor()));
        program.statements == r.stmts && errors == old(errors) + r.errs
    {
      ghost var whole := Run(tokens, Cursor());
      ghost var before := errors;
      var statements: seq<StatementRef> := [];
      AccountsStart(tokens, Cursor(), errors);
      while curToken.typ != Eof
        invariant Valid() && Accounts(tokens, Cursor(), statements, errors, whole, before)
        decreases |tokens| - Cursor()
      {
        ghost var c, done, errsBefore := Cursor(), statements, errors;
        RunUnfold(tokens, c);
        var stmt := ParseStatement();
        if stmt != NilInterface && stmt.target != None {
          statements := statements + [stmt];
        }
        NextToken();
        RunAdvance(tokens, c, Cursor(), done, errsBefore, before, whole, statements, errors);
      }
      AccountsEnd(tokens, Cursor(), statements, errors, whole, before);
      program := Program(statements);
    }
  }

  /** A whole pass as the source runs it: construct, parse the program as written, read the errors. */
  method ParseSourceAsWritten(ts: seq<Token>) returns (program: Program, errs: seq<ParseError>)
    requires Halts(ts, 0)
    ensures program.statements == WrittenRun(ts, 0).stmts && errs == WrittenRun(ts, 0).errs
  {
    var p := new Parser.New(ts);
    program := p.ParseProgramAsWritten();
    errs := p.Errors();
  }

  /** A whole pass with the nil check corrected: construct, parse the program, read the errors. */
  method ParseSource(ts: seq<Token>) returns (program: Program, errs: seq<ParseError>)
    requires Halts(ts, 0)
    ensures program.statements == Run(ts, 0).stmts && errs == Run(ts, 0).errs
  {
    var p := new Parser.New(ts);
    program := p.ParseProgram();
    errs := p.Errors();
  }
}
