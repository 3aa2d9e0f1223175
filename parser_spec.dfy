/**
 * What one parsing pass produces, as functions of the token stream and the
 * position of the current token. The class in module Parser is proved to
 * follow these definitions step by step.
 */
module ParserSpec {
  import opened Options
  import opened Tokens
  import opened Lexer
  import opened Ast

  /** A recorded error: "expected next token to be `expected`, got `got` instead". */
  datatype ParseError = ExpectedNext(expected: TokenType, got: TokenType)

  /** The prefix parse procedures that exist. */
  datatype PrefixFn = ParseIdentifierFn

  /** The prefix registry as the parser's constructor fills it: only identifiers. */
  const PrefixRegistry: map<TokenType, PrefixFn> := map[Ident := ParseIdentifierFn]

  /** What the expression routine yields when `cur` is the current token. */
  function ExpressionAt(cur: Token): (e: Option<Expression>)
    ensures e.Some? <==> cur.typ == Ident
    ensures e.Some? ==> e.value.token == cur && e.value.value == cur.literal
  {
    if cur.typ in PrefixRegistry then
      match PrefixRegistry[cur.typ]
      case ParseIdentifierFn => Some(Identifier(cur, cur.literal))
    else
      None
  }

  /** A `let` at position `c` ends: it fails before skipping, or a semicolon follows its `=`. */
  ghost predicate LetHalts(ts: seq<Token>, c: nat) {
    TokenAt(ts, c + 1).typ == Ident && TokenAt(ts, c + 2).typ == Assign ==> SemicolonFrom(ts, c + 2)
  }

  /** Parsing the statement whose first token is at position `c` ends. */
  ghost predicate StatementHalts(ts: seq<Token>, c: nat) {
    var t := TokenAt(ts, c).typ;
    if t == Let then LetHalts(ts, c)
    else if t == Return then SemicolonFrom(ts, c + 1)
    else SemicolonFrom(ts, c)
  }

  /** One statement parse: the statement pointer, where the current token is afterwards, the errors recorded. */
  datatype Step = Step(stmt: Option<Statement>, next: nat, errs: seq<ParseError>)

  /** Parsing one statement whose first token is at position `c`. */
  function StatementAt(ts: seq<Token>, c: nat): (r: Step)
    requires StatementHalts(ts, c)
    ensures c <= r.next
  {
    var cur, peek := TokenAt(ts, c), TokenAt(ts, c + 1);
    if cur.typ == Let then
      if peek.typ != Ident then
        Step(None, c, [ExpectedNext(Ident, peek.typ)])
      else if TokenAt(ts, c + 2).typ != Assign then
        Step(None, c + 1, [ExpectedNext(Assign, TokenAt(ts, c + 2).typ)])
      else
        Step(Some(LetStatement(cur, Identifier(peek, peek.literal), None)), NextSemicolon(ts, c + 2), [])
    else if cur.typ == Return then
      Step(Some(ReturnStatement(cur, None)), NextSemicolon(ts, c + 1), [])
    else
      Step(Some(ExpressionStatement(cur, ExpressionAt(cur))), NextSemicolon(ts, c), [])
  }

  /** The program loop started at position `c` reaches EOF. */
  ghost predicate Halts(ts: seq<Token>, c: nat)
    decreases |ts| - c
  {
    TokenAt(ts, c).typ == Eof
    || (StatementHalts(ts, c) && Halts(ts, StatementAt(ts, c).next + 1))
  }

  /** The statements stored and the errors recorded by a whole pass. */
  datatype Outcome = Outcome(stmts: seq<StatementRef>, errs: seq<ParseError>)

  /** The program loop as written: it keeps every statement whose interface value is not nil. */
  function WrittenRun(ts: seq<Token>, c: nat): (r: Outcome)
    requires Halts(ts, c)
    ensures forall i :: 0 <= i < |r.stmts| ==> r.stmts[i].Points?
    decreases |ts| - c
  {
    if TokenAt(ts, c).typ == Eof then Outcome([], [])
    else
      var st := StatementAt(ts, c);
      var v := Points(st.stmt);
      var rest := WrittenRun(ts, st.next + 1);
      Outcome((if v != NilInterface then [v] else []) + rest.stmts, st.errs + rest.errs)
  }

  /** A statement value that holds an actual statement. */
  predicate Usable(v: StatementRef) {
    v.Points? && v.target.Some?
  }

  /** The program loop as intended: it keeps only statement values that hold a statement. */
  function Run(ts: seq<Token>, c: nat): Outcome
    requires Halts(ts, c)
    decreases |ts| - c
  {
    if TokenAt(ts, c).typ == Eof then Outcome([], [])
    else
      var st := StatementAt(ts, c);
      var v := Points(st.stmt);
      var rest := Run(ts, st.next + 1);
      Outcome((if Usable(v) then [v] else []) + rest.stmts, st.errs + rest.errs)
  }

  /** The statement values of `vs` that hold a statement, in order. */
  function WithoutNils(vs: seq<StatementRef>): seq<StatementRef> {
    if vs == [] then [] else (if Usable(vs[0]) then [vs[0]] else []) + WithoutNils(vs[1..])
  }

  /** How many statement values of `vs` hold no statement. */
  function NilCount(vs: seq<StatementRef>): nat {
    if vs == [] then 0 else (if Usable(vs[0]) then 0 else 1) + NilCount(vs[1..])
  }

  /** One turn of the intended program loop. */
  lemma RunUnfold(ts: seq<Token>, c: nat)
    requires Halts(ts, c) && TokenAt(ts, c).typ != Eof
    ensures StatementHalts(ts, c) && Halts(ts, StatementAt(ts, c).next + 1)
    ensures var st := StatementAt(ts, c); var v := Points(st.stmt); var rest := Run(ts, st.next + 1);
      Run(ts, c) == Outcome((if Usable(v) then [v] else []) + rest.stmts, st.errs + rest.errs)
  {
  }

  /** One turn of the program loop as written. */
  lemma WrittenRunUnfold(ts: seq<Token>, c: nat)
    requires Halts(ts, c) && TokenAt(ts, c).typ != Eof
    ensures StatementHalts(ts, c) && Halts(ts, StatementAt(ts, c).next + 1)
    ensures var st := StatementAt(ts, c); var v := Points(st.stmt); var rest := WrittenRun(ts, st.next + 1);
      WrittenRun(ts, c) == Outcome((if v != NilInterface then [v] else []) + rest.stmts, st.errs + rest.errs)
  {
  }

  /**
   * The split kept by the intended program loop at position `c`: what is stored
   * so far, plus what the rest of the pass stores, is the whole pass, and the
   * same for the errors.
   */
  ghost predicate Accounts(ts: seq<Token>, c: nat, stored: seq<StatementRef>, errs: seq<ParseError>,
                           whole: Outcome, before: seq<ParseError>)
  {
    Halts(ts, c) && stored + Run(ts, c).stmts == whole.stmts && errs + Run(ts, c).errs == before + whole.errs
  }

  /** The same split for the program loop as written. */
  ghost predicate WrittenAccounts(ts: seq<Token>, c: nat, stored: seq<StatementRef>, errs: seq<ParseError>,
                                  whole: Outcome, before: seq<ParseError>)
  {
    Halts(ts, c) && stored + WrittenRun(ts, c).stmts == whole.stmts && errs + WrittenRun(ts, c).errs == before + whole.errs
  }

  /** Before the first turn nothing is stored and the rest of the pass is all of it. */
  lemma AccountsStart(ts: seq<Token>, c: nat, errs: seq<ParseError>)
    requires Halts(ts, c)
    ensures Accounts(ts, c, [], errs, Run(ts, c), errs)
    ensures WrittenAccounts(ts, c, [], errs, WrittenRun(ts, c), errs)
  {
  }

  /** One turn of the intended program loop keeps the split. */
  lemma RunAdvance(ts: seq<Token>, c: nat, next: nat, done: seq<StatementRef>, errsBefore: seq<ParseError>,
                   before: seq<ParseError>, whole: Outcome, stored: seq<StatementRef>, errsAfter: seq<ParseError>)
    requires Accounts(ts, c, done, errsBefore, whole, before) && TokenAt(ts, c).typ != Eof
    requires next == StatementAt(ts, c).next + 1
    requires var v := Points(StatementAt(ts, c).stmt); stored == done + (if Usable(v) then [v] else [])
    requires errsAfter == errsBefore + StatementAt(ts, c).errs
    ensures Accounts(ts, next, stored, errsAfter, whole, before)
  {
    RunUnfold(ts, c);
    var st := StatementAt(ts, c);
    var v := Points(st.stmt);
    var rest := Run(ts, next);
    Regroup(done, if Usable(v) then [v] else [], rest.stmts, whole.stmts, stored);
    Regroup(errsBefore, st.errs, rest.errs, before + whole.errs, errsAfter);
  }

  /** One turn of the program loop as written keeps the split. */
  lemma WrittenRunAdvance(ts: seq<Token>, c: nat, next: nat, done: seq<StatementRef>, errsBefore: seq<ParseError>,
                          before: seq<ParseError>, whole: Outcome, stored: seq<StatementRef>, errsAfter: seq<ParseError>)
    requires WrittenAccounts(ts, c, done, errsBefore, whole, before) && TokenAt(ts, c).typ != Eof
    requires next == StatementAt(ts, c).next + 1
    requires var v := Points(StatementAt(ts, c).stmt); stored == done + (if v != NilInterface then [v] else [])
    requires errsAfter == errsBefore + StatementAt(ts, c).errs
    ensures WrittenAccounts(ts, next, stored, errsAfter, whole, before)
  {
    WrittenRunUnfold(ts, c);
    var st := StatementAt(ts, c);
    var v := Points(st.stmt);
    var rest := WrittenRun(ts, next);
    Regroup(done, if v != NilInterface then [v] else [], rest.stmts, whole.stmts, stored);
    Regroup(errsBefore, st.errs, rest.errs, before + whole.errs, errsAfter);
  }

  /** Moving one step's share from the rest of a pass to what is done so far. */
  lemma Regroup<T>(done: seq<T>, step: seq<T>, rest: seq<T>, whole: seq<T>, stored: seq<T>)
    requires done + (step + rest) == whole && stored == done + step
    ensures stored + rest == whole
  {
    assert (done + step) + rest == done + (step + rest);
  }

  /** A pass that can parse the statement at `c` and then halts, halts from `c`, one turn longer. */
  lemma PassStep(ts: seq<Token>, c: nat)
    requires TokenAt(ts, c).typ != Eof && StatementHalts(ts, c) && Halts(ts, StatementAt(ts, c).next + 1)
    ensures Halts(ts, c)
    ensures var st := StatementAt(ts, c); var v := Points(st.stmt); var rest := Run(ts, st.next + 1);
      Run(ts, c) == Outcome((if Usable(v) then [v] else []) + rest.stmts, st.errs + rest.errs)
    ensures var st := StatementAt(ts, c); var v := Points(st.stmt); var rest := WrittenRun(ts, st.next + 1);
      WrittenRun(ts, c) == Outcome((if v != NilInterface then [v] else []) + rest.stmts, st.errs + rest.errs)
  {
  }

  /** A pass whose current token is EOF stores nothing and records nothing. */
  lemma PassEndsAtEof(ts: seq<Token>, c: nat)
    requires TokenAt(ts, c).typ == Eof
    ensures Halts(ts, c) && Run(ts, c) == Outcome([], []) && WrittenRun(ts, c) == Outcome([], [])
  {
  }

  /** When the loop meets EOF, what is stored and recorded is the whole pass. */
  lemma AccountsEnd(ts: seq<Token>, c: nat, stored: seq<StatementRef>, errs: seq<ParseError>,
                    whole: Outcome, before: seq<ParseError>)
    requires TokenAt(ts, c).typ == Eof
    ensures Accounts(ts, c, stored, errs, whole, before) ==> stored == whole.stmts && errs == before + whole.errs
    ensures WrittenAccounts(ts, c, stored, errs, whole, before) ==> stored == whole.stmts && errs == before + whole.errs
  {
    PassEndsAtEof(ts, c);
    assert stored + [] == stored && errs + [] == errs;
  }
}
