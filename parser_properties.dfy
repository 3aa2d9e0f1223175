/** Properties of a whole parsing pass, stated over the functions in ParserSpec. */
module ParserProperties {
  import opened Options
  import opened Tokens
  import opened Lexer
  import opened Ast
  import opened ParserSpec

  /**
   * A statement parse yields nil exactly when it records an error; it records at
   * most one, only for a `let`, naming an expected identifier or `=` and a
   * different actual category; a statement it builds ends on a semicolon.
   */
  lemma StatementOutcome(ts: seq<Token>, c: nat)
    requires StatementHalts(ts, c)
    ensures var r := StatementAt(ts, c);
      && (r.stmt == None <==> r.errs != [])
      && |r.errs| <= 1
      && (r.stmt != None ==> TokenAt(ts, r.next).typ == Semicolon)
      && (r.errs != [] ==>
            TokenAt(ts, c).typ == Let && r.errs[0].got != r.errs[0].expected
            && (r.errs[0].expected == Ident || r.errs[0].expected == Assign))
  {
  }

  /** Statement dispatch: `let`, `return`, and everything else become the matching statement kind. */
  lemma StatementDispatch(ts: seq<Token>, c: nat)
    requires StatementHalts(ts, c)
    ensures var st, cur := StatementAt(ts, c), TokenAt(ts, c);
      && (cur.typ == Let ==>
            st.stmt == None || (st.stmt.value.LetStatement? && st.stmt.value.token == cur))
      && (cur.typ == Return ==>
            st.stmt == Some(ReturnStatement(cur, None)))
      && (cur.typ != Let && cur.typ != Return ==>
            st.stmt == Some(ExpressionStatement(cur, ExpressionAt(cur))))
  {
  }

  /**
   * A `let` fails, with exactly the one error of the check that failed, unless it
   * is followed by an identifier and `=`.
   */
  lemma LetFailsOnMismatch(ts: seq<Token>, c: nat)
    requires StatementHalts(ts, c) && TokenAt(ts, c).typ == Let
    ensures var st, name, eq := StatementAt(ts, c), TokenAt(ts, c + 1), TokenAt(ts, c + 2);
      && (name.typ != Ident ==> st.stmt == None && st.errs == [ExpectedNext(Ident, name.typ)] && st.next == c)
      && (name.typ == Ident && eq.typ != Assign ==>
            st.stmt == None && st.errs == [ExpectedNext(Assign, eq.typ)] && st.next == c + 1)
  {
  }

  /**
   * A `let` that succeeds binds the identifier token's literal, skips its value
   * and leaves the current token on the first semicolon after the `=`.
   */
  lemma LetBindsIdentifier(ts: seq<Token>, c: nat)
    requires StatementHalts(ts, c) && TokenAt(ts, c).typ == Let
    requires StatementAt(ts, c).stmt != None
    ensures var st, name := StatementAt(ts, c), TokenAt(ts, c + 1);
      && name.typ == Ident && TokenAt(ts, c + 2).typ == Assign
      && st.stmt.value.name == Identifier(name, name.literal) && st.stmt.value.value == None
      && st.errs == []
      && c + 2 < st.next && TokenAt(ts, st.next).typ == Semicolon
      && forall i :: c + 2 <= i < st.next ==> TokenAt(ts, i).typ != Semicolon
  {
    NextSemicolonIsFirst(ts, c + 2);
  }

  /** The intended program loop never stores a nil statement. */
  lemma {:induction false} RunStoresNoNil(ts: seq<Token>, c: nat)
    requires Halts(ts, c)
    ensures forall i :: 0 <= i < |Run(ts, c).stmts| ==> Usable(Run(ts, c).stmts[i])
    decreases |ts| - c
  {
    if TokenAt(ts, c).typ != Eof {
      RunUnfold(ts, c);
      RunStoresNoNil(ts, StatementAt(ts, c).next + 1);
    }
  }

  /**
   * Only `let` mismatches are recorded, and each names two different categories:
   * the one expected (an identifier or `=`) and the one found.
   */
  lemma {:induction false} RunErrorsAreLetMismatches(ts: seq<Token>, c: nat)
    requires Halts(ts, c)
    ensures forall e :: e in Run(ts, c).errs ==>
      (e.expected == Ident || e.expected == Assign) && e.got != e.expected
    decreases |ts| - c
  {
    if TokenAt(ts, c).typ != Eof {
      RunUnfold(ts, c);
      StatementOutcome(ts, c);
      RunErrorsAreLetMismatches(ts, StatementAt(ts, c).next + 1);
    }
  }

  /** The two program loops record the same errors; the intended one drops exactly the nil entries. */
  lemma {:induction false} RunIsWrittenRunWithoutNils(ts: seq<Token>, c: nat)
    requires Halts(ts, c)
    ensures Run(ts, c).stmts == WithoutNils(WrittenRun(ts, c).stmts)
    ensures Run(ts, c).errs == WrittenRun(ts, c).errs
    decreases |ts| - c
  {
    if TokenAt(ts, c).typ != Eof {
      RunUnfold(ts, c);
      WrittenRunUnfold(ts, c);
      var next := StatementAt(ts, c).next + 1;
      RunIsWrittenRunWithoutNils(ts, next);
      WithoutNilsCons(Points(StatementAt(ts, c).stmt), WrittenRun(ts, next).stmts);
    }
  }

  lemma WithoutNilsCons(v: StatementRef, vs: seq<StatementRef>)
    ensures WithoutNils([v] + vs) == (if Usable(v) then [v] else []) + WithoutNils(vs)
  {
    assert ([v] + vs)[1..] == vs;
  }

  /** As written, every recorded error leaves one nil statement pointer in the program. */
  lemma {:induction false} WrittenRunNilPerError(ts: seq<Token>, c: nat)
    requires Halts(ts, c)
    ensures NilCount(WrittenRun(ts, c).stmts) == |WrittenRun(ts, c).errs|
    decreases |ts| - c
  {
    if TokenAt(ts, c).typ != Eof {
      WrittenRunUnfold(ts, c);
      StatementOutcome(ts, c);
      var next := StatementAt(ts, c).next + 1;
      WrittenRunNilPerError(ts, next);
      NilCountCons(Points(StatementAt(ts, c).stmt), WrittenRun(ts, next).stmts);
    }
  }

  lemma NilCountCons(v: StatementRef, vs: seq<StatementRef>)
    ensures NilCount([v] + vs) == (if Usable(v) then 0 else 1) + NilCount(vs)
  {
    assert ([v] + vs)[1..] == vs;
  }

  /** `let x 5;` as written stores a nil statement first, beside the one error. */
  lemma MissingAssignStoresNil(ts: seq<Token>)
    requires ts == [Token(Let, "let"), Token(Ident, "x"), Token(Int, "5"), Token(Semicolon, ";")]
    ensures Halts(ts, 0)
    ensures var five := Points(Some(ExpressionStatement(Token(Int, "5"), None)));
      && WrittenRun(ts, 0) == Outcome([Points(None), five], [ExpectedNext(Assign, Int)])
      && Run(ts, 0) == Outcome([five], [ExpectedNext(Assign, Int)])
  {
    var five := Points(Some(ExpressionStatement(Token(Int, "5"), None)));
    PassEndsAtEof(ts, 4);
    PassStep(ts, 2);
    assert Run(ts, 2) == WrittenRun(ts, 2) == Outcome([five], []);
    PassStep(ts, 0);
    assert [Points(None)] + [five] == [Points(None), five];
  }

  /** `let x = y;` gives one let statement named `x` and no error. */
  lemma LetExample(ts: seq<Token>)
    requires ts == [Token(Let, "let"), Token(Ident, "x"), Token(Assign, "="), Token(Ident, "y"), Token(Semicolon, ";")]
    ensures Halts(ts, 0)
    ensures Run(ts, 0)
      == Outcome([Points(Some(LetStatement(Token(Let, "let"), Identifier(Token(Ident, "x"), "x"), None)))], [])
  {
    PassEndsAtEof(ts, 5);
    assert SemicolonFrom(ts, 4) && NextSemicolon(ts, 3) == 4;
    assert StatementAt(ts, 0).next == 4;
    PassStep(ts, 0);
  }

  /** `;;;` gives three expression statements without an expression, and no error. */
  lemma EmptyStatementsExample(ts: seq<Token>)
    requires ts == [Token(Semicolon, ";"), Token(Semicolon, ";"), Token(Semicolon, ";")]
    ensures Halts(ts, 0)
    ensures var empty := Points(Some(ExpressionStatement(Token(Semicolon, ";"), None)));
      Run(ts, 0) == Outcome([empty, empty, empty], [])
  {
    var empty := Points(Some(ExpressionStatement(Token(Semicolon, ";"), None)));
    PassEndsAtEof(ts, 3);
    PassStep(ts, 2);
    PassStep(ts, 1);
    PassStep(ts, 0);
    assert [empty] + ([empty] + [empty]) == [empty, empty, empty];
  }

  /** An expression with no semicolon after it never ends: the skip loop has no EOF guard. */
  lemma MissingSemicolonDiverges()
    ensures !Halts([Token(Ident, "x")], 0)
  {
    var ts := [Token(Ident, "x")];
    assert forall j :: 0 <= j < |ts| ==> ts[j].typ != Semicolon;
  }
}
