/**
 * The lexer, seen only through what it produces: a finite sequence of tokens,
 * after which it answers EOF forever. Its internals are not modelled.
 */
module Lexer {
  import opened Tokens

  /** The token the lexer hands out at read position `i`. */
  function TokenAt(ts: seq<Token>, i: nat): Token {
    if i < |ts| then ts[i] else Token(Eof, "")
  }

  /** Some semicolon occurs at or after position `k` of the stream. */
  ghost predicate SemicolonFrom(ts: seq<Token>, k: nat)
    decreases |ts| - k
  {
    k < |ts| && (ts[k].typ == Semicolon || SemicolonFrom(ts, k + 1))
  }

  /** The first semicolon at or after position `k`. */
  function NextSemicolon(ts: seq<Token>, k: nat): (j: nat)
    requires SemicolonFrom(ts, k)
    ensures k <= j < |ts| && ts[j].typ == Semicolon
    decreases |ts| - k
  {
    if ts[k].typ == Semicolon then k else NextSemicolon(ts, k + 1)
  }

  /** No semicolon lies between `k` and the one NextSemicolon finds. */
  lemma {:induction false} NextSemicolonIsFirst(ts: seq<Token>, k: nat)
    requires SemicolonFrom(ts, k)
    ensures forall i :: k <= i < NextSemicolon(ts, k) ==> ts[i].typ != Semicolon
    decreases |ts| - k
  {
    if ts[k].typ != Semicolon {
      NextSemicolonIsFirst(ts, k + 1);
    }
  }
}
