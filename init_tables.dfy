/** `db/queries/init_tables.rs`: running the table-creation script one statement at a time. */
module InitTables {
  import opened Wrappers
  import opened Text
  import opened Http

  /** The pieces that are not blank, in their original order. */
  function NonBlank(pieces: seq<string>): (r: seq<string>)
    ensures |r| <= |pieces|
  {
    if pieces == [] then []
    else
      var init := NonBlank(pieces[..|pieces| - 1]);
      var last := pieces[|pieces| - 1];
      if IsBlank(last) then init else init + [last]
  }

  /** The statements of a script: its `;`-separated pieces that are not blank. */
  function Statements(sql: string): seq<string> {
    NonBlank(Split(sql, ';'))
  }

  lemma {:induction false} NonBlankAppend(a: seq<string>, b: seq<string>)
    ensures NonBlank(a + b) == NonBlank(a) + NonBlank(b)
    decreases |b|
  {
    if b == [] {
      assert a + b == a;
    } else {
      assert (a + b)[..|a + b| - 1] == a + b[..|b| - 1];
      NonBlankAppend(a, b[..|b| - 1]);
    }
  }

  /** The first `n` statements sent all succeeded. */
  predicate SucceededUpTo(execute: (nat, string) -> Option<DbError>, executed: seq<string>, n: nat)
    requires n <= |executed|
  {
    forall k :: 0 <= k < n ==> execute(k, executed[k]).None?
  }

  /** The non-blank pieces of a prefix of the pieces begin the non-blank pieces of the whole. */
  lemma NonBlankPrefix(pieces: seq<string>, i: nat)
    requires i <= |pieces|
    ensures |NonBlank(pieces[..i])| <= |NonBlank(pieces)|
    ensures NonBlank(pieces[..i]) == NonBlank(pieces)[..|NonBlank(pieces[..i])|]
  {
    NonBlankAppend(pieces[..i], pieces[i..]);
    assert pieces[..i] + pieces[i..] == pieces;
  }

  /** `create_tables`: execute the non-blank pieces of the script in order, stopping at the first
      error. `execute(k, s)` is the server's answer to the `k`-th statement sent, `s`; `executed`
      lists the statements sent, the failing one included. */
  method CreateTables(sql: string, execute: (nat, string) -> Option<DbError>)
    returns (r: Outcome<DbError>, executed: seq<string>)
    ensures |executed| <= |Statements(sql)| && executed == Statements(sql)[..|executed|]
    ensures r.Pass? <==> executed == Statements(sql) && SucceededUpTo(execute, executed, |executed|)
    ensures r.Fail? ==> executed != [] && execute(|executed| - 1, executed[|executed| - 1]) == Some(r.error)
    ensures |executed| > 0 ==> SucceededUpTo(execute, executed, |executed| - 1)
  {
    var statements := Split(sql, ';');
    r, executed := ExecuteEach(statements, execute);
  }

  /** The loop of `create_tables` over the pieces of the script: a piece that is blank once
      trimmed is skipped, any other is executed, and the first error ends the loop. */
  method ExecuteEach(statements: seq<string>, execute: (nat, string) -> Option<DbError>)
    returns (r: Outcome<DbError>, executed: seq<string>)
    ensures |executed| <= |NonBlank(statements)| && executed == NonBlank(statements)[..|executed|]
    ensures r.Pass? <==> executed == NonBlank(statements) && SucceededUpTo(execute, executed, |executed|)
    ensures r.Fail? ==> executed != [] && execute(|executed| - 1, executed[|executed| - 1]) == Some(r.error)
    ensures |executed| > 0 ==> SucceededUpTo(execute, executed, |executed| - 1)
  {
    executed := [];
    var failure: Option<DbError> := None;
    var i := 0;
    while i < |statements| && failure.None?
      invariant i <= |statements| && executed == NonBlank(statements[..i])
      invariant failure.None? ==> SucceededUpTo(execute, executed, |executed|)
      invariant failure.Some? ==> executed != [] && SucceededUpTo(execute, executed, |executed| - 1)
                                  && execute(|executed| - 1, executed[|executed| - 1]) == failure
      decreases |statements| - i
    {
      var statement := statements[i];
      assert statements[..i + 1][..i] == statements[..i];
      var blank := TrimIsEmpty(statement);
      if !blank {
        failure := execute(|executed|, statement);
        executed := executed + [statement];
      }
      i := i + 1;
    }
    NonBlankPrefix(statements, i);
    if failure.Some? {
      r := Fail(failure.value);
    } else {
      assert statements[..i] == statements;
      r := Pass;
    }
  }

  /** No more statements run than there are `;` separators plus one. */
  lemma StatementsBound(sql: string)
    ensures |Statements(sql)| <= CountChar(sql, ';') + 1
  {
  }

  /** Every statement sent is a non-blank piece holding no `;`. */
  lemma {:induction false} StatementsAreNonBlankPieces(sql: string)
    ensures forall k :: 0 <= k < |Statements(sql)| ==> !IsBlank(Statements(sql)[k]) && ';' !in Statements(sql)[k]
  {
    var pieces := Split(sql, ';');
    SplitPiecesFree(sql, ';');
    NonBlankFromPieces(pieces);
  }

  lemma {:induction false} NonBlankFromPieces(pieces: seq<string>)
    ensures forall k :: 0 <= k < |NonBlank(pieces)| ==> NonBlank(pieces)[k] in pieces && !IsBlank(NonBlank(pieces)[k])
  {
    if pieces != [] {
      var init := pieces[..|pieces| - 1];
      NonBlankFromPieces(init);
      assert forall x :: x in init ==> x in pieces;
    }
  }

  /** A final `;` leaves a trailing piece that is never executed: the script runs the same
      statements with or without it. */
  lemma TrailingSeparatorIgnored(sql: string)
    ensures Statements(sql + ";") == Statements(sql)
  {
    var s := sql + ";";
    assert s[..|s| - 1] == sql;
    var pieces := Split(s, ';');
    assert pieces == Split(sql, ';') + [[]];
    assert pieces[..|pieces| - 1] == Split(sql, ';');
  }

  /** A script made only of separators and white space executes nothing. */
  lemma {:induction false} BlankScriptRunsNothing(sql: string)
    requires forall i :: 0 <= i < |sql| ==> sql[i] == ';' || IsWhitespace(sql[i])
    ensures Statements(sql) == []
  {
    var pieces := Split(sql, ';');
    BlankPieces(sql);
    NonBlankOfBlanks(pieces);
  }

  lemma {:induction false} BlankPieces(sql: string)
    requires forall i :: 0 <= i < |sql| ==> sql[i] == ';' || IsWhitespace(sql[i])
    ensures forall k :: 0 <= k < |Split(sql, ';')| ==> IsBlank(Split(sql, ';')[k])
  {
    if sql != [] {
      BlankPieces(sql[..|sql| - 1]);
    }
  }

  lemma {:induction false} NonBlankOfBlanks(pieces: seq<string>)
    requires forall k :: 0 <= k < |pieces| ==> IsBlank(pieces[k])
    ensures NonBlank(pieces) == []
  {
    if pieces != [] {
      NonBlankOfBlanks(pieces[..|pieces| - 1]);
    }
  }
}
