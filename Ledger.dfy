/**
 * The token ledger as the service sees it: the rows of the token table and the two
 * derived single-row queries `findByAccessToken` and `findByRefreshToken`. An exact
 * match on the chosen column; no row is a valid answer, several rows are an error.
 * Each position of the sequence stands for one row of the table, so the rows of a
 * ledger are distinct objects: the same object at two positions would be counted as
 * two rows, which a table cannot hold.
 */
module Ledger {
  import opened Wrappers
  import opened Errors
  import opened TokenEntity

  /** The column a lookup matches on. */
  datatype Column = AccessTokenColumn | RefreshTokenColumn

  function Key(t: Token, col: Column): Option<string>
    reads t
  {
    match col
    case AccessTokenColumn => t.accessToken
    case RefreshTokenColumn => t.refreshToken
  }

  /** The rows whose `col` holds exactly `token`, in table order. */
  function Matching(rows: seq<Token>, col: Column, token: string): (m: seq<Token>)
    reads rows
    ensures forall k :: 0 <= k < |m| ==> m[k] in rows && Key(m[k], col) == Some(token)
    ensures forall k :: 0 <= k < |rows| && Key(rows[k], col) == Some(token) ==> rows[k] in m
    ensures |m| <= |rows|
    decreases |rows|
  {
    if rows == [] then []
    else
      var rest := Matching(rows[1..], col, token);
      if Key(rows[0], col) == Some(token) then [rows[0]] + rest else rest
  }

  /** At most one row holds `token` in `col` (no two positions of the table match). */
  ghost predicate Unique(rows: seq<Token>, col: Column, token: string)
    reads rows
  {
    forall i, j | 0 <= i < |rows| && 0 <= j < |rows| &&
                  Key(rows[i], col) == Some(token) && Key(rows[j], col) == Some(token) :: i == j
  }

  /**
   * A single-row repository query: no match is `None`, one match is that row, and
   * more than one is the exception a single-result query raises.
   */
  function FindBy(rows: seq<Token>, col: Column, token: string): (r: Result<Option<Token>, Exception>)
    reads rows
    ensures r == Success(None) <==> forall k :: 0 <= k < |rows| ==> Key(rows[k], col) != Some(token)
    ensures r.Success? && r.value.Some? ==> r.value.value in rows && Key(r.value.value, col) == Some(token)
    ensures r.Failure? <==> !Unique(rows, col, token)
    ensures r.Failure? ==> r.error == IncorrectResultSizeException
  {
    var m := Matching(rows, col, token);
    if |m| <= 1 then
      SingleMatchUnique(rows, col, token);
      if |m| == 0 then Success(None) else Success(Some(m[0]))
    else
      assert !Unique(rows, col, token) by {
        if Unique(rows, col, token) { MatchingAtMostOne(rows, col, token); }
      }
      Failure(IncorrectResultSizeException)
  }

  /** `findByAccessToken`: the single row whose access token is exactly `token`. */
  function FindByAccessToken(rows: seq<Token>, token: string): (r: Result<Option<Token>, Exception>)
    reads rows
    ensures r == Success(None) <==> forall k :: 0 <= k < |rows| ==> rows[k].accessToken != Some(token)
    ensures r.Success? && r.value.Some? ==> r.value.value in rows && r.value.value.accessToken == Some(token)
    ensures r.Failure? <==> !Unique(rows, AccessTokenColumn, token)
  {
    FindBy(rows, AccessTokenColumn, token)
  }

  /** `findByRefreshToken`: the single row whose refresh token is exactly `token`. */
  function FindByRefreshToken(rows: seq<Token>, token: string): (r: Result<Option<Token>, Exception>)
    reads rows
    ensures r == Success(None) <==> forall k :: 0 <= k < |rows| ==> rows[k].refreshToken != Some(token)
    ensures r.Success? && r.value.Some? ==> r.value.value in rows && r.value.value.refreshToken == Some(token)
    ensures r.Failure? <==> !Unique(rows, RefreshTokenColumn, token)
  {
    FindBy(rows, RefreshTokenColumn, token)
  }

  /** When the column holds `token` at most once, at most one row matches. */
  lemma {:induction false} MatchingAtMostOne(rows: seq<Token>, col: Column, token: string)
    requires Unique(rows, col, token)
    ensures |Matching(rows, col, token)| <= 1
    decreases |rows|
  {
    if rows != [] {
      var rest := rows[1..];
      assert Unique(rest, col, token) by {
        forall i, j | 0 <= i < |rest| && 0 <= j < |rest| &&
                      Key(rest[i], col) == Some(token) && Key(rest[j], col) == Some(token)
          ensures i == j
        {
          assert rest[i] == rows[i + 1] && rest[j] == rows[j + 1];
        }
      }
      MatchingAtMostOne(rest, col, token);
      if Key(rows[0], col) == Some(token) {
        // a later match would be a second position holding the same token
        if |Matching(rest, col, token)| > 0 {
          LaterMatchBreaksUnique(rows, col, token);
          assert false;
        }
      }
    }
  }

  /** Two different positions holding `token` give two matches. */
  lemma {:induction false} TwoMatches(rows: seq<Token>, col: Column, token: string, i: int, j: int)
    requires 0 <= i < |rows| && 0 <= j < |rows| && i != j
    requires Key(rows[i], col) == Some(token) && Key(rows[j], col) == Some(token)
    ensures |Matching(rows, col, token)| >= 2
    decreases |rows|
  {
    var rest := rows[1..];
    if i == 0 || j == 0 {
      var k := if i == 0 then j else i;
      assert rest[k - 1] == rows[k];
      assert rows[k] in Matching(rest, col, token);
    } else {
      assert rest[i - 1] == rows[i] && rest[j - 1] == rows[j];
      TwoMatches(rest, col, token, i - 1, j - 1);
    }
  }

  /** Conversely, at most one match means the column holds `token` at most once. */
  lemma SingleMatchUnique(rows: seq<Token>, col: Column, token: string)
    requires |Matching(rows, col, token)| <= 1
    ensures Unique(rows, col, token)
  {
    forall i, j | 0 <= i < |rows| && 0 <= j < |rows| &&
                  Key(rows[i], col) == Some(token) && Key(rows[j], col) == Some(token)
      ensures i == j
    {
      if i != j { TwoMatches(rows, col, token, i, j); }
    }
  }

  lemma LaterMatchBreaksUnique(rows: seq<Token>, col: Column, token: string)
    requires rows != [] && Key(rows[0], col) == Some(token)
    requires |Matching(rows[1..], col, token)| > 0
    ensures !Unique(rows, col, token)
  {
    var rest := rows[1..];
    var m := Matching(rest, col, token);
    var k :| 0 <= k < |rest| && rest[k] == m[0];
    assert rows[k + 1] == m[0];
  }

  /** The unique row holding `token` is the one the lookup returns. */
  lemma FoundRow(rows: seq<Token>, col: Column, token: string, i: int)
    requires 0 <= i < |rows| && Key(rows[i], col) == Some(token)
    requires Unique(rows, col, token)
    ensures FindBy(rows, col, token) == Success(Some(rows[i]))
  {
    MatchingAtMostOne(rows, col, token);
    var m := Matching(rows, col, token);
    assert rows[i] in m;
  }
}
