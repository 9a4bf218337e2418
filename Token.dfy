/**
 * The `Token` ledger row: one issued access/refresh pair, the user it belongs to and
 * the revocation flag. A mutable entity whose setters overwrite one field each.
 */
module TokenEntity {
  import opened Wrappers

  /** Java's `Integer` range (the row id is a boxed 32-bit int, null until persisted). */
  type Int32 = x: int | -0x8000_0000 <= x < 0x8000_0000

  /** A snapshot of every field of a row, so that a setter can say what did not change. */
  datatype TokenRow = TokenRow(
    id: Option<Int32>,
    accessToken: Option<string>,
    refreshToken: Option<string>,
    loggedOut: bool,
    users: Option<string>)   // the owning user, by username

  class Token {
    var id: Option<Int32>
    var accessToken: Option<string>
    var refreshToken: Option<string>
    var loggedOut: bool
    var users: Option<string>

    function Row(): TokenRow
      reads this
    {
      TokenRow(id, accessToken, refreshToken, loggedOut, users)
    }

    /** A new row: every reference field null, the flag false, so `IsLoggedOut` answers true. */
    constructor ()
      ensures Row() == TokenRow(None, None, None, false, None)
      ensures IsLoggedOut()
    {
      id, accessToken, refreshToken, loggedOut, users := None, None, None, false, None;
    }

    /**
     * Despite its name, true exactly when the stored flag is NOT set, i.e. when the
     * row has not been logged out. The token checks rely on this inverted reading.
     */
    function IsLoggedOut(): (r: bool)
      reads this
      ensures r <==> !loggedOut
    {
      !loggedOut
    }

    method SetRefreshToken(refreshToken: Option<string>)
      modifies this
      ensures Row() == old(Row()).(refreshToken := refreshToken)
    {
      this.refreshToken := refreshToken;
    }

    method SetId(id: Option<Int32>)
      modifies this
      ensures Row() == old(Row()).(id := id)
    {
      this.id := id;
    }

    method SetAccessToken(accessToken: Option<string>)
      modifies this
      ensures Row() == old(Row()).(accessToken := accessToken)
    {
      this.accessToken := accessToken;
    }

    method SetLoggedOut(loggedOut: bool)
      modifies this
      ensures Row() == old(Row()).(loggedOut := loggedOut)
      ensures IsLoggedOut() == !loggedOut
    {
      this.loggedOut := loggedOut;
    }

    method SetUsers(users: Option<string>)
      modifies this
      ensures Row() == old(Row()).(users := users)
    {
      this.users := users;
    }
  }

  /** Logging a row out a second time leaves it exactly as logging it out once did. */
  method LogOutTwice(t: Token)
    modifies t
    ensures t.Row() == old(t.Row()).(loggedOut := true)
    ensures !t.IsLoggedOut()
  {
    t.SetLoggedOut(true);
    ghost var once := t.Row();
    t.SetLoggedOut(true);
    assert t.Row() == once;
  }
}
