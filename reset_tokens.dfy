/**
 * The password-reset tokens of app/models/User.php, over the
 * `password_resets` table.
 *
 * The table is a set of rows held by a `PasswordResets` object; each SQL
 * statement is one update of that set. `random_bytes(32)` is the
 * `randomBytes` parameter, `hash('sha256', …)` the `sha` parameter, and
 * `time()` the `now` parameter. Expiry times are integer seconds (the
 * `date`/`strtotime` round trip in UTC gives back the same second). A
 * database failure (`PDOException`) is the `fault` parameter of `Create`.
 */
module ResetTokens {
  import opened Wrappers
  import opened Config
  import opened Logging
  import Hex

  datatype ResetRow = ResetRow(userId: int, tokenHash: string, expiresAt: int)

  /** The row `findByUsername` returns: the columns the pages read. */
  datatype UserRow = UserRow(id: int, name: string, passwordHash: string)

  /** Where `createPasswordResetToken` is interrupted by a database exception, if anywhere. */
  datatype Fault = NoFault | FailsAtDelete(e: Throwable) | FailsAtInsert(e: Throwable)

  /** `sha` maps distinct strings to distinct hashes. */
  ghost predicate Injective(sha: string -> string) {
    forall x: string, y: string :: sha(x) == sha(y) ==> x == y
  }

  /** The `WHERE` clause of a `DELETE FROM password_resets`: by `user_id` or by `token_hash`. */
  datatype Selector = ByUser(userId: int) | ByHash(tokenHash: string)

  /** The rows the `WHERE` clause of `sel` matches. */
  predicate Selects(sel: Selector, r: ResetRow) {
    match sel
    case ByUser(userId) => r.userId == userId
    case ByHash(tokenHash) => r.tokenHash == tokenHash
  }

  /** `DELETE FROM password_resets WHERE …`: the rows the clause does not match are left. */
  function Without(rows: set<ResetRow>, sel: Selector): (after: set<ResetRow>)
    ensures after <= rows
    ensures forall r :: r in after ==> !Selects(sel, r)
    ensures forall r :: r in rows && !Selects(sel, r) ==> r in after
  {
    set r | r in rows && !Selects(sel, r)
  }

  /** No row carries the hash. */
  predicate NoRowWith(rows: set<ResetRow>, tokenHash: string) {
    forall r :: r in rows ==> r.tokenHash != tokenHash
  }

  /** The row `createPasswordResetToken` inserts for the token made of `randomBytes`. */
  function IssuedRow(userId: int, randomBytes: seq<Hex.Byte>, sha: string -> string, now: int): ResetRow {
    ResetRow(userId, sha(Hex.Bin2Hex(randomBytes)), now + PASSWORD_RESET_EXPIRY)
  }

  /** The table after `createPasswordResetToken`: the delete and the insert that happened before any fault. */
  function RowsAfterCreate(rows: set<ResetRow>, userId: int, randomBytes: seq<Hex.Byte>, sha: string -> string, now: int, fault: Fault)
    : set<ResetRow>
  {
    match fault
    case FailsAtDelete(_) => rows
    case FailsAtInsert(_) => Without(rows, ByUser(userId))
    case NoFault => Without(rows, ByUser(userId)) + {IssuedRow(userId, randomBytes, sha, now)}
  }

  /** What `createPasswordResetToken` returns: the plaintext token, or null after a fault. */
  function CreateResult(randomBytes: seq<Hex.Byte>, fault: Fault): (token: Option<string>)
    requires |randomBytes| == 32
    ensures token.Some? <==> fault.NoFault?
    ensures token.Some? ==> |token.value| == 64 && Hex.AllLowerHex(token.value)
  {
    if fault.NoFault? then Some(Hex.Bin2Hex(randomBytes)) else None
  }

  /** What `createPasswordResetToken` logs: the creation, or the exception. */
  function CreateLog(level: Level, userId: int, fault: Fault, ctx: Context): seq<LogEntry> {
    match fault
    case NoFault => Emit(level, Level.Info, "Password reset token created", Some(userId), ctx)
    case FailsAtDelete(e) => Emit(level, Level.Error, ExceptionMessage(e), Some(userId), ctx)
    case FailsAtInsert(e) => Emit(level, Level.Error, ExceptionMessage(e), Some(userId), ctx)
  }

  /**
   * The outcomes `verifyPasswordResetToken` allows, for the hash of the
   * submitted token. `LIMIT 1` without an order picks any matching row: an
   * expired one is deleted with every row of that hash and gives null; a
   * live one (expiry not before now) gives its user and changes nothing.
   */
  ghost predicate VerifyOutcome(rows: set<ResetRow>, tokenHash: string, now: int, result: Option<int>, after: set<ResetRow>) {
    if NoRowWith(rows, tokenHash) then result == None && after == rows
    else exists r :: r in rows && r.tokenHash == tokenHash &&
           if r.expiresAt < now then result == None && after == Without(rows, ByHash(tokenHash))
           else result == Some(r.userId) && after == rows
  }

  // ---------------------------------------------------------------------
  // Properties of the token table
  // ---------------------------------------------------------------------

  /** After a successful create the user has exactly the new row, and every other user's rows are as they were. */
  lemma CreateLeavesOneRow(rows: set<ResetRow>, userId: int, randomBytes: seq<Hex.Byte>, sha: string -> string, now: int, r: ResetRow)
    ensures var after := RowsAfterCreate(rows, userId, randomBytes, sha, now, NoFault);
            IssuedRow(userId, randomBytes, sha, now) in after &&
            (r in after && r.userId == userId ==> r == IssuedRow(userId, randomBytes, sha, now)) &&
            (r.userId != userId ==> (r in after <==> r in rows))
  {
  }

  /** The stored row holds the hash of the returned token, due PASSWORD_RESET_EXPIRY seconds from now. */
  lemma CreateStoresHash(rows: set<ResetRow>, userId: int, randomBytes: seq<Hex.Byte>, sha: string -> string, now: int)
    requires |randomBytes| == 32
    ensures var token := CreateResult(randomBytes, NoFault).value;
            ResetRow(userId, sha(token), now + PASSWORD_RESET_EXPIRY) in RowsAfterCreate(rows, userId, randomBytes, sha, now, NoFault)
  {
  }

  /** A failed create never leaves a row for the user that was not there before. */
  lemma FaultyCreateAddsNothing(rows: set<ResetRow>, userId: int, randomBytes: seq<Hex.Byte>, sha: string -> string, now: int, fault: Fault)
    requires !fault.NoFault?
    ensures RowsAfterCreate(rows, userId, randomBytes, sha, now, fault) <= rows
  {
  }

  /** Without a row of the hash, verify gives null and leaves the table alone. */
  lemma UnknownTokenFails(rows: set<ResetRow>, tokenHash: string, now: int, result: Option<int>, after: set<ResetRow>)
    requires NoRowWith(rows, tokenHash)
    requires VerifyOutcome(rows, tokenHash, now, result, after)
    ensures result == None && after == rows
  {
  }

  /** If the only row of a hash is `row`, verify gives its user up to and including its expiry second, and deletes it afterwards. */
  lemma VerifySingleRow(rows: set<ResetRow>, row: ResetRow, now: int, result: Option<int>, after: set<ResetRow>)
    requires row in rows
    requires forall r :: r in rows && r.tokenHash == row.tokenHash ==> r == row
    requires VerifyOutcome(rows, row.tokenHash, now, result, after)
    ensures now <= row.expiresAt ==> result == Some(row.userId) && after == rows
    ensures now > row.expiresAt ==> result == None && after == rows - {row}
  {
    if now > row.expiresAt {
      assert Without(rows, ByHash(row.tokenHash)) == rows - {row};
    }
  }

  /**
   * Issue then verify: the token round-trips to its user until it
   * expires, and gives null once expired, as long as no other row happened
   * to carry its hash.
   */
  lemma IssueThenVerify(rows: set<ResetRow>, userId: int, randomBytes: seq<Hex.Byte>, sha: string -> string, now: int, later: int,
                        result: Option<int>, after: set<ResetRow>)
    requires |randomBytes| == 32
    requires NoRowWith(Without(rows, ByUser(userId)), sha(Hex.Bin2Hex(randomBytes)))
    requires VerifyOutcome(RowsAfterCreate(rows, userId, randomBytes, sha, now, NoFault),
                           sha(CreateResult(randomBytes, NoFault).value), later, result, after)
    ensures later <= now + PASSWORD_RESET_EXPIRY ==> result == Some(userId)
    ensures later > now + PASSWORD_RESET_EXPIRY ==>
              result == None && NoRowWith(after, sha(CreateResult(randomBytes, NoFault).value))
  {
    var issued := RowsAfterCreate(rows, userId, randomBytes, sha, now, NoFault);
    var row := IssuedRow(userId, randomBytes, sha, now);
    VerifySingleRow(issued, row, later, result, after);
  }

  /** A second token for the same user makes the first one verify to null. */
  lemma SecondTokenSupersedesFirst(rows: set<ResetRow>, userId: int, b1: seq<Hex.Byte>, b2: seq<Hex.Byte>, sha: string -> string,
                                   t1: int, t2: int, later: int, result: Option<int>, after: set<ResetRow>)
    requires |b1| == 32 && |b2| == 32 && b1 != b2
    requires Injective(sha)
    requires NoRowWith(Without(rows, ByUser(userId)), sha(Hex.Bin2Hex(b1)))
    requires VerifyOutcome(RowsAfterCreate(RowsAfterCreate(rows, userId, b1, sha, t1, NoFault), userId, b2, sha, t2, NoFault),
                           sha(Hex.Bin2Hex(b1)), later, result, after)
    ensures result == None
  {
    Hex.Bin2HexInjective(b1, b2);
    var second := RowsAfterCreate(RowsAfterCreate(rows, userId, b1, sha, t1, NoFault), userId, b2, sha, t2, NoFault);
    forall r | r in second
      ensures r.tokenHash != sha(Hex.Bin2Hex(b1))
    {
      if r.userId == userId {
        assert r == IssuedRow(userId, b2, sha, t2);
      }
    }
  }

  /** Both deletions leave a token that only the deleted rows carried verifying to null. */
  lemma ConsumedTokenFails(rows: set<ResetRow>, userId: int, tokenHash: string, now: int, result: Option<int>, after: set<ResetRow>)
    requires forall r :: r in rows && r.tokenHash == tokenHash ==> r.userId == userId
    ensures VerifyOutcome(Without(rows, ByUser(userId)), tokenHash, now, result, after) ==> result == None && after == Without(rows, ByUser(userId))
    ensures VerifyOutcome(Without(rows, ByHash(tokenHash)), tokenHash, now, result, after) ==> result == None && after == Without(rows, ByHash(tokenHash))
  {
  }

  /** The two deletions touch nothing else: other users' rows, and rows of other hashes, stay. */
  lemma DeletionsAreTargeted(rows: set<ResetRow>, userId: int, tokenHash: string, r: ResetRow)
    requires r in rows
    ensures r.userId != userId ==> r in Without(rows, ByUser(userId))
    ensures r.tokenHash != tokenHash ==> r in Without(rows, ByHash(tokenHash))
    ensures r !in Without(rows, ByUser(r.userId)) && r !in Without(rows, ByHash(r.tokenHash))
  {
  }

  // ---------------------------------------------------------------------
  // The table
  // ---------------------------------------------------------------------

  class PasswordResets {
    var rows: set<ResetRow>

    constructor (initial: set<ResetRow>)
      ensures rows == initial
    {
      rows := initial;
    }

    method Create(userId: int, randomBytes: seq<Hex.Byte>, sha: string -> string, now: int, fault: Fault, log: Logger, ctx: Context)
      returns (token: Option<string>)
      requires |randomBytes| == 32
      modifies this, log
      ensures rows == RowsAfterCreate(old(rows), userId, randomBytes, sha, now, fault)
      ensures token == CreateResult(randomBytes, fault)
      ensures log.level == old(log.level)
      ensures log.written == old(log.written) + CreateLog(log.level, userId, fault, ctx)
    {
      if fault.FailsAtDelete? {
        log.Exception(fault.e, Some(userId), ctx);
        return None;
      }
      DeleteByUserId(userId);
      var plain := Hex.Bin2Hex(randomBytes);
      var tokenHash := sha(plain);
      var expiresAt := now + PASSWORD_RESET_EXPIRY;
      if fault.FailsAtInsert? {
        log.Exception(fault.e, Some(userId), ctx);
        return None;
      }
      rows := rows + {ResetRow(userId, tokenHash, expiresAt)};
      log.Info("Password reset token created", Some(userId), ctx);
      return Some(plain);
    }

    method Verify(token: string, sha: string -> string, now: int) returns (userId: Option<int>)
      modifies this
      ensures VerifyOutcome(old(rows), sha(token), now, userId, rows)
    {
      var tokenHash := sha(token);
      if NoRowWith(rows, tokenHash) {
        return None;
      }
      var row :| row in rows && row.tokenHash == tokenHash;
      if row.expiresAt < now {
        DeleteByHash(tokenHash);
        return None;
      }
      return Some(row.userId);
    }

    method DeleteByHash(tokenHash: string)
      modifies this
      ensures rows == Without(old(rows), ByHash(tokenHash))
    {
      rows := set r | r in rows && r.tokenHash != tokenHash;
    }

    method DeleteByUserId(userId: int)
      modifies this
      ensures rows == Without(old(rows), ByUser(userId))
    {
      rows := set r | r in rows && r.userId != userId;
    }
  }
}
