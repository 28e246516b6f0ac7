/** Activation and authentication tokens (internal/models/tokens.go). The table
    holds only the SHA-256 digest of a token's plaintext; the plaintext goes to
    the client once. SHA-256 is a symbolic, collision-free digest here, and the
    sixteen random bytes and the current time are inputs. */
module Tokens {
  import opened Wrappers
  import opened ModelErrors
  import Text
  import Base32
  import V = Validator

  const ActivationScope: string := "activation"
  const AuthenticationScope: string := "authentication"

  /** sha256.Sum256 of a string, as an uninterpreted injective digest. */
  datatype Digest = Sha256(preimage: string)

  /** Which statement a token lookup runs. SelectStar is the code as written:
      `SELECT *` scanned into a single integer. SelectUserId is the lookup it
      evidently intends, which reads back the row's user_id. */
  datatype TokenQuery = SelectUserId | SelectStar

  /** database/sql's refusal of a Scan whose destination count differs from the
      row's column count, for the four columns Insert writes. */
  const ScanArityError: string := "sql: expected 4 destination arguments in Scan, not 1"

  /** A token as GenerateToken builds it. The hash is absent (a nil slice)
      when the random source failed before it was computed. Times are
      nanoseconds. */
  datatype Token = Token(plaintext: string, hash: Option<Digest>, userID: int, expiry: int, scope: string)

  /** One row of the tokens table: hash, user_id, expiry, scope. */
  datatype TokenRow = TokenRow(hash: Option<Digest>, userID: int, expiry: int, scope: string)

  function RowOf(t: Token): TokenRow {
    TokenRow(t.hash, t.userID, t.expiry, t.scope)
  }

  /** GenerateToken's two results: the (possibly partial) token and the error. */
  datatype Generated = Generated(token: Token, err: Option<Error>)

  /** GenerateToken(ttl, userID, scope) at time now, with random bytes supplied by
      the caller; None stands for a failure of the random source. */
  function GenerateToken(ttl: int, userID: int, scope: string, now: int, random: Option<seq<Base32.Byte>>): (g: Generated)
    requires random.Some? ==> |random.value| == 16
    ensures g.token.userID == userID && g.token.scope == scope && g.token.expiry == now + ttl
    ensures random.None? <==> g.err.Some?
    ensures random.None? ==> g.err == Some(RandomSourceError) && g.token.plaintext == "" && g.token.hash.None?
    ensures random.Some? ==> g.token.hash == Some(Sha256(g.token.plaintext))
    ensures random.Some? ==> Base32.Decode(g.token.plaintext) == Some(random.value)
    ensures random.Some? ==> |g.token.plaintext| == 26 && Text.ByteLen(g.token.plaintext) == 26
    ensures random.Some? ==> forall i :: 0 <= i < |g.token.plaintext| ==> Base32.IsSymbol(g.token.plaintext[i])
  {
    var token := Token("", None, userID, now + ttl, scope);
    match random
    case None => Generated(token, Some(RandomSourceError))
    case Some(bytes) =>
      var plaintext := Base32.Encode(bytes);
      Base32.SixteenBytesEncodeTo26(bytes);
      Base32.EncodeDecode(bytes);
      Generated(token.(plaintext := plaintext, hash := Some(Sha256(plaintext))), None)
  }

  /** Different random bytes give different plaintexts, hence different hashes. */
  lemma DistinctRandomDistinctTokens(ttl: int, userID: int, scope: string, now: int, a: seq<Base32.Byte>, b: seq<Base32.Byte>)
    requires |a| == 16 && |b| == 16 && a != b
    ensures GenerateToken(ttl, userID, scope, now, Some(a)).token.plaintext != GenerateToken(ttl, userID, scope, now, Some(b)).token.plaintext
    ensures GenerateToken(ttl, userID, scope, now, Some(a)).token.hash != GenerateToken(ttl, userID, scope, now, Some(b)).token.hash
  {
  }

  /** The user of the first row whose hash is the given digest. */
  function FirstWithHash(rows: seq<TokenRow>, d: Digest): (r: Option<int>)
    ensures r.None? <==> forall i :: 0 <= i < |rows| ==> rows[i].hash != Some(d)
    ensures r.Some? ==> exists i :: 0 <= i < |rows| && rows[i].hash == Some(d) && rows[i].userID == r.value
    decreases |rows|
  {
    if rows == [] then None
    else if rows[0].hash == Some(d) then Some(rows[0].userID)
    else
      var rest := FirstWithHash(rows[1..], d);
      assert forall i :: 1 <= i < |rows| ==> rows[i] == rows[1..][i - 1];
      if rest.Some? then
        ghost var j :| 0 <= j < |rows[1..]| && rows[1..][j].hash == Some(d) && rows[1..][j].userID == rest.value;
        assert rows[j + 1].hash == Some(d) && rows[j + 1].userID == rest.value;
        rest
      else rest
  }

  /** The rows DeleteAllTokenForUser(userID, scope) leaves, in their order. */
  function WithoutUserScope(rows: seq<TokenRow>, userID: int, scope: string): (r: seq<TokenRow>)
    ensures |r| <= |rows|
    ensures forall row :: row in r <==> row in rows && !(row.userID == userID && row.scope == scope)
    decreases |rows|
  {
    if rows == [] then []
    else
      var rest := WithoutUserScope(rows[1..], userID, scope);
      assert forall row :: row in rows <==> row == rows[0] || row in rows[1..];
      if rows[0].userID == userID && rows[0].scope == scope then rest else [rows[0]] + rest
  }

  /** Deleting twice deletes nothing more. */
  lemma {:induction false} DeleteIdempotent(rows: seq<TokenRow>, userID: int, scope: string)
    ensures WithoutUserScope(WithoutUserScope(rows, userID, scope), userID, scope) == WithoutUserScope(rows, userID, scope)
    decreases |rows|
  {
    if rows != [] {
      DeleteIdempotent(rows[1..], userID, scope);
    }
  }

  /** A table with no row of that user and scope is left as it is. */
  lemma {:induction false} DeleteKeepsOthers(rows: seq<TokenRow>, userID: int, scope: string)
    requires forall i :: 0 <= i < |rows| ==> !(rows[i].userID == userID && rows[i].scope == scope)
    ensures WithoutUserScope(rows, userID, scope) == rows
    decreases |rows|
  {
    if rows != [] {
      DeleteKeepsOthers(rows[1..], userID, scope);
    }
  }

  /** The delete works row by row: it distributes over concatenation, and a
      single row is kept exactly when it is not of that user and scope, so the
      survivors of a mixed table are its other rows in their original order. */
  lemma {:induction false} DeleteDistributes(a: seq<TokenRow>, b: seq<TokenRow>, userID: int, scope: string)
    ensures WithoutUserScope(a + b, userID, scope) == WithoutUserScope(a, userID, scope) + WithoutUserScope(b, userID, scope)
    ensures forall r :: WithoutUserScope([r], userID, scope) == if r.userID == userID && r.scope == scope then [] else [r]
    decreases |a|
  {
    if a == [] {
      assert a + b == b;
    } else {
      assert (a + b)[1..] == a[1..] + b;
      DeleteDistributes(a[1..], b, userID, scope);
    }
    forall r ensures WithoutUserScope([r], userID, scope) == if r.userID == userID && r.scope == scope then [] else [r] {
      assert [r][1..] == [];
    }
  }

  class TokenModel {
    var rows: seq<TokenRow>

    constructor ()
      ensures rows == []
    {
      rows := [];
    }

    /** Insert: one INSERT of hash, user_id, expiry and scope; a driver failure
        (the fault) inserts nothing. */
    method Insert(token: Token, fault: Option<string>) returns (err: Option<Error>)
      modifies this
      ensures err.Some? ==> unchanged(this)
      ensures fault.None? ==> err.None? && rows == old(rows) + [RowOf(token)]
      ensures fault.Some? ==> err == Some(DbError(fault.value)) && rows == old(rows)
    {
      if fault.Some? {
        return Some(DbError(fault.value));
      }
      rows := rows + [RowOf(token)];
      return None;
    }

    /** New: GenerateToken then Insert; on either failure no token is returned
        and the table is unchanged. */
    method New(ttl: int, userID: int, scope: string, now: int, random: Option<seq<Base32.Byte>>, fault: Option<string>)
      returns (token: Option<Token>, err: Option<Error>)
      requires random.Some? ==> |random.value| == 16
      modifies this
      ensures err.Some? ==> unchanged(this)
      ensures random.None? ==> token.None? && err == Some(RandomSourceError) && rows == old(rows)
      ensures random.Some? && fault.Some? ==> token.None? && err == Some(DbError(fault.value)) && rows == old(rows)
      ensures random.Some? && fault.None? ==>
                err.None? && token == Some(GenerateToken(ttl, userID, scope, now, random).token)
                && rows == old(rows) + [RowOf(token.value)]
      ensures token.Some? ==> token.value.userID == userID && token.value.scope == scope && token.value.expiry == now + ttl
                              && token.value.hash == Some(Sha256(token.value.plaintext))
    {
      var g := GenerateToken(ttl, userID, scope, now, random);
      if g.err.Some? {
        return None, g.err;
      }
      err := Insert(g.token, fault);
      if err.Some? {
        return None, err;
      }
      return Some(g.token), None;
    }

    /** GetByToken as evidently intended: the user of a row whose hash is
        SHA-256 of the plaintext. No expiry or scope is consulted. */
    function GetByToken(plaintext: string, fault: Option<string>): (r: Result<int, Error>)
      reads this
      ensures fault.Some? ==> r == Err(DbError(fault.value))
      ensures fault.None? ==> (r == Err(ErrRecordNotFound) <==> forall i :: 0 <= i < |rows| ==> rows[i].hash != Some(Sha256(plaintext)))
      ensures r.Ok? ==> exists i :: 0 <= i < |rows| && rows[i].hash == Some(Sha256(plaintext)) && rows[i].userID == r.value
    {
      if fault.Some? then Err(DbError(fault.value))
      else
        match FirstWithHash(rows, Sha256(plaintext))
        case None => Err(ErrRecordNotFound)
        case Some(id) => Ok(id)
    }

    /** GetByToken as written: a matching row has more columns than the one
        destination it is scanned into, so database/sql refuses the Scan; only a
        miss reaches sql.ErrNoRows. No lookup ever returns a user. */
    function GetByTokenAsWritten(plaintext: string, fault: Option<string>): (r: Result<int, Error>)
      reads this
      ensures r.Err?
      ensures fault.Some? ==> r == Err(DbError(fault.value))
      ensures fault.None? ==> (r == Err(ErrRecordNotFound) <==> forall i :: 0 <= i < |rows| ==> rows[i].hash != Some(Sha256(plaintext)))
      ensures fault.None? && r != Err(ErrRecordNotFound) ==> r == Err(DbError(ScanArityError))
    {
      if fault.Some? then Err(DbError(fault.value))
      else
        match FirstWithHash(rows, Sha256(plaintext))
        case None => Err(ErrRecordNotFound)
        case Some(_) => Err(DbError(ScanArityError))
    }

    /** The lookup a caller runs, as written or as intended. */
    function Lookup(plaintext: string, fault: Option<string>, query: TokenQuery): Result<int, Error>
      reads this
    {
      match query
      case SelectUserId => GetByToken(plaintext, fault)
      case SelectStar => GetByTokenAsWritten(plaintext, fault)
    }

    /** DeleteAllTokenForUser: removes the rows of that user and scope; zero rows
        is not an error. */
    method DeleteAllTokenForUser(userID: int, scope: string, fault: Option<string>) returns (err: Option<Error>)
      modifies this
      ensures err.Some? ==> unchanged(this)
      ensures fault.None? ==> err.None? && rows == WithoutUserScope(old(rows), userID, scope)
      ensures fault.Some? ==> err == Some(DbError(fault.value)) && rows == old(rows)
    {
      if fault.Some? {
        return Some(DbError(fault.value));
      }
      rows := WithoutUserScope(rows, userID, scope);
      return None;
    }
  }

  /** A token issued by New is found again by its plaintext under the intended
      lookup, with its user when no other user's row carries the same hash. */
  lemma IssuedTokenFound(m: TokenModel, t: Token)
    requires t.hash == Some(Sha256(t.plaintext))
    requires RowOf(t) in m.rows
    ensures m.GetByToken(t.plaintext, None).Ok?
    ensures (forall i :: 0 <= i < |m.rows| && m.rows[i].hash == t.hash ==> m.rows[i].userID == t.userID) ==>
              m.GetByToken(t.plaintext, None) == Ok(t.userID)
  {
  }

  /** As written, the lookup of that same stored token fails with the Scan
      error rather than sql.ErrNoRows. */
  lemma IssuedTokenFailsAsWritten(m: TokenModel, t: Token)
    requires t.hash == Some(Sha256(t.plaintext))
    requires RowOf(t) in m.rows
    ensures m.GetByTokenAsWritten(t.plaintext, None) == Err(DbError(ScanArityError))
  {
  }

  /** The two lookups agree on every failure of the intended one, and where it
      finds a user the lookup as written fails with the Scan error. */
  lemma LookupsAgreeOnMisses(m: TokenModel, plaintext: string, fault: Option<string>)
    ensures m.GetByToken(plaintext, fault).Err? ==> m.GetByTokenAsWritten(plaintext, fault) == m.GetByToken(plaintext, fault)
    ensures m.GetByToken(plaintext, fault).Ok? ==> m.GetByTokenAsWritten(plaintext, fault) == Err(DbError(ScanArityError))
  {
  }

  /** The errors ValidateTokenPlaintext records: each Check receives the condition
      under which the token is acceptable. */
  function TokenPlaintextErrors(errors: V.FieldErrors, plaintext: string): V.FieldErrors {
    var e1 := V.WithCheck(errors, plaintext != "", "token", "must be provided");
    V.WithCheck(e1, Text.ByteLen(plaintext) == 26, "token", "must be 26 bytes long")
  }

  method ValidateTokenPlaintext(v: V.Validator, plaintext: string)
    modifies v
    ensures v.fieldErrors == TokenPlaintextErrors(old(v.fieldErrors), plaintext)
  {
    v.Check(plaintext != "", "token", "must be provided");
    v.Check(Text.ByteLen(plaintext) == 26, "token", "must be 26 bytes long");
  }

  /** As written, a fresh validator stays valid exactly for the empty token; any
      other token, a well-formed 26-byte one included, is rejected with "must be
      provided". */
  lemma TokenPlaintextAsWritten(plaintext: string)
    ensures TokenPlaintextErrors(map[], plaintext) == map[] <==> plaintext == ""
    ensures plaintext != "" ==> TokenPlaintextErrors(map[], plaintext) == map["token" := "must be provided"]
  {
    if plaintext == "" {
      assert Text.ByteLen(plaintext) == 0;
    }
  }

  /** Hence no plaintext GenerateToken produces passes ValidateTokenPlaintext. */
  lemma GeneratedTokensRejected(ttl: int, userID: int, scope: string, now: int, random: seq<Base32.Byte>)
    requires |random| == 16
    ensures TokenPlaintextErrors(map[], GenerateToken(ttl, userID, scope, now, Some(random)).token.plaintext)
            == map["token" := "must be provided"]
  {
    TokenPlaintextAsWritten(GenerateToken(ttl, userID, scope, now, Some(random)).token.plaintext);
  }
}
