/** Users, their passwords and the users table (internal/models/users.go).
    bcrypt is symbolic: a hash records the secret it was made from, the salt
    drawn for it and the cost. The email regular expression is a parameter. */
module Users {
  import opened Wrappers
  import opened ModelErrors
  import Text
  import V = Validator
  import Rows

  /** A stored password_hash; NoHash is the empty byte slice. */
  datatype PasswordHash = NoHash | Bcrypt(secret: string, salt: string, cost: int)

  /** The cost password.Set passes to bcrypt. */
  const BcryptCost: int := 12

  /** The unexported password struct: the plaintext pointer and the hash. */
  datatype Password = Password(plain: Option<string>, hash: PasswordHash)

  const NoPassword: Password := Password(None, NoHash)

  datatype User = User(
    id: int,
    firstName: string,
    lastName: string,
    email: string,
    role: string,
    restaurantID: Option<int>,
    password: Password,
    isActive: bool,
    createdAt: int)

  /** The value AnonymousUser points at: a zero User. */
  const ZeroUser: User := User(0, "", "", "", "", None, NoPassword, false, 0)

  /** The identity a request carries. AnonymousUser is compared by pointer, so it
      is a tag of its own, distinct from any user value. */
  datatype Caller = Anonymous | Known(user: User)

  /** The struct a caller's pointer points at. */
  function Profile(c: Caller): User {
    match c
    case Anonymous => ZeroUser
    case Known(u) => u
  }

  /** IsAnonymous: pointer identity with the sentinel. */
  predicate IsAnonymous(c: Caller) {
    c.Anonymous?
  }

  /** A zero User that is not the sentinel itself looks the same and is still
      not anonymous. */
  lemma CopyOfSentinelIsNotAnonymous()
    ensures Profile(Known(ZeroUser)) == Profile(Anonymous)
    ensures IsAnonymous(Anonymous) && !IsAnonymous(Known(ZeroUser))
  {
  }

  /** password.Set: on success both the hash (bcrypt at cost 12 with the drawn
      salt) and the plaintext are replaced; when bcrypt fails (salt None) the
      password is left as it was. */
  function SetPassword(p: Password, plain: string, salt: Option<string>): (r: (Password, Option<Error>))
    ensures salt.None? ==> r == (p, Some(HashingError))
    ensures salt.Some? ==> (r.1.None? && r.0.plain == Some(plain) && r.0.hash.Bcrypt?
                            && r.0.hash.secret == plain && r.0.hash.cost == BcryptCost)
  {
    match salt
    case None => (p, Some(HashingError))
    case Some(s) => (Password(Some(plain), Bcrypt(plain, s, BcryptCost)), None)
  }

  /** bcrypt.CompareHashAndPassword over the symbolic hash. */
  function CompareHashAndPassword(h: PasswordHash, candidate: string): Option<Error> {
    match h
    case NoHash => Some(ErrHashTooShort)
    case Bcrypt(secret, _, _) => if secret == candidate then None else Some(ErrMismatchedHashAndPassword)
  }

  /** password.Matches: (true, nil) exactly when the hash was made from the
      candidate; otherwise (false, err), never (false, nil). An empty hash is an
      error of its own, not a mismatch. */
  function Matches(p: Password, candidate: string): (r: (bool, Option<Error>))
    ensures r.0 <==> r.1.None?
    ensures r.0 <==> p.hash.Bcrypt? && p.hash.secret == candidate
    ensures p.hash == NoHash ==> r.1 == Some(ErrHashTooShort)
    ensures p.hash.Bcrypt? && !r.0 ==> r.1 == Some(ErrMismatchedHashAndPassword)
  {
    var err := CompareHashAndPassword(p.hash, candidate);
    if err.Some? then (false, err) else (true, None)
  }

  /** A password that was Set matches its plaintext and nothing else. */
  lemma SetThenMatches(p: Password, plain: string, salt: string, candidate: string)
    ensures Matches(SetPassword(p, plain, Some(salt)).0, candidate).0 <==> candidate == plain
    ensures candidate != plain ==> Matches(SetPassword(p, plain, Some(salt)).0, candidate).1 == Some(ErrMismatchedHashAndPassword)
  {
  }

  /** The errors ValidateUsers records; every Check receives the condition under
      which the field is bad. Lengths are byte lengths. */
  function UserErrors(errors: V.FieldErrors, u: User, password: string, emailRx: string -> bool): V.FieldErrors {
    var e1 := V.WithCheck(errors, u.firstName == "", "firstName", "you have to provide first name");
    var e2 := V.WithCheck(e1, u.lastName == "", "lastName", "you have to provide last name");
    var e3 := V.WithCheck(e2, Text.ByteLen(u.firstName) > 50, "firstName", "first name must be greater than 0 and lees than 50 characters");
    var e4 := V.WithCheck(e3, Text.ByteLen(u.lastName) > 50, "lastName", "last name must be greater than 0 and lees than 50 characters");
    var e5 := V.WithCheck(e4, !V.CheckEmail(u.email, emailRx), "email", "you should provide a valid email address");
    V.WithCheck(e5, Text.ByteLen(password) < 6, "password", "password must be greater than 6 characters")
  }

  method ValidateUsers(v: V.Validator, u: User, password: string, emailRx: string -> bool)
    modifies v
    ensures v.fieldErrors == UserErrors(old(v.fieldErrors), u, password, emailRx)
  {
    v.Check(u.firstName == "", "firstName", "you have to provide first name");
    v.Check(u.lastName == "", "lastName", "you have to provide last name");
    v.Check(Text.ByteLen(u.firstName) > 50, "firstName", "first name must be greater than 0 and lees than 50 characters");
    v.Check(Text.ByteLen(u.lastName) > 50, "lastName", "last name must be greater than 0 and lees than 50 characters");
    v.Check(!V.CheckEmail(u.email, emailRx), "email", "you should provide a valid email address");
    v.Check(Text.ByteLen(password) < 6, "password", "password must be greater than 6 characters");
  }

  /** Which fields ValidateUsers flags on a fresh validator. */
  lemma UserValidationRules(u: User, password: string, emailRx: string -> bool)
    ensures var e := UserErrors(map[], u, password, emailRx);
            && e.Keys <= {"firstName", "lastName", "email", "password"}
            && ("firstName" in e <==> u.firstName == "" || Text.ByteLen(u.firstName) > 50)
            && ("lastName" in e <==> u.lastName == "" || Text.ByteLen(u.lastName) > 50)
            && ("email" in e <==> !emailRx(u.email))
            && ("password" in e <==> Text.ByteLen(password) < 6)
  {
    var e2 := V.WithCheck(V.WithCheck(map[], u.firstName == "", "firstName", "you have to provide first name"),
                          u.lastName == "", "lastName", "you have to provide last name");
    var e4 := V.WithCheck(V.WithCheck(e2, Text.ByteLen(u.firstName) > 50, "firstName", "first name must be greater than 0 and lees than 50 characters"),
                          Text.ByteLen(u.lastName) > 50, "lastName", "last name must be greater than 0 and lees than 50 characters");
    var e5 := V.WithCheck(e4, !V.CheckEmail(u.email, emailRx), "email", "you should provide a valid email address");
    var e := V.WithCheck(e5, Text.ByteLen(password) < 6, "password", "password must be greater than 6 characters");
    V.CheckKeys(map[], u.firstName == "", "firstName", "you have to provide first name");
    V.CheckKeys(V.WithCheck(map[], u.firstName == "", "firstName", "you have to provide first name"), u.lastName == "", "lastName", "you have to provide last name");
    V.CheckKeys(e2, Text.ByteLen(u.firstName) > 50, "firstName", "first name must be greater than 0 and lees than 50 characters");
    V.CheckKeys(V.WithCheck(e2, Text.ByteLen(u.firstName) > 50, "firstName", "first name must be greater than 0 and lees than 50 characters"),
                Text.ByteLen(u.lastName) > 50, "lastName", "last name must be greater than 0 and lees than 50 characters");
    V.CheckKeys(e4, !V.CheckEmail(u.email, emailRx), "email", "you should provide a valid email address");
    V.CheckKeys(e5, Text.ByteLen(password) < 6, "password", "password must be greater than 6 characters");
  }

  /** The empty-name message takes precedence over the length message. */
  lemma UserNameMessages(u: User, password: string, emailRx: string -> bool)
    ensures var e := UserErrors(map[], u, password, emailRx);
            && (u.firstName == "" ==> "firstName" in e && e["firstName"] == "you have to provide first name")
            && (u.lastName == "" ==> "lastName" in e && e["lastName"] == "you have to provide last name")
            && (u.firstName != "" && Text.ByteLen(u.firstName) > 50 ==>
                  "firstName" in e && e["firstName"] == "first name must be greater than 0 and lees than 50 characters")
  {
    UserValidationRules(u, password, emailRx);
  }

  /** The text lib/pq gives a violation of a unique constraint. */
  function UniqueViolation(constraint: string): string {
    "pq: duplicate key value violates unique constraint \"" + constraint + "\""
  }

  /** Insert's error mapping: only the exact duplicate-email text is recognised. */
  function InsertError(text: string): (e: Error)
    ensures e == ErrDuplicateEmail <==> text == UniqueViolation("users_email_key")
    ensures e != ErrDuplicateEmail ==> e == DbError(text)
  {
    if text == UniqueViolation("users_email_key") then ErrDuplicateEmail else DbError(text)
  }

  /** Update's error mapping: any text mentioning the constraint is a duplicate. */
  function UpdateError(text: string): (e: Error)
    ensures e == ErrDuplicateEmail <==> Text.Contains(text, "users_email_key")
    ensures e != ErrDuplicateEmail ==> e == DbError(text)
  {
    if Text.Contains(text, "users_email_key") then ErrDuplicateEmail else DbError(text)
  }

  /** The violation text of users_email_key mentions it, so both mappings agree on it. */
  lemma EmailViolationIsDuplicate()
    ensures InsertError(UniqueViolation("users_email_key")) == ErrDuplicateEmail
    ensures UpdateError(UniqueViolation("users_email_key")) == ErrDuplicateEmail
  {
    var text := UniqueViolation("users_email_key");
    assert text[52..52 + |"users_email_key"|] == "users_email_key";
    assert Text.OccursAt(text, "users_email_key", 52);
  }

  function IndexOfId(rows: seq<User>, id: int): (r: Option<nat>)
    ensures r.Some? ==> r.value < |rows| && rows[r.value].id == id
    ensures r.None? <==> forall j :: 0 <= j < |rows| ==> rows[j].id != id
  {
    Rows.FindIndex(rows, (u: User) => u.id == id)
  }

  function IndexOfEmail(rows: seq<User>, email: string): (r: Option<nat>)
    ensures r.Some? ==> r.value < |rows| && rows[r.value].email == email
    ensures r.None? <==> forall j :: 0 <= j < |rows| ==> rows[j].email != email
  {
    Rows.FindIndex(rows, (u: User) => u.email == email)
  }

  /** The row INSERT stores: the columns it names, is_active false, no restaurant. */
  function StoredRow(u: User, id: int, now: int): User {
    User(id, u.firstName, u.lastName, u.email, u.role, None, Password(None, u.password.hash), false, now)
  }

  /** A user as GetUser scans it: every column but password_hash. */
  function Loaded(row: User): User {
    row.(password := NoPassword)
  }

  class UserModel {
    var rows: seq<User>
    var nextId: int

    /** ids come from a serial starting at 1; id and email are unique. */
    predicate Valid()
      reads this
    {
      && nextId >= 1
      && (forall i :: 0 <= i < |rows| ==> 1 <= rows[i].id < nextId)
      && (forall i, j :: 0 <= i < j < |rows| ==> rows[i].id != rows[j].id)
      && (forall i, j :: 0 <= i < j < |rows| ==> rows[i].email != rows[j].email)
    }

    constructor ()
      ensures Valid() && rows == [] && nextId == 1
    {
      rows := [];
      nextId := 1;
    }

    /** Insert: on success the new id, created_at and is_active are written back
        into the user; a taken email is ErrDuplicateEmail; on any error the user
        and the table are unchanged. */
    method Insert(user: User, now: int, fault: Option<string>) returns (saved: User, err: Option<Error>)
      requires Valid()
      modifies this
      ensures err.Some? ==> unchanged(this)
      ensures Valid()
      ensures fault.Some? ==> err == Some(InsertError(fault.value)) && saved == user && rows == old(rows) && nextId == old(nextId)
      ensures fault.None? && IndexOfEmail(old(rows), user.email).Some? ==>
                err == Some(ErrDuplicateEmail) && saved == user && rows == old(rows) && nextId == old(nextId)
      ensures fault.None? && IndexOfEmail(old(rows), user.email).None? ==>
                && err.None?
                && saved == user.(id := old(nextId), createdAt := now, isActive := false)
                && rows == old(rows) + [StoredRow(user, old(nextId), now)]
                && nextId == old(nextId) + 1
    {
      if fault.Some? {
        return user, Some(InsertError(fault.value));
      }
      if IndexOfEmail(rows, user.email).Some? {
        EmailViolationIsDuplicate();
        return user, Some(InsertError(UniqueViolation("users_email_key")));
      }
      var id := nextId;
      rows := rows + [StoredRow(user, id, now)];
      nextId := nextId + 1;
      return user.(id := id, createdAt := now, isActive := false), None;
    }

    /** GetUser: ids below 1 are not found without a lookup; the user is scanned
        without its password hash. */
    function GetUser(id: int, fault: Option<string>): (r: Result<User, Error>)
      reads this
      ensures id < 1 ==> r == Err(ErrRecordNotFound)
      ensures id >= 1 && fault.Some? ==> r == Err(DbError(fault.value))
      ensures id >= 1 && fault.None? ==> (r == Err(ErrRecordNotFound) <==> forall j :: 0 <= j < |rows| ==> rows[j].id != id)
      ensures r.Ok? ==> r.value.id == id && r.value.password == NoPassword
                        && exists j :: 0 <= j < |rows| && rows[j].id == id && r.value == Loaded(rows[j])
    {
      if id < 1 then Err(ErrRecordNotFound)
      else if fault.Some? then Err(DbError(fault.value))
      else
        match IndexOfId(rows, id)
        case None => Err(ErrRecordNotFound)
        case Some(i) => Ok(Loaded(rows[i]))
    }

    /** Update: writes first_name, last_name, email, password_hash, is_active and
        restaurant_id of the row with the user's id. No such row is
        ErrRecordNotFound; an email of another row is ErrDuplicateEmail. */
    method Update(user: User, fault: Option<string>) returns (err: Option<Error>)
      requires Valid()
      modifies this
      ensures err.Some? ==> unchanged(this)
      ensures Valid() && nextId == old(nextId)
      ensures fault.Some? ==> err == Some(UpdateError(fault.value)) && rows == old(rows)
      ensures fault.None? && IndexOfId(old(rows), user.id).None? ==> err == Some(ErrRecordNotFound) && rows == old(rows)
      ensures fault.None? && IndexOfId(old(rows), user.id).Some? ==>
                var i := IndexOfId(old(rows), user.id).value;
                if exists j :: 0 <= j < |old(rows)| && j != i && old(rows)[j].email == user.email then
                  err == Some(ErrDuplicateEmail) && rows == old(rows)
                else
                  err.None? && rows == old(rows)[i := old(rows)[i].(
                    firstName := user.firstName, lastName := user.lastName, email := user.email,
                    password := Password(None, user.password.hash), isActive := user.isActive,
                    restaurantID := user.restaurantID)]
    {
      if fault.Some? {
        return Some(UpdateError(fault.value));
      }
      var found := IndexOfId(rows, user.id);
      if found.None? {
        return Some(ErrRecordNotFound);
      }
      var i := found.value;
      if exists j :: 0 <= j < |rows| && j != i && rows[j].email == user.email {
        EmailViolationIsDuplicate();
        return Some(UpdateError(UniqueViolation("users_email_key")));
      }
      rows := rows[i := rows[i].(
        firstName := user.firstName, lastName := user.lastName, email := user.email,
        password := Password(None, user.password.hash), isActive := user.isActive,
        restaurantID := user.restaurantID)];
      return None;
    }

    /** Delete: removes the row with that id; no such row is ErrRecordNotFound. */
    method Delete(id: int, fault: Option<string>) returns (err: Option<Error>)
      requires Valid()
      modifies this
      ensures err.Some? ==> unchanged(this)
      ensures Valid() && nextId == old(nextId)
      ensures fault.Some? ==> err == Some(DbError(fault.value)) && rows == old(rows)
      ensures fault.None? && IndexOfId(old(rows), id).None? ==> err == Some(ErrRecordNotFound) && rows == old(rows)
      ensures fault.None? && IndexOfId(old(rows), id).Some? ==>
                var i := IndexOfId(old(rows), id).value;
                err.None? && rows == Rows.RemoveAt(old(rows), i)
      ensures fault.None? ==> forall j :: 0 <= j < |rows| ==> rows[j].id != id
    {
      if fault.Some? {
        return Some(DbError(fault.value));
      }
      var found := IndexOfId(rows, id);
      if found.None? {
        return Some(ErrRecordNotFound);
      }
      var i := found.value;
      rows := Rows.RemoveAt(rows, i);
      return None;
    }

    /** GetUserByEmail: only the id and the password hash are scanned. */
    function GetUserByEmail(email: string, fault: Option<string>): (r: Result<User, Error>)
      reads this
      ensures fault.Some? ==> r == Err(DbError(fault.value))
      ensures fault.None? ==> (r == Err(ErrRecordNotFound) <==> forall j :: 0 <= j < |rows| ==> rows[j].email != email)
      ensures r.Ok? ==> exists j :: (0 <= j < |rows| && rows[j].email == email
                                     && r.value == ZeroUser.(id := rows[j].id, password := Password(None, rows[j].password.hash)))
    {
      if fault.Some? then Err(DbError(fault.value))
      else
        match IndexOfEmail(rows, email)
        case None => Err(ErrRecordNotFound)
        case Some(i) => Ok(ZeroUser.(id := rows[i].id, password := Password(None, rows[i].password.hash)))
    }
  }

  /** Writing back a user that GetUser loaded stores an empty password hash:
      the loaded value carries none. */
  lemma LoadedUserHasNoHash(m: UserModel, id: int)
    requires m.GetUser(id, None).Ok?
    ensures m.GetUser(id, None).value.password.hash == NoHash
    ensures Matches(m.GetUser(id, None).value.password, "").1 == Some(ErrHashTooShort)
  {
  }
}
