/** The user handlers of cmd/api/users.go: signup, profile update, activation,
    login and the ownership gate of the password reset. A request body that
    readJSON fails to decode, and an id path parameter that readIDParam fails to
    read, are None; the stores' failures are fault parameters as in the models. */
module UserHandlers {
  import opened Wrappers
  import opened ModelErrors
  import V = Validator
  import Base32
  import Tokens
  import Users
  import Permissions
  import M = Middleware

  const Hour: int := 3600 * M.NanosPerSecond
  const ActivationTtl: int := 72 * Hour
  const AuthenticationTtl: int := 24 * Hour

  const SellerPath: string := "/v1/seller"
  const ReadCode: string := "restaurant:read"
  const WriteCode: string := "restaurant:write"

  const SignupMessage: string := "Please check your email in order to activate your account"
  const UpdatedMessage: string := "user successfully updated"
  const DuplicateEmailMessage: string := "duplicate email is not premitted"
  const InvalidActivationMessage: string := "invalid or expired activation token"

  /** The response a handler writes; when it writes twice, only the first
      status reaches the client. NoResponse is a handler that returns without
      writing anything. */
  datatype Response =
    | Created(user: Users.User, message: string)   // 201 with the user
    | Okay(message: string)                        // 200 with a message
    | IssuedToken(token: string, expiry: int)       // 200 with the plaintext and its expiry
    | FailedValidation(fieldErrors: V.FieldErrors) // 422 with the field errors
    | Unprocessable(message: string)               // 422 with a message
    | NotFound
    | EditConflict
    | InvalidCredentials
    | NotPermitted
    | InvalidPassword
    | NoUserFound
    | ServerError
    | NoResponse

  /** The signup body; Role is decoded and then ignored. */
  datatype SignupInput = SignupInput(firstName: string, lastName: string, email: string, password: string, role: string)

  /** The profile-update body. */
  datatype PatchInput = PatchInput(firstName: string, lastName: string, email: string)

  /** The login body. */
  datatype Credentials = Credentials(email: string, password: string)

  /** The password-reset body. */
  datatype PasswordChange = PasswordChange(oldPassword: string, newPassword: string)

  /** The role a signup gets: the path decides, the body does not. */
  function RoleFor(path: string): (role: string)
    ensures role == "seller" <==> path == SellerPath
    ensures role == "customer" <==> path != SellerPath
  {
    if path == SellerPath then "seller" else "customer"
  }

  /** The user createUserHandler builds from the body before validating it. */
  function SignupUser(input: SignupInput, path: string): Users.User {
    Users.ZeroUser.(firstName := input.firstName, lastName := input.lastName, email := input.email, role := RoleFor(path))
  }

  /** The same user once password.Set has run with the drawn salt. */
  function HashedUser(input: SignupInput, path: string, salt: string): Users.User {
    SignupUser(input, path).(password := Users.SetPassword(Users.NoPassword, input.password, Some(salt)).0)
  }

  /** The grant rows signup adds: "restaurant:write" for sellers, then
      "restaurant:read" for everybody. */
  function SignupGrants(catalogue: seq<Permissions.PermissionRow>, userID: int, path: string): seq<Permissions.Grant> {
    (if path == SellerPath then Permissions.NewGrants(catalogue, userID, [WriteCode]) else [])
    + Permissions.NewGrants(catalogue, userID, [ReadCode])
  }

  /** With both codes catalogued, a new user can read restaurants, and can write
      them exactly when they signed up as a seller. */
  lemma SignupPermissions(catalogue: seq<Permissions.PermissionRow>, grants: seq<Permissions.Grant>, userID: int, path: string)
    requires Permissions.UniqueIds(catalogue)
    requires exists p :: p in catalogue && p.code == ReadCode
    requires exists p :: p in catalogue && p.code == WriteCode
    requires Permissions.GrantedCodes(catalogue, grants, userID, true) == []
    ensures var codes := Permissions.GrantedCodes(catalogue, grants + SignupGrants(catalogue, userID, path), userID, true);
            Permissions.Include(codes, ReadCode) && (Permissions.Include(codes, WriteCode) <==> path == SellerPath)
  {
    var first := if path == SellerPath then Permissions.NewGrants(catalogue, userID, [WriteCode]) else [];
    var second := Permissions.NewGrants(catalogue, userID, [ReadCode]);
    assert grants + SignupGrants(catalogue, userID, path) == (grants + first) + second;
    Permissions.AddForUserGainsCatalogued(catalogue, grants + first, userID, [ReadCode], ReadCode);
    Permissions.AddForUserGainsCatalogued(catalogue, grants + first, userID, [ReadCode], WriteCode);
    if path == SellerPath {
      Permissions.AddForUserGainsCatalogued(catalogue, grants, userID, [WriteCode], WriteCode);
    } else {
      assert grants + first == grants;
    }
  }

  /** The errors signup validation records for a body on a path. */
  function SignupErrors(input: SignupInput, path: string, emailRx: string -> bool): V.FieldErrors {
    Users.UserErrors(map[], SignupUser(input, path), input.password, emailRx)
  }

  /** createUserHandler: validate, hash, insert, then issue the activation
      token and grant the permissions. Each step that fails answers at once and
      leaves what the earlier steps stored. */
  method CreateUser(app: M.Application, path: string, body: Option<SignupInput>, emailRx: string -> bool,
                    salt: Option<string>, now: int, random: Option<seq<Base32.Byte>>, insertFault: Option<string>,
                    tokenFault: Option<string>, writeGrantFault: Option<string>, readGrantFault: Option<string>)
    returns (resp: Response)
    requires app.users.Valid()
    requires random.Some? ==> |random.value| == 16
    modifies app.users, app.tokens, app.permissions
    ensures app.users.Valid()
    ensures app.permissions.catalogue == old(app.permissions.catalogue)
    ensures body.None? ==> resp == ServerError && unchanged(app.users, app.tokens, app.permissions)
    ensures body.Some? && SignupErrors(body.value, path, emailRx) != map[] ==>
              resp == FailedValidation(SignupErrors(body.value, path, emailRx)) && unchanged(app.users, app.tokens, app.permissions)
    ensures body.Some? && SignupErrors(body.value, path, emailRx) == map[] && salt.None? ==>
              resp == ServerError && unchanged(app.users, app.tokens, app.permissions)
    ensures body.Some? && SignupErrors(body.value, path, emailRx) == map[] && salt.Some? ==>
              RegisterOutcome(old(app.users.rows), old(app.users.nextId), app.users.rows, app.users.nextId,
                              old(app.tokens.rows), app.tokens.rows, old(app.permissions.grants), app.permissions.grants,
                              app.permissions.catalogue, HashedUser(body.value, path, salt.value), path, now, random,
                              insertFault, tokenFault, writeGrantFault, readGrantFault, resp)
    ensures resp.Created? ==> resp.user.role == RoleFor(path) && !resp.user.isActive
  {
    if body.None? {
      return ServerError;
    }
    var input := body.value;
    var user := SignupUser(input, path);
    var valid, errors := ValidateSignup(user, input.password, emailRx);
    if !valid {
      return FailedValidation(errors);
    }
    var hashed := Users.SetPassword(user.password, input.password, salt);
    if hashed.1.Some? {
      return ServerError;
    }
    user := user.(password := hashed.0);
    assert user == HashedUser(input, path, salt.value);
    resp := Register(app, user, path, now, random, insertFault, tokenFault, writeGrantFault, readGrantFault);
  }

  /** What the insert of a validated, hashed signup and the steps after it
      leave behind, from the users, tokens and grants before to those after. A
      taken email or a failed insert changes nothing; after a successful insert
      the user row stays whatever fails later. */
  predicate RegisterOutcome(users0: seq<Users.User>, nextId0: int, users1: seq<Users.User>, nextId1: int,
                            tokens0: seq<Tokens.TokenRow>, tokens1: seq<Tokens.TokenRow>,
                            grants0: seq<Permissions.Grant>, grants1: seq<Permissions.Grant>,
                            catalogue: seq<Permissions.PermissionRow>, user: Users.User, path: string, now: int,
                            random: Option<seq<Base32.Byte>>, insertFault: Option<string>, tokenFault: Option<string>,
                            writeGrantFault: Option<string>, readGrantFault: Option<string>, resp: Response)
    requires random.Some? ==> |random.value| == 16
  {
    if insertFault.Some? || Users.IndexOfEmail(users0, user.email).Some? then
      && (resp == Unprocessable(DuplicateEmailMessage) <==>
            insertFault.None? || Users.InsertError(insertFault.value) == ErrDuplicateEmail)
      && (resp != Unprocessable(DuplicateEmailMessage) ==> resp == ServerError)
      && users1 == users0 && nextId1 == nextId0 && tokens1 == tokens0 && grants1 == grants0
    else
      && users1 == users0 + [Users.StoredRow(user, nextId0, now)]
      && nextId1 == nextId0 + 1
      && (resp.Created? <==> OnboardingSucceeds(path, random, tokenFault, writeGrantFault, readGrantFault))
      && (resp.Created? ==> resp == Created(user.(id := nextId0, createdAt := now, isActive := false), SignupMessage))
      && (!resp.Created? ==> resp == ServerError)
      && Onboarded(tokens0, grants0, tokens1, grants1, catalogue, nextId0, path, now, random,
                   tokenFault, writeGrantFault, readGrantFault)
  }

  /** The insert of a validated, hashed signup, and the steps after it. */
  method Register(app: M.Application, user: Users.User, path: string, now: int, random: Option<seq<Base32.Byte>>,
                  insertFault: Option<string>, tokenFault: Option<string>, writeGrantFault: Option<string>,
                  readGrantFault: Option<string>) returns (resp: Response)
    requires app.users.Valid()
    requires random.Some? ==> |random.value| == 16
    modifies app.users, app.tokens, app.permissions
    ensures app.users.Valid()
    ensures app.permissions.catalogue == old(app.permissions.catalogue)
    ensures RegisterOutcome(old(app.users.rows), old(app.users.nextId), app.users.rows, app.users.nextId,
                            old(app.tokens.rows), app.tokens.rows, old(app.permissions.grants), app.permissions.grants,
                            app.permissions.catalogue, user, path, now, random,
                            insertFault, tokenFault, writeGrantFault, readGrantFault, resp)
  {
    var saved, err := app.users.Insert(user, now, insertFault);
    if err.Some? {
      if err.value == ErrDuplicateEmail {
        return Unprocessable(DuplicateEmailMessage);
      }
      return ServerError;
    }
    err := Onboard(app, saved.id, path, now, random, tokenFault, writeGrantFault, readGrantFault);
    if err.Some? {
      return ServerError;
    }
    return Created(saved, SignupMessage);
  }

  /** The validation step of createUserHandler, on a fresh validator. */
  method ValidateSignup(user: Users.User, password: string, emailRx: string -> bool) returns (valid: bool, errors: V.FieldErrors)
    ensures errors == Users.UserErrors(map[], user, password, emailRx)
    ensures valid <==> errors == map[]
  {
    var v := new V.Validator();
    Users.ValidateUsers(v, user, password, emailRx);
    V.ValidIffNoErrors(v);
    return v.Valid(), v.fieldErrors;
  }

  /** Whether every step after the insert succeeds. */
  predicate OnboardingSucceeds(path: string, random: Option<seq<Base32.Byte>>, tokenFault: Option<string>,
                               writeGrantFault: Option<string>, readGrantFault: Option<string>) {
    random.Some? && tokenFault.None? && !(path == SellerPath && writeGrantFault.Some?) && readGrantFault.None?
  }

  /** The token and grant tables after the steps that follow the insert: a 72-hour
      activation token, then the grants of the role, each step only when the one
      before succeeded. */
  predicate Onboarded(tokens0: seq<Tokens.TokenRow>, grants0: seq<Permissions.Grant>,
                      tokens1: seq<Tokens.TokenRow>, grants1: seq<Permissions.Grant>,
                      catalogue: seq<Permissions.PermissionRow>, userID: int, path: string, now: int,
                      random: Option<seq<Base32.Byte>>, tokenFault: Option<string>,
                      writeGrantFault: Option<string>, readGrantFault: Option<string>)
    requires random.Some? ==> |random.value| == 16
  {
    if random.None? || tokenFault.Some? then tokens1 == tokens0 && grants1 == grants0
    else
      && tokens1 == tokens0 + [Tokens.RowOf(Tokens.GenerateToken(ActivationTtl, userID, Tokens.ActivationScope, now, random).token)]
      && grants1 == grants0 + (if path == SellerPath && writeGrantFault.Some? then []
                               else if readGrantFault.Some? then
                                 (if path == SellerPath then Permissions.NewGrants(catalogue, userID, [WriteCode]) else [])
                               else SignupGrants(catalogue, userID, path))
  }

  /** The steps of createUserHandler after the insert. */
  method Onboard(app: M.Application, userID: int, path: string, now: int, random: Option<seq<Base32.Byte>>,
                 tokenFault: Option<string>, writeGrantFault: Option<string>, readGrantFault: Option<string>)
    returns (err: Option<Error>)
    requires random.Some? ==> |random.value| == 16
    modifies app.tokens, app.permissions
    ensures app.permissions.catalogue == old(app.permissions.catalogue)
    ensures err.None? <==> OnboardingSucceeds(path, random, tokenFault, writeGrantFault, readGrantFault)
    ensures Onboarded(old(app.tokens.rows), old(app.permissions.grants), app.tokens.rows, app.permissions.grants,
                      app.permissions.catalogue, userID, path, now, random, tokenFault, writeGrantFault, readGrantFault)
  {
    var token;
    token, err := app.tokens.New(ActivationTtl, userID, Tokens.ActivationScope, now, random, tokenFault);
    if err.Some? {
      return err;
    }
    err := GrantSignupPermissions(app.permissions, userID, path, writeGrantFault, readGrantFault);
    if path == SellerPath && writeGrantFault.Some? {
      assert app.permissions.grants == old(app.permissions.grants) + [];
    }
  }

  /** The grant steps of createUserHandler: "restaurant:write" for a seller, then
      "restaurant:read"; the first failure stops them. */
  method GrantSignupPermissions(permissions: Permissions.PermissionModel, userID: int, path: string,
                                writeGrantFault: Option<string>, readGrantFault: Option<string>) returns (err: Option<Error>)
    modifies permissions
    ensures permissions.catalogue == old(permissions.catalogue)
    ensures path == SellerPath && writeGrantFault.Some? ==> err.Some? && permissions.grants == old(permissions.grants)
    ensures !(path == SellerPath && writeGrantFault.Some?) && readGrantFault.Some? ==>
              && err.Some?
              && permissions.grants == old(permissions.grants)
                 + (if path == SellerPath then Permissions.NewGrants(permissions.catalogue, userID, [WriteCode]) else [])
    ensures !(path == SellerPath && writeGrantFault.Some?) && readGrantFault.None? ==>
              err.None? && permissions.grants == old(permissions.grants) + SignupGrants(permissions.catalogue, userID, path)
  {
    if path == SellerPath {
      err := permissions.AddForUser(userID, [WriteCode], writeGrantFault);
      if err.Some? {
        return err;
      }
    }
    ghost var mid := permissions.grants;
    err := permissions.AddForUser(userID, [ReadCode], readGrantFault);
    if path != SellerPath {
      assert mid == old(permissions.grants) + [];
    }
  }

  /** updateUserHandler's merge: a non-empty input field replaces the stored one. */
  function MergePatch(u: Users.User, p: PatchInput): Users.User {
    u.(firstName := if p.firstName != "" then p.firstName else u.firstName,
       lastName := if p.lastName != "" then p.lastName else u.lastName,
       email := if p.email != "" then p.email else u.email)
  }

  /** The merge changes nothing but the three named fields, each to the input
      exactly when the input is non-empty; an empty patch is the identity and
      merging twice is merging once. */
  lemma MergePatchFields(u: Users.User, p: PatchInput)
    ensures var r := MergePatch(u, p);
            && (r.firstName == p.firstName || r.firstName == u.firstName)
            && (p.firstName != "" ==> r.firstName == p.firstName)
            && (p.lastName != "" ==> r.lastName == p.lastName)
            && (p.email != "" ==> r.email == p.email)
            && (p.firstName == "" ==> r.firstName == u.firstName)
            && (p.lastName == "" ==> r.lastName == u.lastName)
            && (p.email == "" ==> r.email == u.email)
            && r.(firstName := u.firstName, lastName := u.lastName, email := u.email) == u
    ensures MergePatch(u, PatchInput("", "", "")) == u
    ensures MergePatch(MergePatch(u, p), p) == MergePatch(u, p)
  {
  }

  /** updateUserHandler: load, merge, write back. Update never returns
      ErrConflictEdit, so every write failure is a 500. */
  method UpdateUser(app: M.Application, id: Option<int>, body: Option<PatchInput>,
                    loadFault: Option<string>, updateFault: Option<string>) returns (resp: Response)
    requires app.users.Valid()
    modifies app.users
    ensures app.users.Valid()
    ensures resp != EditConflict
    ensures id.None? ==> resp == ServerError && unchanged(app.users)
    ensures id.Some? ==>
              match old(app.users.GetUser(id.value, loadFault))
              case Err(ErrRecordNotFound) => resp == NotFound && unchanged(app.users)
              case Err(_) => resp == ServerError && unchanged(app.users)
              case Ok(u) =>
                if body.None? then resp == ServerError && unchanged(app.users)
                else
                  var merged := MergePatch(u, body.value);
                  var i := Users.IndexOfId(old(app.users.rows), id.value).value;
                  if updateFault.Some? || exists j :: 0 <= j < |old(app.users.rows)| && j != i && old(app.users.rows)[j].email == merged.email then
                    resp == ServerError && app.users.rows == old(app.users.rows)
                  else
                    && resp == Okay(UpdatedMessage)
                    && app.users.rows == old(app.users.rows)[i := old(app.users.rows)[i].(
                         firstName := merged.firstName, lastName := merged.lastName, email := merged.email,
                         password := Users.NoPassword)]
  {
    if id.None? {
      return ServerError;
    }
    var loaded := app.users.GetUser(id.value, loadFault);
    if loaded.Err? {
      if loaded.error == ErrRecordNotFound {
        return NotFound;
      }
      return ServerError;
    }
    if body.None? {
      return ServerError;
    }
    var user := MergePatch(loaded.value, body.value);
    ghost var i := Users.IndexOfId(app.users.rows, id.value).value;
    assert app.users.rows[i] == old(app.users.rows)[i];
    var err := app.users.Update(user, updateFault);
    if err.Some? {
      if err.value == ErrConflictEdit {
        return EditConflict;
      }
      return ServerError;
    }
    return Okay(UpdatedMessage);
  }

  /** The status the client sees is that of the first response written. */
  function FirstWritten(written: Option<Response>, next: Response): Response {
    if written.Some? then written.value else next
  }

  /** userActivateHandler: the user of a row with the token's hash, of any scope
      and expiry, is set active and written back, and that user's activation
      tokens are deleted. An Update failure that is a duplicate email or a
      missing row writes its response and carries on; any other Update failure
      returns without a response. With the lookup as written no token is ever
      found, so nobody is activated and nothing is written. */
  method ActivateUser(app: M.Application, body: Option<string>, query: Tokens.TokenQuery, tokenFault: Option<string>,
                      loadFault: Option<string>, updateFault: Option<string>, deleteFault: Option<string>)
    returns (resp: Response)
    requires app.users.Valid()
    modifies app.users, app.tokens
    ensures app.users.Valid()
    ensures body.None? ==> resp == ServerError && unchanged(app.users, app.tokens)
    ensures body.Some? ==>
              match old(app.tokens.Lookup(body.value, tokenFault, query))
              case Err(ErrRecordNotFound) =>
                resp == FailedValidation(map["token" := InvalidActivationMessage]) && unchanged(app.users, app.tokens)
              case Err(_) => resp == ServerError && unchanged(app.users, app.tokens)
              case Ok(userID) =>
                match old(app.users.GetUser(userID, loadFault))
                case Err(ErrRecordNotFound) => resp == NotFound && unchanged(app.users, app.tokens)
                case Err(_) => resp == ServerError && unchanged(app.users, app.tokens)
                case Ok(_) =>
                  var i := Users.IndexOfId(old(app.users.rows), userID).value;
                  var deleted := Tokens.WithoutUserScope(old(app.tokens.rows), userID, Tokens.ActivationScope);
                  if updateFault.None? then
                    && app.users.rows == old(app.users.rows)[i := old(app.users.rows)[i].(isActive := true, password := Users.NoPassword)]
                    && (if deleteFault.None? then resp == Okay(UpdatedMessage) && app.tokens.rows == deleted
                        else resp == ServerError && app.tokens.rows == old(app.tokens.rows))
                  else if Users.UpdateError(updateFault.value) == ErrDuplicateEmail then
                    && resp == EditConflict
                    && app.users.rows == old(app.users.rows)
                    && app.tokens.rows == (if deleteFault.None? then deleted else old(app.tokens.rows))
                  else
                    resp == NoResponse && unchanged(app.users, app.tokens)
    ensures query == Tokens.SelectStar ==> !resp.Okay? && unchanged(app.users, app.tokens)
  {
    if body.None? {
      return ServerError;
    }
    var token := body.value;
    var found := app.tokens.Lookup(token, tokenFault, query);
    if found.Err? {
      if found.error == ErrRecordNotFound {
        var v := new V.Validator();
        v.AddError("token", InvalidActivationMessage);
        return FailedValidation(v.fieldErrors);
      }
      return ServerError;
    }
    var loaded := app.users.GetUser(found.value, loadFault);
    if loaded.Err? {
      if loaded.error == ErrRecordNotFound {
        return NotFound;
      }
      return ServerError;
    }
    var user := loaded.value.(isActive := true);
    ghost var i := Users.IndexOfId(app.users.rows, user.id).value;
    assert app.users.rows[i].id == user.id;
    assert user == app.users.rows[i].(isActive := true, password := Users.NoPassword);
    assert forall j :: 0 <= j < |app.users.rows| && j != i ==> app.users.rows[j].email != user.email;
    var written: Option<Response> := None;
    var err := app.users.Update(user, updateFault);
    if err.Some? {
      if err.value == ErrDuplicateEmail {
        written := Some(EditConflict);
      } else if err.value == ErrRecordNotFound {
        written := Some(NotFound);
      } else {
        return NoResponse;
      }
    }
    err := app.tokens.DeleteAllTokenForUser(user.id, Tokens.ActivationScope, deleteFault);
    if err.Some? {
      return FirstWritten(written, ServerError);
    }
    return FirstWritten(written, Okay(UpdatedMessage));
  }

  /** authenticateUserHandler: look the user up by email, check the password,
      issue a 24-hour authentication token. A wrong password is a 500, not
      invalid credentials. */
  method AuthenticateUser(app: M.Application, body: Option<Credentials>, loadFault: Option<string>, now: int,
                          random: Option<seq<Base32.Byte>>, tokenFault: Option<string>) returns (resp: Response)
    requires random.Some? ==> |random.value| == 16
    modifies app.tokens
    ensures body.None? ==> resp == ServerError && unchanged(app.tokens)
    ensures body.Some? ==>
              match app.users.GetUserByEmail(body.value.email, loadFault)
              case Err(ErrRecordNotFound) => resp == InvalidCredentials && unchanged(app.tokens)
              case Err(_) => resp == ServerError && unchanged(app.tokens)
              case Ok(u) =>
                if !Users.Matches(u.password, body.value.password).0 || random.None? || tokenFault.Some? then
                  resp == ServerError && unchanged(app.tokens)
                else
                  var t := Tokens.GenerateToken(AuthenticationTtl, u.id, Tokens.AuthenticationScope, now, random).token;
                  && resp == IssuedToken(t.plaintext, now + AuthenticationTtl)
                  && app.tokens.rows == old(app.tokens.rows) + [Tokens.RowOf(t)]
    ensures resp.IssuedToken? ==>
              exists j :: 0 <= j < |app.users.rows| && app.users.rows[j].email == body.value.email
                          && app.users.rows[j].password.hash.Bcrypt? && app.users.rows[j].password.hash.secret == body.value.password
  {
    if body.None? {
      return ServerError;
    }
    var loaded := app.users.GetUserByEmail(body.value.email, loadFault);
    if loaded.Err? {
      if loaded.error == ErrRecordNotFound {
        return InvalidCredentials;
      }
      return ServerError;
    }
    var user := loaded.value;
    var matched := Users.Matches(user.password, body.value.password);
    if matched.1.Some? || !matched.0 {
      return ServerError;
    }
    var token, err := app.tokens.New(AuthenticationTtl, user.id, Tokens.AuthenticationScope, now, random, tokenFault);
    if err.Some? {
      return ServerError;
    }
    return IssuedToken(token.value.plaintext, token.value.expiry);
  }

  /** resetUserPasswordHandler up to the old-password check: a caller may only
      reset their own password, and that is decided before the body is read.
      Past the gate, the user GetUser loads carries no hash, so the old
      password never matches and the request ends in a 500. */
  method ResetUserPassword(app: M.Application, id: Option<int>, caller: Users.Caller, body: Option<PasswordChange>,
                           loadFault: Option<string>) returns (resp: Response)
    ensures id.None? ==> resp == ServerError
    ensures id.Some? && Users.Profile(caller).id != id.value ==> resp == NotPermitted
    ensures id.Some? && Users.Profile(caller).id == id.value ==>
              if body.None? then resp == ServerError
              else
                match app.users.GetUser(id.value, loadFault)
                case Err(ErrRecordNotFound) => resp == NoUserFound
                case Err(_) => resp == ServerError
                case Ok(_) => resp == ServerError
    ensures caller == Users.Anonymous && id.Some? && id.value != 0 ==> resp == NotPermitted
  {
    if id.None? {
      return ServerError;
    }
    if Users.Profile(caller).id != id.value {
      return NotPermitted;
    }
    if body.None? {
      return ServerError;
    }
    var loaded := app.users.GetUser(id.value, loadFault);
    if loaded.Err? {
      if loaded.error == ErrRecordNotFound {
        return NoUserFound;
      }
      return ServerError;
    }
    // GetUser loads no hash, so the comparison below always fails with
    // ErrHashTooShort and the InvalidPassword branch is never taken.
    Users.LoadedUserHasNoHash(app.users, id.value);
    var matched := Users.Matches(loaded.value.password, body.value.oldPassword);
    assert matched.1 == Some(ErrHashTooShort);
    if matched.1.Some? {
      if matched.1.value == ErrMismatchedHashAndPassword {
        return InvalidPassword;
      }
      return ServerError;
    }
    assert false;
    return ServerError;
  }
}
