/** Permission codes and the grant table (internal/models/permissions.go). The
    catalogue is the permissions table (id, code); a grant is a users_permissions
    row (user_id, permission_id). */
module Permissions {
  import opened Wrappers
  import opened ModelErrors
  import V = Validator

  /** A user's permission codes, in the order the query returned them. */
  type Permissions = seq<string>

  /** Permissions.Include: slices.Contains. */
  function Include(p: Permissions, code: string): (r: bool)
    ensures r <==> code in p
    ensures p == [] ==> !r
  {
    V.PermittedValue(code, p)
  }

  datatype PermissionRow = PermissionRow(id: int, code: string)
  datatype Grant = Grant(userID: int, permissionID: int)

  /** Codes of the catalogue rows with the given id (the permissions join). */
  function CodesWithId(catalogue: seq<PermissionRow>, id: int): (codes: seq<string>)
    ensures forall c :: c in codes <==> exists p :: p in catalogue && p.id == id && p.code == c
    decreases |catalogue|
  {
    if catalogue == [] then []
    else
      var rest := CodesWithId(catalogue[1..], id);
      assert forall p :: p in catalogue <==> p == catalogue[0] || p in catalogue[1..];
      if catalogue[0].id == id then [catalogue[0].code] + rest else rest
  }

  /** What the join of GetForAllUser yields for one grant row. */
  function CodesOfGrant(catalogue: seq<PermissionRow>, g: Grant, userID: int, userExists: bool): seq<string> {
    if g.userID == userID && userExists then CodesWithId(catalogue, g.permissionID) else []
  }

  /** The codes granted to a user, grant row by grant row; nothing when the user
      row is missing, since the query also joins users. */
  function GrantedCodes(catalogue: seq<PermissionRow>, grants: seq<Grant>, userID: int, userExists: bool): seq<string>
    decreases |grants|
  {
    if grants == [] then []
    else GrantedCodes(catalogue, grants[..|grants| - 1], userID, userExists)
         + CodesOfGrant(catalogue, grants[|grants| - 1], userID, userExists)
  }

  /** A code is granted exactly when some grant row of the user points at a
      catalogue row with that code. */
  lemma {:induction false} GrantedCodesMembership(catalogue: seq<PermissionRow>, grants: seq<Grant>, userID: int, userExists: bool, code: string)
    ensures code in GrantedCodes(catalogue, grants, userID, userExists) <==>
            userExists && exists g, p :: g in grants && p in catalogue && g.userID == userID && p.id == g.permissionID && p.code == code
    decreases |grants|
  {
    if grants != [] {
      var init, last := grants[..|grants| - 1], grants[|grants| - 1];
      GrantedCodesMembership(catalogue, init, userID, userExists, code);
      assert grants == init + [last];
      assert forall g :: g in grants <==> g in init || g == last;
    }
  }

  /** Granted codes of a concatenated grant table are the concatenation. */
  lemma {:induction false} GrantedCodesAppend(catalogue: seq<PermissionRow>, gs: seq<Grant>, hs: seq<Grant>, userID: int, userExists: bool)
    ensures GrantedCodes(catalogue, gs + hs, userID, userExists)
            == GrantedCodes(catalogue, gs, userID, userExists) + GrantedCodes(catalogue, hs, userID, userExists)
    decreases |hs|
  {
    if hs == [] {
      assert gs + hs == gs;
    } else {
      var init, last := hs[..|hs| - 1], hs[|hs| - 1];
      assert (gs + hs)[..|gs + hs| - 1] == gs + init;
      assert (gs + hs)[|gs + hs| - 1] == last;
      GrantedCodesAppend(catalogue, gs, init, userID, userExists);
    }
  }

  /** The grant rows a scan reaches when the result set breaks off after k rows:
      rows.Next then reports no more rows, and since rows.Err is never consulted
      the scan ends as if the table ended there. */
  function Scanned(grants: seq<Grant>, breakOff: Option<nat>): (reached: seq<Grant>)
    ensures reached <= grants
    ensures breakOff.None? ==> reached == grants
    ensures breakOff.Some? && breakOff.value < |grants| ==> |reached| == breakOff.value
  {
    if breakOff.Some? && breakOff.value < |grants| then grants[..breakOff.value] else grants
  }

  /** A broken-off scan returns a prefix of the user's codes: it can miss a code,
      never invent one. */
  lemma BrokenScanIsPrefix(catalogue: seq<PermissionRow>, grants: seq<Grant>, breakOff: Option<nat>, userID: int, userExists: bool, code: string)
    ensures GrantedCodes(catalogue, Scanned(grants, breakOff), userID, userExists) <= GrantedCodes(catalogue, grants, userID, userExists)
    ensures Include(GrantedCodes(catalogue, Scanned(grants, breakOff), userID, userExists), code) ==>
            Include(GrantedCodes(catalogue, grants, userID, userExists), code)
  {
    var reached := Scanned(grants, breakOff);
    assert grants == reached + grants[|reached|..];
    GrantedCodesAppend(catalogue, reached, grants[|reached|..], userID, userExists);
  }

  /** The rows INSERT ... SELECT $1, permissions.id FROM permissions WHERE
      code = ANY($2) adds: one per catalogue row whose code was asked for. */
  function NewGrants(catalogue: seq<PermissionRow>, userID: int, codes: seq<string>): (gs: seq<Grant>)
    ensures forall g :: g in gs ==> g.userID == userID
    ensures forall g :: g in gs <==> g.userID == userID && exists p :: p in catalogue && p.id == g.permissionID && p.code in codes
    decreases |catalogue|
  {
    if catalogue == [] then []
    else
      var rest := NewGrants(catalogue[1..], userID, codes);
      assert forall p :: p in catalogue <==> p == catalogue[0] || p in catalogue[1..];
      if catalogue[0].code in codes then [Grant(userID, catalogue[0].id)] + rest else rest
  }

  /** Grant rows all belonging to one user give nothing to anybody else. */
  lemma {:induction false} OtherUsersGetNothing(catalogue: seq<PermissionRow>, gs: seq<Grant>, owner: int, userID: int, userExists: bool)
    requires forall g :: g in gs ==> g.userID == owner
    requires userID != owner
    ensures GrantedCodes(catalogue, gs, userID, userExists) == []
    decreases |gs|
  {
    if gs != [] {
      assert gs[|gs| - 1] in gs;
      OtherUsersGetNothing(catalogue, gs[..|gs| - 1], owner, userID, userExists);
    }
  }

  class PermissionModel {
    var catalogue: seq<PermissionRow>
    var grants: seq<Grant>

    constructor (catalogue: seq<PermissionRow>)
      ensures this.catalogue == catalogue && grants == []
    {
      this.catalogue := catalogue;
      grants := [];
    }

    /** GetForAllUser: scans the joined rows, appending each code. A failure of
        the query (the fault) returns no permissions and the error. A result set
        that breaks off after breakOff grant rows ends the loop early, and the
        codes scanned so far are returned with no error. */
    method GetForAllUser(userID: int, userExists: bool, fault: Option<string>, breakOff: Option<nat>)
      returns (permissions: Permissions, err: Option<Error>)
      ensures fault.Some? ==> permissions == [] && err == Some(DbError(fault.value))
      ensures fault.None? ==> err.None? && permissions == GrantedCodes(catalogue, Scanned(grants, breakOff), userID, userExists)
      ensures fault.None? && breakOff.None? ==> permissions == GrantedCodes(catalogue, grants, userID, userExists)
    {
      if fault.Some? {
        return [], Some(DbError(fault.value));
      }
      var reached := Scanned(grants, breakOff);
      permissions := [];
      var i := 0;
      while i < |reached|
        invariant 0 <= i <= |reached|
        invariant permissions == GrantedCodes(catalogue, grants[..i], userID, userExists)
      {
        assert grants[..i + 1][..i] == grants[..i];
        assert reached[i] == grants[i];
        permissions := permissions + CodesOfGrant(catalogue, grants[i], userID, userExists);
        i := i + 1;
      }
      assert grants[..i] == reached;
      return permissions, None;
    }

    /** AddForUser: grants the user every catalogue permission whose code is
        among codes; codes missing from the catalogue are skipped silently. */
    method AddForUser(userID: int, codes: seq<string>, fault: Option<string>) returns (err: Option<Error>)
      modifies this
      ensures err.Some? ==> unchanged(this)
      ensures catalogue == old(catalogue)
      ensures fault.Some? ==> err == Some(DbError(fault.value)) && grants == old(grants)
      ensures fault.None? ==> err.None? && grants == old(grants) + NewGrants(catalogue, userID, codes)
    {
      if fault.Some? {
        return Some(DbError(fault.value));
      }
      grants := grants + NewGrants(catalogue, userID, codes);
      return None;
    }
  }

  /** AddForUser(u, codes) leaves every other user's codes as they were. */
  lemma AddForUserOthersUnchanged(catalogue: seq<PermissionRow>, grants: seq<Grant>, u: int, codes: seq<string>, v: int, userExists: bool)
    requires v != u
    ensures GrantedCodes(catalogue, grants + NewGrants(catalogue, u, codes), v, userExists)
            == GrantedCodes(catalogue, grants, v, userExists)
  {
    var added := NewGrants(catalogue, u, codes);
    GrantedCodesAppend(catalogue, grants, added, v, userExists);
    OtherUsersGetNothing(catalogue, added, u, v, userExists);
    assert GrantedCodes(catalogue, grants, v, userExists) + [] == GrantedCodes(catalogue, grants, v, userExists);
  }

  /** permissions.id is the primary key of the catalogue. */
  predicate UniqueIds(catalogue: seq<PermissionRow>) {
    forall p, q :: p in catalogue && q in catalogue && p.id == q.id ==> p == q
  }

  /** AddForUser(u, codes) gives u exactly the catalogued codes asked for, on
      top of what u had. */
  lemma AddForUserGainsCatalogued(catalogue: seq<PermissionRow>, grants: seq<Grant>, u: int, codes: seq<string>, code: string)
    requires UniqueIds(catalogue)
    ensures code in GrantedCodes(catalogue, grants + NewGrants(catalogue, u, codes), u, true) <==>
            code in GrantedCodes(catalogue, grants, u, true) || (code in codes && exists p :: p in catalogue && p.code == code)
  {
    var added := NewGrants(catalogue, u, codes);
    GrantedCodesAppend(catalogue, grants, added, u, true);
    var before := GrantedCodes(catalogue, grants, u, true);
    var gained := GrantedCodes(catalogue, added, u, true);
    assert code in before + gained <==> code in before || code in gained;
    GrantedCodesMembership(catalogue, added, u, true, code);
    if code in gained {
      var g, p :| g in added && p in catalogue && g.userID == u && p.id == g.permissionID && p.code == code;
      var q :| q in catalogue && q.id == g.permissionID && q.code in codes;
      assert p == q;
    }
    if code in codes && (exists p :: p in catalogue && p.code == code) {
      var p :| p in catalogue && p.code == code;
      assert Grant(u, p.id) in added;
    }
  }

  /** A code that no catalogue row carries is never granted, whatever was asked. */
  lemma UnknownCodeNeverGranted(catalogue: seq<PermissionRow>, grants: seq<Grant>, userID: int, userExists: bool, code: string)
    requires forall p :: p in catalogue ==> p.code != code
    ensures !Include(GrantedCodes(catalogue, grants, userID, userExists), code)
  {
    GrantedCodesMembership(catalogue, grants, userID, userExists, code);
  }
}
