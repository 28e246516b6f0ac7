/** Restaurants and the restaurant table (internal/models/restaurant.go): field
    validation, and the mapping from driver errors and row counts to the error
    kinds of the model layer. */
module Restaurants {
  import opened Wrappers
  import opened ModelErrors
  import Text
  import V = Validator
  import Rows
  import Users

  datatype Restaurant = Restaurant(
    id: int,
    name: string,
    country: string,
    fullAddress: string,
    cuisine: string,
    status: string,
    createdAt: int,
    updatedAt: int)

  /** A length outside [lo, hi] bytes. */
  predicate OutOfRange(s: string, lo: int, hi: int) {
    Text.ByteLen(s) < lo || Text.ByteLen(s) > hi
  }

  /** The five presence checks. */
  function PresenceErrors(errors: V.FieldErrors, res: Restaurant): V.FieldErrors {
    var e1 := V.WithCheck(errors, res.name == "", "name", "restaurant name must be provided");
    var e2 := V.WithCheck(e1, res.country == "", "country", "country must be provided");
    var e3 := V.WithCheck(e2, res.fullAddress == "", "full Address", "full address  must be provided");
    var e4 := V.WithCheck(e3, res.cuisine == "", "cuisine", "cuisine must be provided");
    V.WithCheck(e4, res.status == "", "status", "status must be provided")
  }

  /** The four length checks; status has none. */
  function LengthErrors(errors: V.FieldErrors, res: Restaurant): V.FieldErrors {
    var e1 := V.WithCheck(errors, OutOfRange(res.name, 3, 50), "name", "restaurant name must be greater than 3 and less than 50 characters");
    var e2 := V.WithCheck(e1, OutOfRange(res.country, 3, 50), "country", "country must be greater than 3 and less than 50 characters");
    var e3 := V.WithCheck(e2, OutOfRange(res.fullAddress, 10, 200), "full Address", "full address must be greater than 10 and less than 200 characters");
    V.WithCheck(e3, OutOfRange(res.cuisine, 3, 50), "cuisine", "cuisine must be greater than 3 and less than 50 characters")
  }

  /** The status safelist check. */
  predicate BadStatus(status: string) {
    !V.PermittedValue(status, ["open", "closed"])
  }

  /** The errors ValidateRestaurant records: presence, then lengths, then status. */
  function RestaurantErrors(errors: V.FieldErrors, res: Restaurant): V.FieldErrors {
    V.WithCheck(LengthErrors(PresenceErrors(errors, res), res), BadStatus(res.status), "status", "you have to provide valid status (open,closed)")
  }

  method ValidateRestaurant(v: V.Validator, res: Restaurant)
    modifies v
    ensures v.fieldErrors == RestaurantErrors(old(v.fieldErrors), res)
  {
    v.Check(v.Empty(res.name), "name", "restaurant name must be provided");
    v.Check(v.Empty(res.country), "country", "country must be provided");
    v.Check(v.Empty(res.fullAddress), "full Address", "full address  must be provided");
    v.Check(v.Empty(res.cuisine), "cuisine", "cuisine must be provided");
    v.Check(v.Empty(res.status), "status", "status must be provided");

    v.Check(OutOfRange(res.name, 3, 50), "name", "restaurant name must be greater than 3 and less than 50 characters");
    v.Check(OutOfRange(res.country, 3, 50), "country", "country must be greater than 3 and less than 50 characters");
    v.Check(OutOfRange(res.fullAddress, 10, 200), "full Address", "full address must be greater than 10 and less than 200 characters");
    v.Check(OutOfRange(res.cuisine, 3, 50), "cuisine", "cuisine must be greater than 3 and less than 50 characters");

    v.Check(BadStatus(res.status), "status", "you have to provide valid status (open,closed)");
  }

  lemma PresenceKeys(res: Restaurant)
    ensures var e := PresenceErrors(map[], res);
            && e.Keys <= {"name", "country", "full Address", "cuisine", "status"}
            && ("name" in e <==> res.name == "")
            && ("country" in e <==> res.country == "")
            && ("full Address" in e <==> res.fullAddress == "")
            && ("cuisine" in e <==> res.cuisine == "")
            && ("status" in e <==> res.status == "")
            && (res.name == "" ==> e["name"] == "restaurant name must be provided")
            && (res.country == "" ==> e["country"] == "country must be provided")
            && (res.fullAddress == "" ==> e["full Address"] == "full address  must be provided")
            && (res.cuisine == "" ==> e["cuisine"] == "cuisine must be provided")
            && (res.status == "" ==> e["status"] == "status must be provided")
  {
    var e1 := V.WithCheck(map[], res.name == "", "name", "restaurant name must be provided");
    var e2 := V.WithCheck(e1, res.country == "", "country", "country must be provided");
    var e3 := V.WithCheck(e2, res.fullAddress == "", "full Address", "full address  must be provided");
    var e4 := V.WithCheck(e3, res.cuisine == "", "cuisine", "cuisine must be provided");
    V.CheckKeys(map[], res.name == "", "name", "restaurant name must be provided");
    V.CheckKeys(e1, res.country == "", "country", "country must be provided");
    V.CheckKeys(e2, res.fullAddress == "", "full Address", "full address  must be provided");
    V.CheckKeys(e3, res.cuisine == "", "cuisine", "cuisine must be provided");
    V.CheckKeys(e4, res.status == "", "status", "status must be provided");
  }

  /** The length checks add the out-of-range fields and keep earlier messages. */
  lemma LengthKeys(errors: V.FieldErrors, res: Restaurant)
    ensures var e := LengthErrors(errors, res);
            && e.Keys == errors.Keys
                         + (if OutOfRange(res.name, 3, 50) then {"name"} else {})
                         + (if OutOfRange(res.country, 3, 50) then {"country"} else {})
                         + (if OutOfRange(res.fullAddress, 10, 200) then {"full Address"} else {})
                         + (if OutOfRange(res.cuisine, 3, 50) then {"cuisine"} else {})
            && forall k :: k in errors ==> e[k] == errors[k]
  {
    var e1 := V.WithCheck(errors, OutOfRange(res.name, 3, 50), "name", "restaurant name must be greater than 3 and less than 50 characters");
    var e2 := V.WithCheck(e1, OutOfRange(res.country, 3, 50), "country", "country must be greater than 3 and less than 50 characters");
    var e3 := V.WithCheck(e2, OutOfRange(res.fullAddress, 10, 200), "full Address", "full address must be greater than 10 and less than 200 characters");
    V.CheckKeys(errors, OutOfRange(res.name, 3, 50), "name", "restaurant name must be greater than 3 and less than 50 characters");
    V.CheckKeys(e1, OutOfRange(res.country, 3, 50), "country", "country must be greater than 3 and less than 50 characters");
    V.CheckKeys(e2, OutOfRange(res.fullAddress, 10, 200), "full Address", "full address must be greater than 10 and less than 200 characters");
    V.CheckKeys(e3, OutOfRange(res.cuisine, 3, 50), "cuisine", "cuisine must be greater than 3 and less than 50 characters");
  }

  lemma BadStatusMeaning(status: string)
    ensures BadStatus(status) <==> status != "open" && status != "closed"
  {
    assert status in ["open", "closed"] <==> status == "open" || status == "closed";
  }

  /** Which fields ValidateRestaurant flags on a fresh validator. An empty
      string is also too short, so each presence check is subsumed by the
      length check; status has no length check. */
  lemma RestaurantValidationRules(res: Restaurant)
    ensures var e := RestaurantErrors(map[], res);
            && e.Keys <= {"name", "country", "full Address", "cuisine", "status"}
            && ("name" in e <==> OutOfRange(res.name, 3, 50))
            && ("country" in e <==> OutOfRange(res.country, 3, 50))
            && ("full Address" in e <==> OutOfRange(res.fullAddress, 10, 200))
            && ("cuisine" in e <==> OutOfRange(res.cuisine, 3, 50))
            && ("status" in e <==> res.status != "open" && res.status != "closed")
  {
    PresenceKeys(res);
    var p := PresenceErrors(map[], res);
    LengthKeys(p, res);
    var l := LengthErrors(p, res);
    V.CheckKeys(l, BadStatus(res.status), "status", "you have to provide valid status (open,closed)");
    BadStatusMeaning(res.status);
    assert Text.ByteLen("") == 0;
  }

  /** A restaurant passes validation exactly when every length is in range and
      the status is "open" or "closed". */
  lemma RestaurantValidIff(res: Restaurant)
    ensures RestaurantErrors(map[], res) == map[] <==>
            && !OutOfRange(res.name, 3, 50) && !OutOfRange(res.country, 3, 50)
            && !OutOfRange(res.fullAddress, 10, 200) && !OutOfRange(res.cuisine, 3, 50)
            && (res.status == "open" || res.status == "closed")
  {
    RestaurantValidationRules(res);
    var e := RestaurantErrors(map[], res);
    if e != map[] {
      var k :| k in e;
    }
  }

  /** The "must be provided" message wins for an empty field. */
  lemma RestaurantEmptyFieldMessages(res: Restaurant)
    ensures var e := RestaurantErrors(map[], res);
            && (res.name == "" ==> "name" in e && e["name"] == "restaurant name must be provided")
            && (res.country == "" ==> "country" in e && e["country"] == "country must be provided")
            && (res.fullAddress == "" ==> "full Address" in e && e["full Address"] == "full address  must be provided")
            && (res.cuisine == "" ==> "cuisine" in e && e["cuisine"] == "cuisine must be provided")
            && (res.status == "" ==> "status" in e && e["status"] == "status must be provided")
  {
    PresenceKeys(res);
    var p := PresenceErrors(map[], res);
    LengthKeys(p, res);
    var l := LengthErrors(p, res);
    V.CheckKeys(l, BadStatus(res.status), "status", "you have to provide valid status (open,closed)");
  }

  /** Insert's and Update's error mapping: any text mentioning the constraint
      on the name column is a duplicate name. */
  function WriteError(text: string): (e: Error)
    ensures e == ErrDuplicateRestaurantName <==> Text.Contains(text, "restaurant_name_key")
    ensures e != ErrDuplicateRestaurantName ==> e == DbError(text)
  {
    if Text.Contains(text, "restaurant_name_key") then ErrDuplicateRestaurantName else DbError(text)
  }

  lemma NameViolationIsDuplicate()
    ensures WriteError(Users.UniqueViolation("restaurant_name_key")) == ErrDuplicateRestaurantName
  {
    var text := Users.UniqueViolation("restaurant_name_key");
    assert text[52..52 + |"restaurant_name_key"|] == "restaurant_name_key";
    assert Text.OccursAt(text, "restaurant_name_key", 52);
  }

  function IndexOfId(rows: seq<Restaurant>, id: int): (r: Option<nat>)
    ensures r.Some? ==> r.value < |rows| && rows[r.value].id == id
    ensures r.None? <==> forall j :: 0 <= j < |rows| ==> rows[j].id != id
  {
    Rows.FindIndex(rows, (x: Restaurant) => x.id == id)
  }

  function IndexOfName(rows: seq<Restaurant>, name: string): (r: Option<nat>)
    ensures r.Some? ==> r.value < |rows| && rows[r.value].name == name
    ensures r.None? <==> forall j :: 0 <= j < |rows| ==> rows[j].name != name
  {
    Rows.FindIndex(rows, (x: Restaurant) => x.name == name)
  }

  class RestaurantModel {
    var rows: seq<Restaurant>
    var nextId: int

    /** ids come from a serial starting at 1; id and name are unique. */
    predicate Valid()
      reads this
    {
      && nextId >= 1
      && (forall i :: 0 <= i < |rows| ==> 1 <= rows[i].id < nextId)
      && (forall i, j :: 0 <= i < j < |rows| ==> rows[i].id != rows[j].id)
      && (forall i, j :: 0 <= i < j < |rows| ==> rows[i].name != rows[j].name)
    }

    constructor ()
      ensures Valid() && rows == [] && nextId == 1
    {
      rows := [];
      nextId := 1;
    }

    /** Insert: on success returns the new id and writes id, created_at and
        updated_at back; on any error returns 0 and changes nothing. */
    method Insert(res: Restaurant, now: int, fault: Option<string>) returns (id: int, saved: Restaurant, err: Option<Error>)
      requires Valid()
      modifies this
      ensures err.Some? ==> unchanged(this)
      ensures Valid()
      ensures err.Some? ==> id == 0 && saved == res && rows == old(rows) && nextId == old(nextId)
      ensures fault.Some? ==> err == Some(WriteError(fault.value))
      ensures fault.None? && IndexOfName(old(rows), res.name).Some? ==> err == Some(ErrDuplicateRestaurantName)
      ensures fault.None? && IndexOfName(old(rows), res.name).None? ==>
                && err.None? && id == old(nextId)
                && saved == res.(id := id, createdAt := now, updatedAt := now)
                && rows == old(rows) + [saved] && nextId == old(nextId) + 1
    {
      if fault.Some? {
        return 0, res, Some(WriteError(fault.value));
      }
      if IndexOfName(rows, res.name).Some? {
        NameViolationIsDuplicate();
        return 0, res, Some(WriteError(Users.UniqueViolation("restaurant_name_key")));
      }
      id := nextId;
      saved := res.(id := id, createdAt := now, updatedAt := now);
      rows := rows + [saved];
      nextId := nextId + 1;
      err := None;
    }

    /** Update: overwrites the five columns and updated_at of the row with that
        id. No such row is ErrRestaurantNotFound; the name of another row is
        ErrDuplicateRestaurantName. */
    method Update(id: int, res: Restaurant, now: int, fault: Option<string>) returns (err: Option<Error>)
      requires Valid()
      modifies this
      ensures err.Some? ==> unchanged(this)
      ensures Valid() && nextId == old(nextId)
      ensures fault.Some? ==> err == Some(WriteError(fault.value)) && rows == old(rows)
      ensures fault.None? && IndexOfId(old(rows), id).None? ==> err == Some(ErrRestaurantNotFound) && rows == old(rows)
      ensures fault.None? && IndexOfId(old(rows), id).Some? ==>
                var i := IndexOfId(old(rows), id).value;
                if exists j :: 0 <= j < |old(rows)| && j != i && old(rows)[j].name == res.name then
                  err == Some(ErrDuplicateRestaurantName) && rows == old(rows)
                else
                  err.None? && rows == old(rows)[i := old(rows)[i].(
                    name := res.name, country := res.country, fullAddress := res.fullAddress,
                    cuisine := res.cuisine, status := res.status, updatedAt := now)]
    {
      if fault.Some? {
        return Some(WriteError(fault.value));
      }
      var found := IndexOfId(rows, id);
      if found.None? {
        return Some(ErrRestaurantNotFound);
      }
      var i := found.value;
      if exists j :: 0 <= j < |rows| && j != i && rows[j].name == res.name {
        NameViolationIsDuplicate();
        return Some(WriteError(Users.UniqueViolation("restaurant_name_key")));
      }
      rows := rows[i := rows[i].(
        name := res.name, country := res.country, fullAddress := res.fullAddress,
        cuisine := res.cuisine, status := res.status, updatedAt := now)];
      return None;
    }

    /** Get: the row with that id, or ErrRestaurantNotFound; there is no id < 1
        guard here. */
    function Get(id: int, fault: Option<string>): (r: Result<Restaurant, Error>)
      reads this
      ensures fault.Some? ==> r == Err(DbError(fault.value))
      ensures fault.None? ==> (r == Err(ErrRestaurantNotFound) <==> forall j :: 0 <= j < |rows| ==> rows[j].id != id)
      ensures r.Ok? ==> r.value.id == id && r.value in rows
    {
      if fault.Some? then Err(DbError(fault.value))
      else
        match IndexOfId(rows, id)
        case None => Err(ErrRestaurantNotFound)
        case Some(i) => Ok(rows[i])
    }

    /** Delete: removes the row with that id; no such row is ErrRestaurantNotFound. */
    method Delete(id: int, fault: Option<string>) returns (err: Option<Error>)
      requires Valid()
      modifies this
      ensures err.Some? ==> unchanged(this)
      ensures Valid() && nextId == old(nextId)
      ensures fault.Some? ==> err == Some(DbError(fault.value)) && rows == old(rows)
      ensures fault.None? && IndexOfId(old(rows), id).None? ==> err == Some(ErrRestaurantNotFound) && rows == old(rows)
      ensures fault.None? && IndexOfId(old(rows), id).Some? ==>
                err.None? && rows == Rows.RemoveAt(old(rows), IndexOfId(old(rows), id).value)
      ensures fault.None? ==> forall j :: 0 <= j < |rows| ==> rows[j].id != id
    {
      if fault.Some? {
        return Some(DbError(fault.value));
      }
      var found := IndexOfId(rows, id);
      if found.None? {
        return Some(ErrRestaurantNotFound);
      }
      rows := Rows.RemoveAt(rows, found.value);
      return None;
    }
  }
}
