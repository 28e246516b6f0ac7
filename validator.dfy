/** The validation accumulator: a map from field name to the first message
    recorded for that field. Validation functions of the models feed it through
    Check, whose first argument is the condition under which the field is BAD. */
module Validator {

  type FieldErrors = map<string, string>

  /** The map after AddError(key, message): an existing key keeps its message. */
  function WithError(errors: FieldErrors, key: string, message: string): FieldErrors {
    if key in errors then errors else errors[key := message]
  }

  /** The map after Check(flag, key, message): the error is recorded when flag holds. */
  function WithCheck(errors: FieldErrors, flag: bool, key: string, message: string): FieldErrors {
    if flag then WithError(errors, key, message) else errors
  }

  /** First write wins: a key already present keeps its message, and every
      other key is left as it was; afterwards the key is present. */
  lemma AddErrorFirstWriteWins(errors: FieldErrors, key: string, message: string)
    ensures key in WithError(errors, key, message)
    ensures key in errors ==> WithError(errors, key, message)[key] == errors[key]
    ensures key !in errors ==> WithError(errors, key, message)[key] == message
    ensures WithError(errors, key, message).Keys == errors.Keys + {key}
    ensures forall k :: k in errors ==> WithError(errors, key, message)[k] == errors[k]
  {
  }

  /** A false flag leaves the map alone; a true one acts exactly as AddError. */
  lemma CheckIsConditionalAddError(errors: FieldErrors, flag: bool, key: string, message: string)
    ensures !flag ==> WithCheck(errors, flag, key, message) == errors
    ensures flag ==> WithCheck(errors, flag, key, message) == WithError(errors, key, message)
  {
  }

  /** The keys after one Check: the old ones, plus the key when the flag holds;
      an old key keeps its message. */
  lemma CheckKeys(errors: FieldErrors, flag: bool, key: string, message: string)
    ensures WithCheck(errors, flag, key, message).Keys == if flag then errors.Keys + {key} else errors.Keys
    ensures forall k :: k in errors ==> WithCheck(errors, flag, key, message)[k] == errors[k]
    ensures flag && key !in errors ==> WithCheck(errors, flag, key, message)[key] == message
  {
  }

  class Validator {
    var fieldErrors: FieldErrors

    /** validator.New: no errors yet. */
    constructor ()
      ensures fieldErrors == map[]
      ensures Valid()
    {
      fieldErrors := map[];
    }

    /** Valid: no field has an error. */
    predicate Valid()
      reads this
    {
      |fieldErrors| == 0
    }

    method AddError(key: string, message: string)
      modifies this
      ensures fieldErrors == WithError(old(fieldErrors), key, message)
      ensures key in fieldErrors && old(fieldErrors).Keys <= fieldErrors.Keys
    {
      if key !in fieldErrors {
        fieldErrors := fieldErrors[key := message];
      }
    }

    method Check(flag: bool, key: string, message: string)
      modifies this
      ensures fieldErrors == WithCheck(old(fieldErrors), flag, key, message)
    {
      if flag {
        AddError(key, message);
      }
    }

    /** Empty(value): the string is "". */
    function Empty(value: string): (r: bool)
      ensures r <==> |value| == 0
    {
      value == ""
    }
  }

  /** The validator is valid exactly when its error map is empty. */
  lemma ValidIffNoErrors(v: Validator)
    ensures v.Valid() <==> v.fieldErrors == map[]
  {
    if v.Valid() {
      assert v.fieldErrors.Keys == {};
    } else {
      assert v.fieldErrors != map[];
    }
  }

  /** PermittedValue(value, permitted...): is value one of the permitted values. */
  function PermittedValue<T(==)>(value: T, permitted: seq<T>): (r: bool)
    ensures r <==> value in permitted
    ensures permitted == [] ==> !r
    decreases |permitted|
  {
    if permitted == [] then false
    else if permitted[0] == value then true
    else
      var rest := PermittedValue(value, permitted[1..]);
      assert value in permitted <==> value in permitted[1..] by {
        assert permitted == [permitted[0]] + permitted[1..];
      }
      rest
  }

  /** CheckEmail(email, rx): the email matches the regular expression, which is an
      uninterpreted predicate here. */
  function CheckEmail(email: string, emailRx: string -> bool): bool {
    emailRx(email)
  }
}
