/** The error kinds the model layer returns (the sentinel errors declared in
    internal/models/models.go), plus the raw driver, cache and library errors
    that reach the handlers unchanged. */
module ModelErrors {

  datatype Error =
    | ErrDuplicateEmail
    | ErrRecordNotFound
    | ErrConflictEdit
    | ErrDuplicateRestaurantName
    | ErrRestaurantNotFound
      /** A database driver error, carrying its message text. */
    | DbError(message: string)
      /** crypto/rand could not produce random bytes. */
    | RandomSourceError
      /** bcrypt: the hash does not belong to the candidate password. */
    | ErrMismatchedHashAndPassword
      /** bcrypt: the stored hash is malformed (for instance empty). */
    | ErrHashTooShort
      /** bcrypt could not hash a password. */
    | HashingError
}
