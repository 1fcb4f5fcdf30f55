/** The registration page (src/pages/RegisterPage.tsx): the two password checks, the `register` call
    and the message shown when it fails. */
module RegisterPage {
  import opened Types
  import Accounts
  import Storage

  const PASSWORD_MISMATCH := "Password tidak cocok"
  const PASSWORD_TOO_SHORT := "Password minimal 6 karakter"
  const REGISTER_FAILED := "Registrasi gagal"

  datatype Check = Proceed | Reject(message: string)

  /** The guards of `handleRegister`, in order: the confirmation must match, then the password must have at
      least 6 characters. `register` is reached exactly when both hold; a short mismatched pair reports the
      mismatch. */
  function CheckPasswords(password: string, confirmation: string): (c: Check)
    ensures c == Proceed <==> password == confirmation && |password| >= 6
    ensures password != confirmation ==> c == Reject(PASSWORD_MISMATCH)
    ensures password == confirmation && |password| < 6 ==> c == Reject(PASSWORD_TOO_SHORT)
  {
    if password != confirmation then Reject(PASSWORD_MISMATCH)
    else if |password| < 6 then Reject(PASSWORD_TOO_SHORT)
    else Proceed
  }

  /** What `register` may throw: an `Error` with its message, or any other value. */
  datatype Thrown = ErrorThrown(message: string) | OtherThrown

  /** `err instanceof Error ? err.message : 'Registrasi gagal'`. */
  function FailureMessage(e: Thrown): (m: string)
    ensures e.ErrorThrown? ==> m == e.message
    ensures e.OtherThrown? ==> m == REGISTER_FAILED
  {
    match e
    case ErrorThrown(message) => message
    case OtherThrown => REGISTER_FAILED
  }

  /** `handleRegister`: a failed check shows its message and leaves the registry alone; otherwise `register`
      runs: a new user is appended and becomes the session, and a taken email shows the thrown error's message. */
  method HandleRegister(
    auth: Storage.AuthStorage, email: string, password: string, confirmation: string,
    businessName: string, ownerName: string, id: string, now: int)
    returns (error: string, registered: bool)
    modifies auth
    ensures CheckPasswords(password, confirmation).Reject? ==>
      !registered && error == CheckPasswords(password, confirmation).message && unchanged(auth)
    ensures CheckPasswords(password, confirmation) == Proceed ==>
      (registered <==> !Accounts.EmailTaken(old(auth.users), email))
    ensures registered ==>
      error == "" && auth.users == old(auth.users) + [User(id, email, businessName, ownerName, now)] &&
      auth.currentUser == Some(User(id, email, businessName, ownerName, now))
    ensures !registered ==> auth.users == old(auth.users) && auth.currentUser == old(auth.currentUser)
    ensures CheckPasswords(password, confirmation) == Proceed && !registered ==> error == Accounts.EMAIL_TAKEN
  {
    var check := CheckPasswords(password, confirmation);
    if check.Reject? {
      return check.message, false;
    }
    var r := auth.Register(email, password, businessName, ownerName, id, now);
    if r.Err? {
      return FailureMessage(ErrorThrown(r.error)), false;
    }
    error, registered := "", true;
  }
}
