/** The account record the recovery flow borrows from the account store, the
    account-service operations it calls on that record, the verification result
    it is handed, and the trace of externally visible effects. */
module Accounts {

  datatype Option<+T> = None | Some(value: T)

  /** Why a verification key was issued. The recovery flow issues and checks
      only ResetPassword; whether a key's purpose matched reaches the handlers
      as TokenResult.purposeValid. */
  datatype Purpose = ResetPassword

  /** The pending verification of an account: its purpose and the opaque
      payload (here: the caller's return URL) carried through the round trip. */
  datatype Verification = Verification(purpose: Purpose, storage: string)

  datatype Account = Account(
    email: string,
    loginAllowed: bool,
    password: string,
    lastLoginAt: Option<int>,
    verification: Option<Verification>)

  /** The store is keyed by email: the account found under an email has that email. */
  ghost predicate Keyed(store: map<string, Account>)
  {
    forall e :: e in store ==> store[e].email == e
  }

  /** LoadByEmailAsync: the account stored under `email`, if any. */
  function LoadByEmail(store: map<string, Account>, email: string): (found: Option<Account>)
    requires Keyed(store)
    ensures found.Some? <==> email in store
    ensures found.Some? ==> found.value == store[email] && found.value.email == email
  {
    if email in store then Some(store[email]) else None
  }

  /** SetVerificationData: a new pending verification replaces any earlier one. */
  function SetVerificationData(a: Account, purpose: Purpose, storage: string): Account
  {
    a.(verification := Some(Verification(purpose, storage)))
  }

  /** ClearVerificationData: no verification is pending afterwards. */
  function ClearVerificationData(a: Account): Account
  {
    a.(verification := None)
  }

  /** SetPassword: the credential becomes the submitted one (hashing is not modelled). */
  function SetPassword(a: Account, password: string): Account
  {
    a.(password := password)
  }

  /** SetSuccessfullSignIn: records the sign-in time. */
  function SetSuccessfulSignIn(a: Account, now: int): Account
  {
    a.(lastLoginAt := Some(now))
  }

  /** VerificationStorage: the stored payload, or none (null) when nothing is pending. */
  function VerificationStorage(a: Account): Option<string>
  {
    match a.verification
    case Some(v) => Some(v.storage)
    case None => None
  }

  /** What the outside world observes: a store write (with the record written),
      a recovery email for an account, a sign-in with its return URL. */
  datatype Effect =
    | Write(account: Account)
    | RecoveryEmail(account: Account)
    | SignIn(email: string, returnUrl: Option<string>)

  /** TokenVerificationResult: the account the key resolved to (if any),
      whether the key's purpose matched, and whether it has expired. */
  datatype TokenResult = TokenResult(account: Option<Account>, purposeValid: bool, tokenExpired: bool)

  /** The guard shared by Confirm (both verbs) and Cancel. */
  predicate Rejected(r: TokenResult)
  {
    r.account.None? || !r.purposeValid || r.tokenExpired
  }
}
