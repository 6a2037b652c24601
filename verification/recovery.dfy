/** The account-recovery state machine as pure transitions over the account
    store and the effect trace. Each transition is the specification of one
    request handler of the controller; the lemmas relate them to each other. */
module Recovery {
  import opened Accounts
  import Provider

  /** The Begin form: the email to recover and the caller's return URL. */
  datatype RecoverInput = RecoverInput(email: string, returnUrl: string)

  /** The Confirm form: the new password. */
  datatype ConfirmInput = ConfirmInput(password: string)

  datatype ErrorMessage = UserAccountDoesNotExists | UserAccountIsDeactivated

  /** The "Success" page of Begin. */
  datatype SuccessView = SuccessView(returnUrl: string, provider: string)

  /** What a handler answers with. `RedirectToRecover` carries the model-state
      error added before the redirect, if any; `InvalidToken` is the
      "InvalidToken" view, always shown with the token-is-invalid error;
      `ConfirmForm` is the "Confirm" view for the account's email; the two
      redirects carry the stored return URL, which may be absent (null). */
  datatype Outcome =
    | RedirectToRecover(returnUrl: string, error: Option<ErrorMessage>)
    | RecoverSuccess(view: SuccessView)
    | InvalidToken
    | ConfirmForm(email: string)
    | RedirectToReturnUrl(url: Option<string>)
    | RedirectToLogin(url: Option<string>)

  /** The store as the handlers see it, and everything they have done so far. */
  datatype State = State(store: map<string, Account>, effects: seq<Effect>)

  datatype Step = Step(state: State, outcome: Outcome)

  /** WriteAsync: the record replaces the one stored under its email, and the write is traced. */
  function Written(s: State, a: Account): (t: State)
    ensures a.email in t.store && t.store[a.email] == a
    ensures t.store.Keys == s.store.Keys + {a.email}
    ensures forall e :: e in s.store && e != a.email ==> t.store[e] == s.store[e]
    ensures t.effects == s.effects + [Write(a)]
  {
    State(s.store[a.email := a], s.effects + [Write(a)])
  }

  /** Confirm (GET): shows the new-password form exactly when the token is accepted. */
  function ConfirmPage(t: TokenResult): (o: Outcome)
    ensures o == InvalidToken <==> Rejected(t)
    ensures !Rejected(t) ==> o == ConfirmForm(t.account.value.email)
  {
    if t.account.None? || !t.purposeValid || t.tokenExpired then InvalidToken
    else ConfirmForm(t.account.value.email)
  }

  /** Recover (POST): begins a recovery for an active account found by email. */
  function BeginStep(s: State, input: RecoverInput, formValid: bool): (r: Step)
    requires Keyed(s.store)
    ensures r.outcome.RecoverSuccess? <==>
              formValid && input.email in s.store && s.store[input.email].loginAllowed
    ensures r.outcome == RedirectToRecover(input.returnUrl, None) <==> !formValid
    ensures r.outcome == RedirectToRecover(input.returnUrl, Some(UserAccountDoesNotExists)) <==>
              formValid && input.email !in s.store
    ensures r.outcome == RedirectToRecover(input.returnUrl, Some(UserAccountIsDeactivated)) <==>
              formValid && input.email in s.store && !s.store[input.email].loginAllowed
    ensures !r.outcome.RecoverSuccess? ==> r.state == s
    ensures r.outcome.RecoverSuccess? ==>
              var a := s.store[input.email].(verification := Some(Verification(ResetPassword, input.returnUrl)));
              && a.email == input.email
              && r.state.store == s.store[input.email := a]
              && r.state.effects == s.effects + [Write(a), RecoveryEmail(a)]
              && r.outcome.view == SuccessView(input.returnUrl, Provider.ProviderOf(input.email))
  {
    if !formValid then Step(s, RedirectToRecover(input.returnUrl, None))
    else match LoadByEmail(s.store, input.email)
      case None => Step(s, RedirectToRecover(input.returnUrl, Some(UserAccountDoesNotExists)))
      case Some(found) =>
        if !found.loginAllowed then
          Step(s, RedirectToRecover(input.returnUrl, Some(UserAccountIsDeactivated)))
        else
          var a := SetVerificationData(found, ResetPassword, input.returnUrl);
          var w := Written(s, a);
          Step(State(w.store, w.effects + [RecoveryEmail(a)]),
               RecoverSuccess(SuccessView(input.returnUrl, Provider.ProviderOf(a.email))))
  }

  /** The rejected-token branch shared by Confirm (POST) and Cancel: a resolved
      account loses its pending verification and is written; nothing else happens. */
  function RejectToken(s: State, t: TokenResult): (r: Step)
    ensures r.outcome == InvalidToken
    ensures t.account.None? ==> r.state == s
    ensures t.account.Some? ==>
              var c := t.account.value.(verification := None);
              r.state.store == s.store[c.email := c] && r.state.effects == s.effects + [Write(c)]
  {
    match t.account
    case None => Step(s, InvalidToken)
    case Some(a) => Step(Written(s, ClearVerificationData(a)), InvalidToken)
  }

  /** Confirm (POST): sets the new password once the token and the form are accepted. */
  function ConfirmStep(s: State, loginAfterRecovery: bool, t: TokenResult, input: ConfirmInput,
                       formValid: bool, now: int): (r: Step)
    ensures r.outcome == InvalidToken <==> Rejected(t)
    ensures Rejected(t) ==> r == RejectToken(s, t)
    ensures !Rejected(t) && !formValid ==> r == Step(s, ConfirmForm(t.account.value.email))
    ensures !Rejected(t) && formValid ==>
              var a := t.account.value;
              var url := VerificationStorage(a);
              var w := a.(password := input.password,
                          lastLoginAt := if loginAfterRecovery then Some(now) else a.lastLoginAt);
              && r.state.store == s.store[a.email := w]
              && r.state.effects == s.effects
                   + (if loginAfterRecovery then [SignIn(a.email, url)] else []) + [Write(w)]
              && r.outcome == (if loginAfterRecovery then RedirectToReturnUrl(url) else RedirectToLogin(url))
  {
    if Rejected(t) then RejectToken(s, t)
    else
      var a := t.account.value;
      if !formValid then Step(s, ConfirmForm(a.email))
      else
        var url := VerificationStorage(a);
        var changed := SetPassword(a, input.password);
        var signedIn :=
          if loginAfterRecovery then State(s.store, s.effects + [SignIn(changed.email, url)]) else s;
        var account := if loginAfterRecovery then SetSuccessfulSignIn(changed, now) else changed;
        var done := Written(signedIn, account);
        Step(done, if loginAfterRecovery then RedirectToReturnUrl(url) else RedirectToLogin(url))
  }

  /** Cancel: drops the pending verification and sends the user to login. */
  function CancelStep(s: State, t: TokenResult): (r: Step)
    ensures r.outcome == InvalidToken <==> Rejected(t)
    ensures Rejected(t) ==> r == RejectToken(s, t)
    ensures !Rejected(t) ==>
              var a := t.account.value;
              var c := a.(verification := None);
              && r.state.store == s.store[a.email := c]
              && r.state.effects == s.effects + [Write(c)]
              && r.outcome == RedirectToLogin(VerificationStorage(a))
  {
    if Rejected(t) then RejectToken(s, t)
    else
      var a := t.account.value;
      var url := VerificationStorage(a);
      Step(Written(s, ClearVerificationData(a)), RedirectToLogin(url))
  }

  /** The verification result names an account as it is in the store. */
  ghost predicate ResolvedFrom(s: State, t: TokenResult)
  {
    t.account.Some? ==> t.account.value.email in s.store && s.store[t.account.value.email] == t.account.value
  }

  /** Storing a record under its own email keeps the store keyed by email. */
  lemma KeyedAfterStore(store: map<string, Account>, a: Account)
    requires Keyed(store)
    ensures Keyed(store[a.email := a])
  {
  }

  /** Every handler keeps the store keyed by email. */
  lemma StepsKeepStoreKeyed(s: State, input: RecoverInput, formValid: bool, loginAfterRecovery: bool,
                            t: TokenResult, confirm: ConfirmInput, now: int)
    requires Keyed(s.store)
    ensures Keyed(BeginStep(s, input, formValid).state.store)
    ensures Keyed(ConfirmStep(s, loginAfterRecovery, t, confirm, formValid, now).state.store)
    ensures Keyed(CancelStep(s, t).state.store)
  {
    var begun := BeginStep(s, input, formValid);
    if begun.outcome.RecoverSuccess? {
      KeyedAfterStore(s.store, begun.state.store[input.email]);
    }
    if t.account.Some? {
      var a := t.account.value;
      var confirmed := ConfirmStep(s, loginAfterRecovery, t, confirm, formValid, now);
      if confirmed.state != s {
        KeyedAfterStore(s.store, confirmed.state.store[a.email]);
      }
      KeyedAfterStore(s.store, a.(verification := None));
    }
  }

  /** The page (GET) and the form post of Confirm, and Cancel, accept exactly the same tokens. */
  lemma TokenGuardAgrees(s: State, loginAfterRecovery: bool, t: TokenResult, input: ConfirmInput,
                         formValid: bool, now: int)
    ensures (ConfirmPage(t) == InvalidToken) <==>
            (ConfirmStep(s, loginAfterRecovery, t, input, formValid, now).outcome == InvalidToken)
    ensures ConfirmPage(t) == InvalidToken <==> CancelStep(s, t).outcome == InvalidToken
  {
  }

  /** A rejected token never changes any stored password. */
  lemma RejectedTokenKeepsPasswords(s: State, loginAfterRecovery: bool, t: TokenResult,
                                    input: ConfirmInput, formValid: bool, now: int)
    requires Keyed(s.store) && ResolvedFrom(s, t) && Rejected(t)
    ensures var after := ConfirmStep(s, loginAfterRecovery, t, input, formValid, now).state.store;
            after.Keys == s.store.Keys &&
            forall e :: e in s.store ==> after[e].password == s.store[e].password
    ensures var after := CancelStep(s, t).state.store;
            after.Keys == s.store.Keys &&
            forall e :: e in s.store ==> after[e].password == s.store[e].password
  {
  }

  /** The return URL given to Begin comes back out of a successful Confirm,
      which also sets the new password. */
  lemma {:induction false} RecoverThenConfirm(s: State, email: string, returnUrl: string,
                                              loginAfterRecovery: bool, password: string, now: int)
    requires Keyed(s.store) && email in s.store && s.store[email].loginAllowed
    ensures var begun := BeginStep(s, RecoverInput(email, returnUrl), true).state;
            var t := TokenResult(Some(begun.store[email]), true, false);
            var done := ConfirmStep(begun, loginAfterRecovery, t, ConfirmInput(password), true, now);
            && done.outcome == (if loginAfterRecovery then RedirectToReturnUrl(Some(returnUrl))
                                else RedirectToLogin(Some(returnUrl)))
            && done.state.store[email].password == password
  {
  }

  /** Cancelling right after Begin leaves the account as it was, without a pending
      verification, and sends the user to login with the return URL given to Begin. */
  lemma {:induction false} RecoverThenCancel(s: State, email: string, returnUrl: string)
    requires Keyed(s.store) && email in s.store && s.store[email].loginAllowed
    ensures var begun := BeginStep(s, RecoverInput(email, returnUrl), true).state;
            var t := TokenResult(Some(begun.store[email]), true, false);
            var done := CancelStep(begun, t);
            && done.outcome == RedirectToLogin(Some(returnUrl))
            && done.state.store == s.store[email := s.store[email].(verification := None)]
  {
  }

  /** Beginning twice leaves only the second request's verification pending. */
  lemma {:induction false} RecoverTwiceKeepsLatest(s: State, email: string, first: string, second: string)
    requires Keyed(s.store) && email in s.store && s.store[email].loginAllowed
    ensures var once := BeginStep(s, RecoverInput(email, first), true).state;
            Keyed(once.store) &&
            var twice := BeginStep(once, RecoverInput(email, second), true).state;
            twice.store[email] == s.store[email].(verification := Some(Verification(ResetPassword, second)))
  {
  }
}
