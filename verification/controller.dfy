/** The recovery controller: holds the account store and the trace of what it
    has done, and handles Begin (Recover POST), Confirm (POST) and Cancel by
    changing a borrowed copy of the account step by step and writing it back.
    Each handler is proved against its transition in module Recovery. */
module Controller {
  import opened Accounts
  import opened Recovery
  import Provider

  class RecoverController {
    var store: map<string, Account>
    var effects: seq<Effect>
    const loginAfterAccountRecovery: bool

    ghost predicate Valid()
      reads this
    {
      Keyed(store)
    }

    /** The store and the trace, as the transitions of module Recovery see them. */
    function Snapshot(): State
      reads this
    {
      State(store, effects)
    }

    constructor (store: map<string, Account>, loginAfterAccountRecovery: bool)
      requires Keyed(store)
      ensures Valid()
      ensures this.store == store && effects == []
      ensures this.loginAfterAccountRecovery == loginAfterAccountRecovery
    {
      this.store := store;
      this.effects := [];
      this.loginAfterAccountRecovery := loginAfterAccountRecovery;
    }

    /** WriteAsync: stores the record under its email. */
    method WriteAccount(a: Account)
      requires Valid()
      modifies this
      ensures Valid()
      ensures Snapshot() == Written(old(Snapshot()), a)
    {
      store := store[a.email := a];
      effects := effects + [Write(a)];
    }

    /** Recover (POST). */
    method Recover(input: RecoverInput, formValid: bool) returns (outcome: Outcome)
      requires Valid()
      modifies this
      ensures Valid()
      ensures Snapshot() == BeginStep(old(Snapshot()), input, formValid).state
      ensures outcome == BeginStep(old(Snapshot()), input, formValid).outcome
    {
      if !formValid {
        return RedirectToRecover(input.returnUrl, None);
      }
      var found := LoadByEmail(store, input.email);
      if found.Some? {
        var account := found.value;
        if account.loginAllowed {
          account := SetVerificationData(account, ResetPassword, input.returnUrl);
          WriteAccount(account);
          effects := effects + [RecoveryEmail(account)];
          return RecoverSuccess(SuccessView(input.returnUrl, Provider.ProviderOf(account.email)));
        } else {
          outcome := RedirectToRecover(input.returnUrl, Some(UserAccountIsDeactivated));
        }
      } else {
        outcome := RedirectToRecover(input.returnUrl, Some(UserAccountDoesNotExists));
      }
    }

    /** Confirm (POST): `t` is the verification result for the presented key,
        `now` the time SetSuccessfullSignIn records. */
    method Confirm(t: TokenResult, input: ConfirmInput, formValid: bool, now: int)
      returns (outcome: Outcome)
      requires Valid()
      modifies this
      ensures Valid()
      ensures Snapshot() ==
              ConfirmStep(old(Snapshot()), loginAfterAccountRecovery, t, input, formValid, now).state
      ensures outcome ==
              ConfirmStep(old(Snapshot()), loginAfterAccountRecovery, t, input, formValid, now).outcome
    {
      if t.account.None? || t.tokenExpired || !t.purposeValid {
        if t.account.Some? {
          var account := ClearVerificationData(t.account.value);
          WriteAccount(account);
        }
        return InvalidToken;
      }
      var account := t.account.value;
      if !formValid {
        return ConfirmForm(account.email);
      }
      var returnUrl := VerificationStorage(account);
      account := SetPassword(account, input.password);
      if loginAfterAccountRecovery {
        effects := effects + [SignIn(account.email, returnUrl)];
        account := SetSuccessfulSignIn(account, now);
      }
      WriteAccount(account);
      if loginAfterAccountRecovery {
        return RedirectToReturnUrl(returnUrl);
      }
      return RedirectToLogin(returnUrl);
    }

    /** Cancel: `t` is the verification result for the presented key. */
    method Cancel(t: TokenResult) returns (outcome: Outcome)
      requires Valid()
      modifies this
      ensures Valid()
      ensures Snapshot() == CancelStep(old(Snapshot()), t).state
      ensures outcome == CancelStep(old(Snapshot()), t).outcome
    {
      if t.account.None? || !t.purposeValid || t.tokenExpired {
        if t.account.Some? {
          var account := ClearVerificationData(t.account.value);
          WriteAccount(account);
        }
        return InvalidToken;
      }
      var account := t.account.value;
      var returnUrl := VerificationStorage(account);
      account := ClearVerificationData(account);
      WriteAccount(account);
      return RedirectToLogin(returnUrl);
    }
  }
}
