# Account recovery in IdentityBase: a Dafny model

This project models the password-recovery flow of IdentityBase's `RecoverController`:

- **Begin** (`Recover` POST): an active account found by email gets a pending `ResetPassword`
  verification that carries the caller's return URL. The account is written and a recovery
  email is sent. The success page shows the "provider", which is the part of the email after
  its last `@`.
- **Confirm page** (`Confirm` GET): shows the new-password form only for an accepted token.
- **Confirm** (`Confirm` POST): sets the new password. It may sign the user in, then sends the
  user to the return URL that Begin stored.
- **Cancel**: drops the pending verification and sends the user to login with that stored URL.

A token is rejected when it resolves to no account, has the wrong purpose, or has expired.
Confirm POST and Cancel handle a rejected token the same way: they clear the verification of
the account it resolved to (if any) and write that account.

The project has four modules:

- `Accounts` (`accounts.dfy`): the account record; the account-service operations the
  controller calls (`SetVerificationData`, `ClearVerificationData`, `SetPassword`,
  `SetSuccessfullSignIn`, the `VerificationStorage` read); the store lookup by email; the
  trace of effects (writes, recovery emails, sign-ins); and the token verification result.
  That result is taken as an input: the account it resolved to, whether the purpose was
  valid, and whether the token had expired.
- `Provider` (`provider.dfy`): `String.Split(char)` is modelled with its inverse `Join`. The
  provider is the last segment of the split.
- `Recovery` (`recovery.dfy`): each handler as a pure transition over the store and the
  effect trace, plus the lemmas that relate the handlers to each other.
- `Controller` (`controller.dfy`): the controller as a class. Its fields are the store and
  the effect trace. Its handlers change a borrowed copy of the account step by step, in the
  source's order. Each handler is proved equal to its transition in `Recovery`.

All source paths below are relative to the repository root.

## Model

| member | source | states |
|---|---|---|
| `Accounts.LoadByEmail` | src/IdentityBase.Shared/Actions/Recover/RecoverController.cs:80-81 | an account is found exactly when one is stored under the email, and it is that stored account with that email |
| `Provider.Split` | src/IdentityBase.Shared/Actions/Recover/RecoverController.cs:101-102 | the split never returns an empty sequence, no segment contains the separator, and joining the segments gives back the email |
| `Provider.SplitJoin` | src/IdentityBase.Shared/Actions/Recover/RecoverController.cs:101-102 | the other half of the round trip: splitting a join of separator-free segments gives back those segments |
| `Provider.SplitLast` | src/IdentityBase.Shared/Actions/Recover/RecoverController.cs:101-103 | the last segment is a suffix of the string with no separator in it, and it is either the whole string or preceded by the separator |
| `Provider.ProviderOf` | src/IdentityBase.Shared/Actions/Recover/RecoverController.cs:101-103 | the provider is the text after the last `@`, or the whole email when there is no `@`; it never contains `@` |
| `Provider.ProviderUnique` | src/IdentityBase.Shared/Actions/Recover/RecoverController.cs:101-103 | only one suffix has those properties, so they fully determine the provider |
| `Recovery.Written` | src/IdentityBase.Shared/Actions/Recover/RecoverController.cs:92 | a write stores the record under its email, leaves every other account as it was, and adds exactly one write to the trace |
| `Recovery.ConfirmPage` | src/IdentityBase.Shared/Actions/Recover/RecoverController.cs:176-200 | the result is "InvalidToken" exactly when the account is absent, the purpose is invalid or the token has expired; otherwise it is the Confirm form for that account's email; nothing is changed |
| `Recovery.BeginStep` | src/IdentityBase.Shared/Actions/Recover/RecoverController.cs:63-120 | an invalid form redirects back to Recover with the same return URL and no added error; an unknown email and a deactivated account redirect the same way, each adding its own error (`UserAccountDoesNotExists`, `UserAccountIsDeactivated`); none of the three changes anything. Begin succeeds exactly when the account exists and login is allowed. On success: verification is set to (ResetPassword, return URL); that account is written once and then one recovery email is sent, in that order; other accounts are untouched; the page carries the return URL and the provider |
| `Recovery.RejectToken` | src/IdentityBase.Shared/Actions/Recover/RecoverController.cs:216-234 | a rejected token shows "InvalidToken". With no resolved account nothing changes. Otherwise only that account's verification is cleared, and it is written exactly once |
| `Recovery.ConfirmStep` | src/IdentityBase.Shared/Actions/Recover/RecoverController.cs:202-271 | the result is "InvalidToken" exactly when the token is rejected, and a rejected token is handled as in `RejectToken`. An invalid form shows the Confirm form and changes nothing. On success the password becomes the submitted one and the account is written once. With login after recovery: a sign-in with the stored return URL, then the write, then a redirect to that URL. Without it: a login redirect with that URL. The URL is the one stored before the password was set |
| `Recovery.CancelStep` | src/IdentityBase.Shared/Actions/Recover/RecoverController.cs:273-310 | the result is "InvalidToken" exactly when the token is rejected, handled as in `RejectToken`. Otherwise the verification is cleared, the account is written once with its password unchanged, and the result is a login redirect with the return URL stored before clearing |
| `Recovery.StepsKeepStoreKeyed` | src/IdentityBase.Shared/Actions/Recover/RecoverController.cs:80-92 | no handler breaks the store's keying by email |
| `Recovery.TokenGuardAgrees` | src/IdentityBase.Shared/Actions/Recover/RecoverController.cs:185-187 | the Confirm page, the Confirm form post and Cancel accept exactly the same verification results |
| `Recovery.RejectedTokenKeepsPasswords` | src/IdentityBase.Shared/Actions/Recover/RecoverController.cs:216-234 | when the token resolved to a stored account, a rejected token leaves the set of accounts and every stored password unchanged, in Confirm and in Cancel |
| `Recovery.RecoverThenConfirm` | src/IdentityBase.Shared/Actions/Recover/RecoverController.cs:244-270 | after Begin, confirming with an accepted token sets the new password and redirects to the return URL that Begin was given |
| `Recovery.RecoverThenCancel` | src/IdentityBase.Shared/Actions/Recover/RecoverController.cs:302-309 | after Begin, cancelling with an accepted token gives a login redirect with Begin's return URL; the store then equals the store before Begin, except that the account has no pending verification |
| `Recovery.RecoverTwiceKeepsLatest` | src/IdentityBase.Shared/Actions/Recover/RecoverController.cs:87-92 | after two Begins on one account, only the second request's verification is pending |
| `Controller.RecoverController.constructor` | src/IdentityBase.Shared/Actions/Recover/RecoverController.cs:30-52 | the controller starts with the given store, an empty trace and the given login-after-recovery option |
| `Controller.RecoverController.WriteAccount` | src/IdentityBase.Shared/Actions/Recover/RecoverController.cs:92 | the controller's state becomes the state after `Written`, and the store stays keyed by email |
| `Controller.RecoverController.Recover` | src/IdentityBase.Shared/Actions/Recover/RecoverController.cs:63-120 | the new store, the new trace and the outcome are those of `BeginStep` |
| `Controller.RecoverController.Confirm` | src/IdentityBase.Shared/Actions/Recover/RecoverController.cs:202-271 | the new store, the new trace and the outcome are those of `ConfirmStep` under the controller's login-after-recovery option |
| `Controller.RecoverController.Cancel` | src/IdentityBase.Shared/Actions/Recover/RecoverController.cs:273-310 | the new store, the new trace and the outcome are those of `CancelStep` |

Three facts about the code that the model keeps:

- Cancel rejects an expired token (src/IdentityBase.Shared/Actions/Recover/RecoverController.cs:284-286).
- The successful Confirm path (src/IdentityBase.Shared/Actions/Recover/RecoverController.cs:244-270) never calls `ClearVerificationData`.
- Begin adds different errors for a deactivated account (src/IdentityBase.Shared/Actions/Recover/RecoverController.cs:108) and for an unknown email (src/IdentityBase.Shared/Actions/Recover/RecoverController.cs:113).

## Left out

- The `Recover` GET action and `CreateViewModelAsync` (lines 54-61, 122-174). They only build a view model from the authorization context, the client options and the external providers. They change no state.
- How tokens are made and checked (`GetVerificationResultAsync`, key generation and hashing, expiry, purpose matching). That code is not visible. Its result is an input to each handler. So the model does not prove single use, expiry or purpose isolation, which belong to the token check. It shows only that Begin replaces any earlier pending verification.
- `SetPassword`: modelled as setting the password field; hashing is not modelled. Any other field it may change is not visible. So the model keeps the pending verification after a successful Confirm and makes no claim that it is cleared.
- `SetSuccessfullSignIn`: modelled as recording the sign-in time, which is given as the `now` parameter. Any other bookkeeping it does is not visible.
- `SignInAsync` and the recovery email: kept only as entries in the effect trace. Session setup, email content and email transport are not modelled.
- `ModelState`: form validity is a boolean input. Errors added by form binding are not modelled. The token-is-invalid error is implied by the "InvalidToken" outcome.
- Anti-forgery, localization, logging and `async` scheduling are not modelled.
- Failures of a store write or of email sending (exceptions) are not modelled. Every write and every send succeeds.
- Concurrent requests on the same account (last writer wins) are not modelled. Each handler runs alone.
- The borrowed `UserAccount` reference is modelled as a value copy that `WriteAccount` puts back under its email. Aliasing between that reference and other objects is not modelled.
- `LoadByEmailAsync` is modelled as an exact lookup of the email in a store keyed by email. Its real matching rule (for example, ignoring case) is not visible. So the "unknown email" case of `BeginStep`, and the provider computed from the typed email, assume exact matching.
- Null strings are not modelled, except for the stored return URL: it is absent when no verification is pending. The email and the return URL typed into Begin are never null in the model.
- src/IdentityBase.Shared/Actions/External/IExternalProvidersViewModel.cs is a data shape with no behaviour and is not part of this model. `SuccessViewModel` appears only as the `SuccessView` record.
