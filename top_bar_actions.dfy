/**
 * The login form of the top bar: a syntactic check of the typed name and email before the
 * provider's `login` is asked, the modal's open/closed state and error text, and the auth
 * button that logs out a user or opens the form for a guest.
 */
module TopBarActions {
  import opened Wrappers
  import opened Text
  import opened Study
  import AppProvider

  /** The check `handleContinue` makes of the trimmed name and email: a name, and an email
      with an "@" and a "." in it. */
  function FormError(name: string, email: string): (r: Option<string>)
    ensures Trim(name) == "" ==> r == Some("Enter your name.")
    ensures Trim(name) != "" && !(Contains(Trim(email), "@") && Contains(Trim(email), ".")) ==>
              r == Some("Enter a valid email.")
    ensures r.None? <==> Trim(name) != "" && Contains(Trim(email), "@") && Contains(Trim(email), ".")
  {
    var n := Trim(name);
    var e := Trim(email);
    if n == "" then Some("Enter your name.")
    else if e == "" || !Contains(e, "@") || !Contains(e, ".") then Some("Enter a valid email.")
    else None
  }

  /** A trimmed string that is not empty holds a character other than whitespace. */
  lemma TrimmedNonEmptyNotBlank(s: string)
    requires Trim(s) != ""
    ensures Normalize(Trim(s)) != ""
  {
    var t := Trim(s);
    assert !IsSpace(t[0]);
    assert !AllSpace(t);
  }

  /** What passes the form's check is never refused by `login` for being blank: a refusal
      after the check can only be the name-and-email mismatch. */
  lemma FormPassesBlankCheck(reg: map<string, StoredUser>, name: string, email: string, now: int)
    requires FormError(name, email).None?
    ensures LoginOutcome(reg, Trim(name), Trim(email), now).LoginFailed? ==>
              LoginOutcome(reg, Trim(name), Trim(email), now).message == "Name does not match the email used previously."
  {
    TrimmedNonEmptyNotBlank(name);
    assert Trim(email) != "" by {
      ContainsIff(Trim(email), "@");
    }
    TrimmedNonEmptyNotBlank(email);
  }

  /** The modal's state, next to the provider it logs in to. */
  class LoginModal {
    const app: AppProvider.Provider
    var showLogin: bool
    var name: string
    var email: string
    var err: string

    constructor(app: AppProvider.Provider)
      ensures this.app == app && !showLogin && name == "" && email == "" && err == ""
    {
      this.app := app;
      showLogin := false;
      name := "";
      email := "";
      err := "";
    }

    /** The inputs' change handlers. */
    method EnterDetails(n: string, e: string)
      modifies this`name, this`email
      ensures name == n && email == e
    {
      name := n;
      email := e;
    }

    /** `openModal`, also run on the `openLogin` event. */
    method OpenModal()
      modifies this`err, this`showLogin
      ensures err == "" && showLogin
    {
      err := "";
      showLogin := true;
    }

    method CloseModal()
      modifies this`err, this`showLogin
      ensures err == "" && !showLogin
    {
      showLogin := false;
      err := "";
    }

    /** `handleContinue`: a failed check sets its message and leaves the provider alone;
        a passed check hands the trimmed name and email to `login`. */
    method HandleContinue(now: int)
      modifies this`name, this`email, this`err, this`showLogin, app`user, app`storage
      ensures FormError(old(name), old(email)).Some? ==>
                (err == FormError(old(name), old(email)).value && showLogin == old(showLogin)
                 && name == old(name) && email == old(email)
                 && app.user == old(app.user) && app.storage == old(app.storage))
      ensures FormError(old(name), old(email)).None? ==>
                Submitted(LoginOutcome(AppProvider.LoadRegistry(old(app.storage)), Trim(old(name)), Trim(old(email)), now),
                          Trim(old(email)), old(name), old(email), old(showLogin), old(app.user), old(app.storage))
    {
      var check := FormError(name, email);
      if check.Some? {
        err := check.value;
        return;
      }
      SubmitLogin(Trim(name), Trim(email), now);
    }

    /** The form after `login` answered for the email `e`: a refusal's message becomes the
        error and the form, the user and storage stay as they were; a success clears and
        closes the form, sets the user and stores what `login` stores. */
    ghost predicate Submitted(outcome: LoginResult, e: string, oldName: string, oldEmail: string, oldShow: bool,
                              oldUser: Option<User>, oldStorage: AppProvider.Storage)
      reads this, app
    {
      (outcome.LoginFailed? ==>
         err == outcome.message && showLogin == oldShow && name == oldName && email == oldEmail
         && app.user == oldUser && app.storage == oldStorage)
      && (outcome.LoggedIn? ==>
            name == "" && email == "" && err == "" && !showLogin && app.user == Some(outcome.user)
            && app.storage == AppProvider.StoreAfterLogin(oldStorage, e, outcome))
    }

    method SubmitLogin(n: string, e: string, now: int)
      modifies this`name, this`email, this`err, this`showLogin, app`user, app`storage
      ensures Submitted(LoginOutcome(AppProvider.LoadRegistry(old(app.storage)), n, e, now),
                        e, old(name), old(email), old(showLogin), old(app.user), old(app.storage))
    {
      var ok, message := app.Login(n, e, now);
      ShowAnswer(ok, message);
    }

    /** The form's reaction to `login`'s answer. */
    method ShowAnswer(ok: bool, message: string)
      modifies this`name, this`email, this`err, this`showLogin
      ensures !ok ==> err == message && showLogin == old(showLogin) && name == old(name) && email == old(email)
      ensures ok ==> name == "" && email == "" && err == "" && !showLogin
    {
      if !ok {
        err := message;
        return;
      }
      name := "";
      email := "";
      err := "";
      showLogin := false;
    }

    /** `handleAuthClick`: a user is logged out; a guest gets the login form. */
    method HandleAuthClick()
      modifies this`err, this`showLogin
      modifies app`user, app`storage, app`currentSelection, app`savedStudies, app`selectedStudyId,
        app`timerSeconds, app`timerStatus, app`pendingSession
      ensures old(app.user).Some? ==>
                (app.user.None? && app.Data() == AppProvider.LoggedOutData
                 && app.storage == old(app.storage) - {AppProvider.UserKey}
                 && showLogin == old(showLogin) && err == old(err))
      ensures old(app.user).None? ==>
                (showLogin && err == "" && app.user.None? && app.storage == old(app.storage)
                 && app.Data() == old(app.Data()))
    {
      if app.user.Some? {
        app.Logout();
        return;
      }
      OpenModal();
    }
  }
}
