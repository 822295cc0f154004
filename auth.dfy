/** The sign-in / sign-up form of components/Auth.tsx: its fields, the checks
    a submit runs before calling the store, and the outcome states. */
module Auth {
  import opened Types
  import opened Storage

  const FillAllFields := "Please fill in all fields"
  const PasswordTooShort := "Password must be at least 6 characters"
  const PasswordsDiffer := "Passwords do not match"

  /** The input a change event comes from. */
  datatype Field = NameField | EmailField | PasswordField | ConfirmPasswordField

  /** The checks run before the store is called; `Some(message)` for the
      first that fails. Sign-in needs an email and a password; sign-up needs
      all three fields, then a password of at least 6 characters, then a
      matching confirmation, in that order. */
  function Validate(isLogin: bool, name: string, email: string, password: string,
                    confirmPassword: string): (r: Option<string>)
    ensures isLogin ==> (r.Some? <==> email == "" || password == "")
    ensures isLogin && r.Some? ==> r.value == FillAllFields
    ensures !isLogin && (email == "" || password == "" || name == "") ==> r == Some(FillAllFields)
    ensures !isLogin && r == Some(PasswordTooShort) ==> email != "" && password != "" && name != ""
    ensures !isLogin && r == Some(PasswordsDiffer) ==> email != "" && name != "" && |password| >= 6
    ensures !isLogin && email != "" && password != "" && name != "" && |password| < 6 ==>
              r == Some(PasswordTooShort)
    ensures !isLogin && email != "" && password != "" && name != "" && |password| >= 6 && password != confirmPassword ==>
              r == Some(PasswordsDiffer)
    ensures !isLogin ==>
              (r == None <==> email != "" && name != "" && |password| >= 6 && password == confirmPassword)
    ensures r.Some? ==> r.value in {FillAllFields, PasswordTooShort, PasswordsDiffer}
  {
    if isLogin then
      if email == "" || password == "" then Some(FillAllFields) else None
    else if email == "" || password == "" || name == "" then Some(FillAllFields)
    else if |password| < 6 then Some(PasswordTooShort)
    else if password != confirmPassword then Some(PasswordsDiffer)
    else None
  }

  class AuthForm {
    var isLogin: bool
    var loading: bool
    var error: string
    var isSignupSuccess: bool
    var name: string
    var email: string
    var password: string
    var confirmPassword: string

    /** The form as it opens: sign-in mode, every field empty. */
    constructor ()
      ensures isLogin && !loading && error == "" && !isSignupSuccess
      ensures name == "" && email == "" && password == "" && confirmPassword == ""
    {
      isLogin := true;
      loading := false;
      error := "";
      isSignupSuccess := false;
      name := "";
      email := "";
      password := "";
      confirmPassword := "";
    }

    /** `handleChange`: the edited field takes the value and the error is
        cleared. */
    method HandleChange(field: Field, value: string)
      modifies this
      ensures error == ""
      ensures name == (if field.NameField? then value else old(name))
      ensures email == (if field.EmailField? then value else old(email))
      ensures password == (if field.PasswordField? then value else old(password))
      ensures confirmPassword == (if field.ConfirmPasswordField? then value else old(confirmPassword))
      ensures isLogin == old(isLogin) && loading == old(loading) && isSignupSuccess == old(isSignupSuccess)
    {
      match field {
        case NameField => name := value;
        case EmailField => email := value;
        case PasswordField => password := value;
        case ConfirmPasswordField => confirmPassword := value;
      }
      error := "";
    }

    /** The mode toggle: the other mode, with every field and the error
        cleared. */
    method ToggleMode()
      modifies this
      ensures isLogin == !old(isLogin) && error == ""
      ensures name == "" && email == "" && password == "" && confirmPassword == ""
      ensures loading == old(loading) && isSignupSuccess == old(isSignupSuccess)
    {
      isLogin := !isLogin;
      error := "";
      name, email, password, confirmPassword := "", "", "", "";
    }

    /** "Back to Login" on the sign-up success screen. */
    method BackToLogin()
      modifies this
      ensures !isSignupSuccess && isLogin && error == ""
      ensures name == old(name) && email == old(email) && password == old(password)
      ensures confirmPassword == old(confirmPassword) && loading == old(loading)
    {
      isSignupSuccess := false;
      isLogin := true;
      error := "";
    }

    /** `handleSubmit`. A failing check is shown and the store is not
        called. Otherwise the store signs in or signs up; a non-empty error
        message it answers with is shown; else a sign-in, or a sign-up that
        issued a session, reports the user as authenticated, and a sign-up
        without a session shows the success screen. `loading` ends false
        whatever happens. */
    method HandleSubmit(store: Store, signInRemote: Result<User>, signUpRemote: Result<SignUpOk>, newId: string)
      returns (authenticated: bool)
      modifies this, store
      ensures !loading
      ensures isLogin == old(isLogin)
      ensures name == old(name) && email == old(email)
      ensures password == old(password) && confirmPassword == old(confirmPassword)
      ensures store.contacts == old(store.contacts) && store.transactions == old(store.transactions)
      ensures store.hasClient ==> store.users == old(store.users) && store.session == old(store.session)
      ensures !store.hasClient && Validate(old(isLogin), old(name), old(email), old(password), old(confirmPassword)).None? ==>
        if old(isLogin) then
          var r := old(store.SignInResult(email, password));
          && store.users == old(store.users)
          && store.session == (if r.Ok? then Some(r.value) else old(store.session))
        else
          var r := old(store.SignUpResult(email, newId, password, name));
          && store.users == (if r.Ok? then old(store.users) + [StoredUser(newId, email, password, name)] else old(store.users))
          && store.session == (if r.Ok? then Some(r.value.user) else old(store.session))
      ensures var v := Validate(old(isLogin), old(name), old(email), old(password), old(confirmPassword));
        && (v.Some? ==>
              && error == v.value && !authenticated && isSignupSuccess == old(isSignupSuccess)
              && store.users == old(store.users) && store.session == old(store.session))
        && (v.None? && old(isLogin) ==>
              var r := if store.hasClient then signInRemote else old(store.SignInResult(email, password));
              && (r.Err? && r.error != "" ==> error == r.error && !authenticated)
              && (!(r.Err? && r.error != "") ==> error == "" && authenticated)
              && isSignupSuccess == old(isSignupSuccess))
        && (v.None? && !old(isLogin) ==>
              var r := if store.hasClient then signUpRemote else old(store.SignUpResult(email, newId, password, name));
              && (r.Err? && r.error != "" ==> error == r.error && !authenticated && isSignupSuccess == old(isSignupSuccess))
              && (r.Ok? && r.value.sessionIssued ==> error == "" && authenticated && isSignupSuccess == old(isSignupSuccess))
              && ((r.Ok? && !r.value.sessionIssued) || r == Err("") ==> error == "" && !authenticated && isSignupSuccess))
    {
      error := "";
      loading := true;
      authenticated := false;
      var v := Validate(isLogin, name, email, password, confirmPassword);
      if v.Some? {
        error := v.value;
        loading := false;
        return;
      }
      if isLogin {
        var r := store.SignIn(email, password, signInRemote);
        if r.Err? && r.error != "" {
          error := r.error;
        } else {
          authenticated := true;
        }
      } else {
        var r := store.SignUp(email, password, name, newId, signUpRemote);
        if r.Err? && r.error != "" {
          error := r.error;
        } else if r.Ok? && r.value.sessionIssued {
          authenticated := true;
        } else {
          isSignupSuccess := true;
        }
      }
      loading := false;
    }
  }
}
