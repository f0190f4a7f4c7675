/**
 * The sign-up page: the checks its form runs before calling the sign-up
 * service, the messages for the service's error codes, and the rotating
 * background.
 */
module Signup {

  const MismatchMessage := "Passwords do not match"
  const TooShortMessage := "Password must be at least 6 characters"
  const MinPasswordLength: nat := 6

  const EmailInUseMessage := "Email already in use. Please sign in or use a different email."
  const WeakPasswordMessage := "Password is too weak. Please choose a stronger password."
  const InvalidEmailMessage := "Invalid email address"
  const GenericMessage := "Failed to create an account"

  /** The number of background images. */
  const BackgroundCount: nat := 4

  /** How the sign-up service call ends: success, or an error carrying its code. */
  datatype Outcome = Created | Rejected(code: string)

  /** The message shown for an error code: three known codes have their own, any other gets the generic one. */
  function ErrorMessage(code: string): (r: string)
    ensures code == "auth/email-already-in-use" <==> r == EmailInUseMessage
    ensures code == "auth/weak-password" <==> r == WeakPasswordMessage
    ensures code == "auth/invalid-email" <==> r == InvalidEmailMessage
    ensures r == GenericMessage <==>
      code != "auth/email-already-in-use" && code != "auth/weak-password" && code != "auth/invalid-email"
  {
    if code == "auth/email-already-in-use" then EmailInUseMessage
    else if code == "auth/weak-password" then WeakPasswordMessage
    else if code == "auth/invalid-email" then InvalidEmailMessage
    else GenericMessage
  }

  /** `(prev + 1) % backgroundImages.length` */
  function NextBackground(prev: nat): (r: nat)
    ensures r < BackgroundCount
    ensures prev < BackgroundCount ==> (r == 0 <==> prev == BackgroundCount - 1)
    ensures prev + 1 < BackgroundCount ==> r == prev + 1
  {
    (prev + 1) % BackgroundCount
  }

  /** The background shown after `ticks` changes, starting from the first. */
  function BackgroundAfter(ticks: nat): nat {
    if ticks == 0 then 0 else NextBackground(BackgroundAfter(ticks - 1))
  }

  /** The backgrounds cycle: after `ticks` changes the index is `ticks` modulo the number of images. */
  lemma {:induction false} BackgroundCycles(ticks: nat)
    ensures BackgroundAfter(ticks) == ticks % BackgroundCount
  {
    if ticks > 0 {
      BackgroundCycles(ticks - 1);
    }
  }

  /** The sign-up form's state; `signupCalls` records each call to the sign-up service, with its arguments. */
  class SignupForm {
    var email: string
    var password: string
    var confirmPassword: string
    var loading: bool
    var error: string
    var signupCalls: seq<(string, string)>
    var navigatedHome: bool
    var currentBg: nat

    constructor()
      ensures email == "" && password == "" && confirmPassword == "" && !loading && error == ""
      ensures signupCalls == [] && !navigatedHome && currentBg == 0
    {
      email := "";
      password := "";
      confirmPassword := "";
      loading := false;
      error := "";
      signupCalls := [];
      navigatedHome := false;
      currentBg := 0;
    }

    /** One tick of the eight-second interval. */
    method RotateBackground()
      modifies this
      ensures currentBg == NextBackground(old(currentBg)) && currentBg < BackgroundCount
      ensures email == old(email) && password == old(password) && confirmPassword == old(confirmPassword)
      ensures loading == old(loading) && error == old(error) && signupCalls == old(signupCalls)
      ensures navigatedHome == old(navigatedHome)
    {
      currentBg := (currentBg + 1) % BackgroundCount;
    }

    /**
     * `handleSubmit`, given how the service call would end. Mismatched
     * passwords are reported first, then a password shorter than six, and
     * neither calls the service. Otherwise the service is called once with
     * the email and password; success goes home, an error shows its
     * message; loading ends either way.
     */
    method HandleSubmit(outcome: Outcome)
      modifies this
      ensures email == old(email) && password == old(password) && confirmPassword == old(confirmPassword)
      ensures currentBg == old(currentBg)
      ensures old(password) != old(confirmPassword) ==>
        && error == MismatchMessage && signupCalls == old(signupCalls)
        && loading == old(loading) && navigatedHome == old(navigatedHome)
      ensures old(password) == old(confirmPassword) && |old(password)| < MinPasswordLength ==>
        && error == TooShortMessage && signupCalls == old(signupCalls)
        && loading == old(loading) && navigatedHome == old(navigatedHome)
      ensures old(password) == old(confirmPassword) && |old(password)| >= MinPasswordLength ==>
        && signupCalls == old(signupCalls) + [(old(email), old(password))] && !loading
        && (outcome.Created? ==> error == "" && navigatedHome)
        && (outcome.Rejected? ==> error == ErrorMessage(outcome.code) && navigatedHome == old(navigatedHome))
    {
      if password != confirmPassword {
        error := MismatchMessage;
        return;
      }
      if |password| < MinPasswordLength {
        error := TooShortMessage;
        return;
      }
      error := "";
      loading := true;
      signupCalls := signupCalls + [(email, password)];
      match outcome {
        case Created =>
          navigatedHome := true;
        case Rejected(code) =>
          error := ErrorMessage(code);
      }
      loading := false;
    }
  }
}
