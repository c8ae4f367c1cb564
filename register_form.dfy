/** The register form: its password requirements, the confirmation match,
    the submit button's disabled rule, and `handleSubmit`, which checks the
    password, then the confirmation, then hands `{name, email, password}` to
    the caller's `onSubmit`. */
module RegisterForm {
  import opened Common
  import opened Schemas

  const RequirementsMessage := "Por favor aseg\U{00FA}rate que tu contrase\U{00F1}a cumpla con todos los requisitos"
  const MismatchMessage := "Las contrase\U{00F1}as no coinciden"
  const FallbackMessage := "Ocurri\U{00F3} un error"

  /** `/[lo-hi]/.test(s)`. */
  predicate HasCharIn(s: string, lo: char, hi: char) {
    exists k :: 0 <= k < |s| && lo <= s[k] <= hi
  }

  datatype PasswordRequirements = PasswordRequirements(
    minLength: bool, hasUppercase: bool, hasLowercase: bool, hasNumber: bool)

  function Requirements(password: string): PasswordRequirements {
    PasswordRequirements(|password| >= 8, HasCharIn(password, 'A', 'Z'),
                         HasCharIn(password, 'a', 'z'), HasCharIn(password, '0', '9'))
  }

  /** `Object.values(passwordRequirements).every(Boolean)`. */
  predicate IsPasswordValid(password: string) {
    var q := Requirements(password);
    q.minLength && q.hasUppercase && q.hasLowercase && q.hasNumber
  }

  predicate PasswordsMatch(password: string, confirmPassword: string) {
    password == confirmPassword && confirmPassword != ""
  }

  /** The submit button's `disabled`. */
  predicate SubmitDisabled(isLoading: bool, password: string, confirmPassword: string) {
    isLoading || !IsPasswordValid(password) || !PasswordsMatch(password, confirmPassword)
  }

  /** The inline "no coinciden" hint under the confirmation field. */
  predicate MismatchHintShown(password: string, confirmPassword: string) {
    confirmPassword != "" && !PasswordsMatch(password, confirmPassword)
  }

  /** Example: "Vivero2024" is valid. */
  lemma PasswordAccepted()
    ensures IsPasswordValid("Vivero2024")
  {
    var ok := "Vivero2024";
    assert ok[0] == 'V' && ok[1] == 'i' && ok[6] == '2';
  }

  /** Examples, one per requirement: "vivero2024" (no upper case),
      "VIVERO2024" (no lower case), "ViveroVerde" (no digit) and "Viv2024"
      (seven characters) are refused. */
  lemma PasswordRefused()
    ensures !IsPasswordValid("vivero2024")
    ensures !IsPasswordValid("VIVERO2024")
    ensures !IsPasswordValid("ViveroVerde")
    ensures !IsPasswordValid("Viv2024")
  {
    NoCharIn("vivero2024", 'A', 'Z');
    NoCharIn("VIVERO2024", 'a', 'z');
    NoCharIn("ViveroVerde", '0', '9');
  }

  /** Every requirement asks for at least something, so typing more
      characters after a valid password never makes it invalid. */
  lemma PasswordValidExtends(password: string, more: string)
    requires IsPasswordValid(password)
    ensures IsPasswordValid(password + more)
  {
    var p := password + more;
    forall lo: char, hi: char | HasCharIn(password, lo, hi)
      ensures HasCharIn(p, lo, hi)
    {
      var k :| 0 <= k < |password| && lo <= password[k] <= hi;
      assert p[k] == password[k];
    }
  }

  lemma NoCharIn(s: string, lo: char, hi: char)
    requires forall k :: 0 <= k < |s| ==> s[k] < lo || hi < s[k]
    ensures !HasCharIn(s, lo, hi)
  {
  }

  /** Any password the form accepts also meets the register schema's minimum length of 6. */
  lemma FormPasswordMeetsSchema(password: string, isEmail: string -> bool)
    requires IsPasswordValid(password)
    ensures RuleHolds(MinLength(6), password, isEmail)
  {
  }

  /** The hint shows iff something is typed in the confirmation and it differs. */
  lemma MismatchHintIff(password: string, confirmPassword: string)
    ensures MismatchHintShown(password, confirmPassword) <==> confirmPassword != "" && password != confirmPassword
  {
  }

  datatype RegisterData = RegisterData(name: string, email: string, password: string)

  /** How the awaited `onSubmit` ends. */
  datatype SubmitOutcome = Resolves | RejectsWithError(message: string) | RejectsWithOther

  /** The checks `handleSubmit` makes before calling `onSubmit`. */
  predicate PassesChecks(password: string, confirmPassword: string) {
    IsPasswordValid(password) && PasswordsMatch(password, confirmPassword)
  }

  /** The error `handleSubmit` leaves: the password message first, the
      mismatch message second, then the rejection's message if any. */
  function SubmitError(password: string, confirmPassword: string, hasOnSubmit: bool, outcome: SubmitOutcome): Option<string> {
    if !IsPasswordValid(password) then Some(RequirementsMessage)
    else if !PasswordsMatch(password, confirmPassword) then Some(MismatchMessage)
    else if !hasOnSubmit then None
    else match outcome
      case Resolves => None
      case RejectsWithError(m) => Some(m)
      case RejectsWithOther => Some(FallbackMessage)
  }

  /** The password check comes first; a mismatch is reported only for a
      valid password; and an error from `onSubmit` can only follow a
      submission. */
  lemma SubmitErrorOrder(password: string, confirmPassword: string, hasOnSubmit: bool, outcome: SubmitOutcome)
    ensures !IsPasswordValid(password) ==> SubmitError(password, confirmPassword, hasOnSubmit, outcome) == Some(RequirementsMessage)
    ensures SubmitError(password, confirmPassword, hasOnSubmit, outcome) == Some(MismatchMessage) && outcome.Resolves? ==>
      IsPasswordValid(password) && !PasswordsMatch(password, confirmPassword)
    ensures PassesChecks(password, confirmPassword) && hasOnSubmit && outcome.Resolves? ==>
      SubmitError(password, confirmPassword, hasOnSubmit, outcome).None?
  {
  }

  /** An enabled button is exactly a form that passes the submit checks. */
  lemma EnabledIffPassesChecks(password: string, confirmPassword: string)
    ensures !SubmitDisabled(false, password, confirmPassword) <==> PassesChecks(password, confirmPassword)
    ensures SubmitDisabled(true, password, confirmPassword)
  {
  }

  class RegisterFormState {
    var name: string
    var email: string
    var password: string
    var confirmPassword: string
    var isLoading: bool
    var error: Option<string>
    /** The calls made to `onSubmit`, oldest first. */
    var submissions: seq<RegisterData>

    constructor ()
      ensures name == "" && email == "" && password == "" && confirmPassword == ""
      ensures !isLoading && error.None? && submissions == []
    {
      name, email, password, confirmPassword := "", "", "", "";
      isLoading := false;
      error := None;
      submissions := [];
    }

    /** `handleSubmit`. */
    method HandleSubmit(hasOnSubmit: bool, outcome: SubmitOutcome)
      modifies this
      ensures error == SubmitError(password, confirmPassword, hasOnSubmit, outcome)
      ensures submissions == old(submissions) +
        (if PassesChecks(password, confirmPassword) && hasOnSubmit then [RegisterData(name, email, password)] else [])
      ensures isLoading == if PassesChecks(password, confirmPassword) then false else old(isLoading)
      ensures name == old(name) && email == old(email)
      ensures password == old(password) && confirmPassword == old(confirmPassword)
    {
      error := None;
      if !IsPasswordValid(password) {
        error := Some(RequirementsMessage);
        return;
      }
      if !PasswordsMatch(password, confirmPassword) {
        error := Some(MismatchMessage);
        return;
      }
      isLoading := true;
      if hasOnSubmit {
        submissions := submissions + [RegisterData(name, email, password)];
        match outcome {
          case Resolves =>
          case RejectsWithError(m) => error := Some(m);
          case RejectsWithOther => error := Some(FallbackMessage);
        }
      }
      isLoading := false;
    }
  }
}
