/** The four custom password validators. Each raises one error, with its
    own message and code, when the password has no character of its class;
    the `user` argument is accepted and ignored. Character classes are the
    ASCII ones. */
module PasswordValidators {
  import opened Basics

  datatype Validator = ContainDigit | ContainSymbol | Uppercase | Lowercase

  datatype Verdict = Pass | Fail(message: string, code: string)

  predicate IsDigit(c: char) {
    '0' <= c <= '9'
  }

  predicate IsUpper(c: char) {
    'A' <= c <= 'Z'
  }

  predicate IsLower(c: char) {
    'a' <= c <= 'z'
  }

  /** `str.isalnum` on one character. */
  predicate IsAlnum(c: char) {
    IsDigit(c) || IsUpper(c) || IsLower(c)
  }

  /** The character class each validator asks for. The symbol validator asks
      for a character that is not alphanumeric. */
  predicate Wanted(v: Validator, c: char) {
    match v
    case ContainDigit => IsDigit(c)
    case ContainSymbol => !IsAlnum(c)
    case Uppercase => IsUpper(c)
    case Lowercase => IsLower(c)
  }

  /** `any(... for char in password)` for the validator's class. */
  function AnyWanted(v: Validator, password: string): (r: bool)
    ensures r <==> exists i :: 0 <= i < |password| && Wanted(v, password[i])
  {
    if password == [] then false
    else Wanted(v, password[|password| - 1]) || AnyWanted(v, password[..|password| - 1])
  }

  function Message(v: Validator): string {
    match v
    case ContainDigit => "This password must contain at least one digit: 0-9."
    case ContainSymbol => "This password must contain at least 1 symbol: @, #, etc"
    case Uppercase => "This password must contain at least one uppercase letter: A-Z."
    case Lowercase => "This password must contain at least one lowercase letter: a-z."
  }

  function Code(v: Validator): string {
    match v
    case ContainDigit => "password_no_digit"
    case ContainSymbol => "password_no_symbol"
    case Uppercase => "password_no_uppercase"
    case Lowercase => "password_no_lowercase"
  }

  const HelpPrefix := "Your password must contain at least "

  /** `get_help_text`: every help text opens with the same phrase and names
      the validator's character class. */
  function HelpText(v: Validator): (r: string)
    ensures |r| > |HelpPrefix| && r[..|HelpPrefix|] == HelpPrefix
  {
    match v
    case ContainDigit => "Your password must contain at least one digit."
    case ContainSymbol => "Your password must contain at least 1 symbol."
    case Uppercase => "Your password must contain at least one uppercase letter."
    case Lowercase => "Your password must contain at least one lowercase letter."
  }

  /** Each validator has its own help text, and it is not its error
      message. */
  lemma HelpTextsDistinct(v: Validator, w: Validator)
    ensures HelpText(v) == HelpText(w) ==> v == w
    ensures HelpText(v) != Message(v)
  {
  }

  /** `validate(password, user)`: fails, with the validator's message and
      code, exactly when no character of the password is of its class. */
  function Validate(v: Validator, password: string, user: Option<nat>): (r: Verdict)
    ensures r.Pass? <==> exists i :: 0 <= i < |password| && Wanted(v, password[i])
    ensures r.Fail? ==> r.message == Message(v) && r.code == Code(v)
  {
    if !AnyWanted(v, password) then Fail(Message(v), Code(v)) else Pass
  }

  /** The validators that reject a password. */
  function Failing(password: string): (r: set<Validator>)
    ensures forall v :: v in r <==> Validate(v, password, None).Fail?
  {
    set v: Validator | v in {ContainDigit, ContainSymbol, Uppercase, Lowercase} && !AnyWanted(v, password)
  }

  /** The verdict does not depend on the user. */
  lemma UserIgnored(v: Validator, password: string, u1: Option<nat>, u2: Option<nat>)
    ensures Validate(v, password, u1) == Validate(v, password, u2)
  {
  }

  /** The codes, like the messages, tell the validators apart. */
  lemma CodesDistinct(v: Validator, w: Validator)
    ensures Code(v) == Code(w) ==> v == w
    ensures Message(v) == Message(w) ==> v == w
  {
  }

  /** Adding characters never turns a passing password into a failing one. */
  lemma {:induction false} PassIsMonotone(v: Validator, password: string, extra: string)
    requires Validate(v, password, None).Pass?
    ensures Validate(v, password + extra, None).Pass?
    ensures Validate(v, extra + password, None).Pass?
  {
    var i :| 0 <= i < |password| && Wanted(v, password[i]);
    assert (password + extra)[i] == password[i];
    assert (extra + password)[|extra| + i] == password[i];
  }

  /** Every validator rejects the empty password. */
  lemma EmptyFailsAll()
    ensures Failing("") == {ContainDigit, ContainSymbol, Uppercase, Lowercase}
  {
  }

  /** A character is of exactly one of the symbol, digit, upper-case and
      lower-case classes, so a one-character password passes exactly one
      validator. */
  lemma OneCharPassesOne(c: char)
    ensures exists v :: Validate(v, [c], None).Pass?
    ensures forall v, w :: Validate(v, [c], None).Pass? && Validate(w, [c], None).Pass? ==> v == w
  {
    if IsDigit(c) {
      assert Validate(ContainDigit, [c], None).Pass?;
    } else if IsUpper(c) {
      assert Validate(Uppercase, [c], None).Pass?;
    } else if IsLower(c) {
      assert Validate(Lowercase, [c], None).Pass?;
    } else {
      assert Validate(ContainSymbol, [c], None).Pass?;
    }
  }

  /** The registration tests: "Albertt@" lacks only a digit; "1234" lacks a
      symbol, an upper-case and a lower-case letter; "Albert.23" passes all. */
  lemma RegistrationCases()
    ensures Failing("Albertt@") == {ContainDigit}
    ensures Failing("1234") == {ContainSymbol, Uppercase, Lowercase}
    ensures Failing("Albert.23") == {}
  {
    NoDigitCase();
    DigitsOnlyCase();
    StrongCase();
  }

  lemma NoDigitCase()
    ensures Failing("Albertt@") == {ContainDigit}
  {
    assert Wanted(ContainSymbol, "Albertt@"[7]) && Wanted(Uppercase, "Albertt@"[0]) && Wanted(Lowercase, "Albertt@"[1]);
  }

  lemma DigitsOnlyCase()
    ensures Failing("1234") == {ContainSymbol, Uppercase, Lowercase}
  {
    assert Wanted(ContainDigit, "1234"[0]);
  }

  lemma StrongCase()
    ensures Failing("Albert.23") == {}
  {
    assert Wanted(ContainSymbol, "Albert.23"[6]) && Wanted(ContainDigit, "Albert.23"[7]);
    assert Wanted(Uppercase, "Albert.23"[0]) && Wanted(Lowercase, "Albert.23"[1]);
  }
}
