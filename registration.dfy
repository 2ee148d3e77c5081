/**
 * The validation chain of the `register` handler: seven checks applied in a
 * fixed order, the first failing one deciding the error shown to the visitor.
 */
module Registration {
  import opened Common
  import opened Text

  /** The submitted form; an absent text field reads as the empty string. */
  datatype Form = Form(
    username: string,
    email: string,
    password: string,
    confirmPassword: string,
    firstName: string,
    lastName: string,
    terms: Option<string>)

  /** The account to create, with its fields normalised (the password is hashed by the caller). */
  datatype NewUser = NewUser(username: string, email: string, password: string, firstName: string, lastName: string)

  /** The checks, in the order the handler applies them. */
  datatype Check =
    | RequiredFields
    | UsernameLength
    | PasswordLength
    | PasswordsMatch
    | TermsAccepted
    | EmailFree
    | UsernameFree

  datatype Outcome = Registered(user: NewUser) | Rejected(failed: Check)

  const MinUsernameLength: nat := 3
  const MinPasswordLength: nat := 6

  /** The position of a check in the chain. */
  function Rank(c: Check): nat {
    match c
    case RequiredFields => 0
    case UsernameLength => 1
    case PasswordLength => 2
    case PasswordsMatch => 3
    case TermsAccepted => 4
    case EmailFree => 5
    case UsernameFree => 6
  }

  /** The normalised username: surrounding whitespace removed. */
  function Username(f: Form): string { Strip(f.username) }

  /** The normalised e-mail address: surrounding whitespace removed, then lower-cased. */
  function Email(f: Form): string { Lower(Strip(f.email)) }

  /** Whether one check passes for the form, given the e-mails and usernames already registered. */
  predicate Passes(c: Check, f: Form, emails: set<string>, usernames: set<string>) {
    match c
    case RequiredFields =>
      Username(f) != [] && Email(f) != [] && f.password != [] && Strip(f.firstName) != [] && Strip(f.lastName) != []
    case UsernameLength => |Username(f)| >= MinUsernameLength
    case PasswordLength => |f.password| >= MinPasswordLength
    case PasswordsMatch => f.password == f.confirmPassword
    case TermsAccepted => f.terms.Some? && f.terms.value != []
    case EmailFree => Email(f) !in emails
    case UsernameFree => Username(f) !in usernames
  }

  /** The checks in the order `register` applies them. */
  const Chain: seq<Check> :=
    [RequiredFields, UsernameLength, PasswordLength, PasswordsMatch, TermsAccepted, EmailFree, UsernameFree]

  /** The position in `cs` of the first check that fails, or None when all pass. */
  function FirstFailure(cs: seq<Check>, f: Form, emails: set<string>, usernames: set<string>): (r: Option<nat>)
    ensures r.Some? ==>
      r.value < |cs| && !Passes(cs[r.value], f, emails, usernames) &&
      forall j :: 0 <= j < r.value ==> Passes(cs[j], f, emails, usernames)
    ensures r.None? ==> forall j :: 0 <= j < |cs| ==> Passes(cs[j], f, emails, usernames)
  {
    if cs == [] then None
    else if !Passes(cs[0], f, emails, usernames) then Some(0)
    else match FirstFailure(cs[1..], f, emails, usernames)
      case None => None
      case Some(k) => Some(k + 1)
  }

  /** The validation chain of `register`, ending in the account it would create. */
  function Register(f: Form, emails: set<string>, usernames: set<string>): (r: Outcome)
    ensures r.Registered? ==>
      r.user == NewUser(Username(f), Email(f), f.password, Strip(f.firstName), Strip(f.lastName))
    ensures r.Registered? ==>
      var u := r.user;
      Trimmed(u.username) && |u.username| >= MinUsernameLength && u.username !in usernames &&
      Trimmed(u.email) && NoUpper(u.email) && u.email != [] && u.email !in emails &&
      |u.password| >= MinPasswordLength && u.password == f.confirmPassword &&
      Trimmed(u.firstName) && u.firstName != [] && Trimmed(u.lastName) && u.lastName != []
  {
    match FirstFailure(Chain, f, emails, usernames)
    case Some(k) => Rejected(Chain[k])
    case None =>
      LowerKeepsTrimmed(Strip(f.email));
      assert forall j :: 0 <= j < |Chain| ==> Passes(Chain[j], f, emails, usernames);
      assert Passes(Chain[0], f, emails, usernames) && Passes(Chain[1], f, emails, usernames);
      assert Passes(Chain[2], f, emails, usernames) && Passes(Chain[3], f, emails, usernames);
      assert Passes(Chain[5], f, emails, usernames) && Passes(Chain[6], f, emails, usernames);
      Registered(NewUser(Username(f), Email(f), f.password, Strip(f.firstName), Strip(f.lastName)))
  }

  /** Lower-casing neither adds nor removes surrounding whitespace, and leaves no upper-case letter. */
  lemma LowerKeepsTrimmed(s: string)
    ensures Trimmed(s) ==> Trimmed(Lower(s))
    ensures NoUpper(Lower(s))
  {
  }

  /** Every check sits in the chain at its rank. */
  lemma ChainOrder(c: Check)
    ensures Rank(c) < |Chain| && Chain[Rank(c)] == c
  {
  }

  /**
   * The chain reports the first check that fails, and creates the account
   * exactly when every check passes.
   */
  lemma RegisterReportsFirstFailure(f: Form, emails: set<string>, usernames: set<string>)
    ensures Register(f, emails, usernames).Registered? <==> forall c :: Passes(c, f, emails, usernames)
    ensures Register(f, emails, usernames).Rejected? ==>
      var failed := Register(f, emails, usernames).failed;
      !Passes(failed, f, emails, usernames) &&
      forall c :: Rank(c) < Rank(failed) ==> Passes(c, f, emails, usernames)
  {
    var r := Register(f, emails, usernames);
    match FirstFailure(Chain, f, emails, usernames)
    case None =>
      forall c ensures Passes(c, f, emails, usernames) { ChainOrder(c); }
    case Some(k) =>
      assert r.failed == Chain[k];
      ChainOrder(r.failed);
      assert Rank(r.failed) == k;
      forall c | Rank(c) < Rank(r.failed) ensures Passes(c, f, emails, usernames) { ChainOrder(c); }
  }
}
