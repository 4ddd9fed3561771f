/** Shape check of a registration request. */
module UserModel {
  import opened Wrappers
  import opened Ascii
  import opened Models

  const NameRequired := "name must be specified"
  const NameTooLong := "name cannot be greater than 50 characters"
  const NameInvalid := "name contains invalid characters"
  const UsernameLength := "username must be between 5 and 20 characters"
  const UsernameInvalid := "username contains invalid characters"
  const PasswordLength := "password must be between 8 and 20 characters"

  /** The pattern `^[a-zA-Z\s]+$`. */
  predicate NamePattern(s: string) {
    |s| > 0 && forall i :: 0 <= i < |s| ==> IsLetter(s[i]) || IsPatternSpace(s[i])
  }

  /** The pattern `^[a-zA-Z0-9]+$`. */
  predicate UsernamePattern(s: string) {
    |s| > 0 && forall i :: 0 <= i < |s| ==> IsLetter(s[i]) || IsDigit(s[i])
  }

  /** What a registration must look like to pass: the trimmed name has 1 to
      50 letters or spaces, the trimmed username 5 to 20 characters with the
      untrimmed one made only of letters and digits, and the trimmed
      password 8 to 20 characters. */
  predicate WellFormed(u: User) {
    var name := TrimSpace(u.name);
    && 1 <= |name| <= 50 && NamePattern(name)
    && 5 <= |TrimSpace(u.username)| <= 20 && UsernamePattern(u.username)
    && 8 <= |TrimSpace(u.password)| <= 20
  }

  /** The checks after trimming, in source order: `name` and `username` and
      `password` are the trimmed values, `raw` the username as given, which
      is what the character check sees. */
  function Checks(name: string, username: string, password: string, raw: string): (o: Outcome)
    ensures o.Pass? <==> 1 <= |name| <= 50 && NamePattern(name) && 5 <= |username| <= 20
                         && UsernamePattern(raw) && 8 <= |password| <= 20
    ensures |name| == 0 ==> o == Fail(Failure(NameRequired))
    ensures |name| > 50 ==> o == Fail(Failure(NameTooLong))
    ensures 1 <= |name| <= 50 && !NamePattern(name) ==> o == Fail(Failure(NameInvalid))
    ensures NamePattern(name) && |name| <= 50 ==>
              (|username| == 0 ==> o == Fail(Failure(NameRequired)))
              && (0 < |username| < 5 || |username| > 20 ==> o == Fail(Failure(UsernameLength)))
              && (5 <= |username| <= 20 && !UsernamePattern(raw) ==> o == Fail(Failure(UsernameInvalid)))
    ensures NamePattern(name) && |name| <= 50 && 5 <= |username| <= 20 && UsernamePattern(raw) ==>
              (|password| == 0 ==> o == Fail(Failure(NameRequired)))
              && (0 < |password| < 8 || |password| > 20 ==> o == Fail(Failure(PasswordLength)))
  {
    if |name| == 0 then Fail(Failure(NameRequired))
    else if |name| > 50 then Fail(Failure(NameTooLong))
    else if !NamePattern(name) then Fail(Failure(NameInvalid))
    else if |username| == 0 then Fail(Failure(NameRequired))
    else if |username| < 5 || |username| > 20 then Fail(Failure(UsernameLength))
    else if !UsernamePattern(raw) then Fail(Failure(UsernameInvalid))
    else if |password| == 0 then Fail(Failure(NameRequired))
    else if |password| < 8 || |password| > 20 then Fail(Failure(PasswordLength))
    else Pass
  }

  /** Validation trims the name in place and returns the user together with
      the outcome of the checks; it passes exactly on well-formed users. */
  function Validate(u: User): (r: (User, Outcome))
    ensures r.0 == u.(name := TrimSpace(u.name))
    ensures r.1.Pass? <==> WellFormed(u)
  {
    (u.(name := TrimSpace(u.name)),
     Checks(TrimSpace(u.name), TrimSpace(u.username), TrimSpace(u.password), u.username))
  }

  /** The username pattern sees the untrimmed value: a username whose
      trimmed form is acceptable but which carries a surrounding space is
      rejected for its characters. */
  lemma PaddedUsernameRejected(u: User)
    requires NamePattern(TrimSpace(u.name)) && |TrimSpace(u.name)| <= 50
    requires 5 <= |TrimSpace(u.username)| <= 20
    requires IsTrimSpace(u.username[0]) || IsTrimSpace(u.username[|u.username| - 1])
    ensures Validate(u).1 == Fail(Failure(UsernameInvalid))
  {
    SpaceIsNotUsernameChar(u.username);
    assert Checks(TrimSpace(u.name), TrimSpace(u.username), TrimSpace(u.password), u.username)
        == Fail(Failure(UsernameInvalid));
  }

  lemma SpaceIsNotUsernameChar(s: string)
    requires |s| > 0 && (IsTrimSpace(s[0]) || IsTrimSpace(s[|s| - 1]))
    ensures !UsernamePattern(s)
  {
    var k := if IsTrimSpace(s[0]) then 0 else |s| - 1;
    assert !IsLetter(s[k]) && !IsDigit(s[k]);
  }
}
