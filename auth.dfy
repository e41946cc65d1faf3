/** Sign-up and sign-in: the ordered checks of a sign-up request, the email
    shape they demand, the insertion of the account, and the checks of a
    sign-in. Password hashing and token signing are foreign: a hash is a
    parameter, the comparison of a password with a hash is a function
    parameter, and a failed token is a failure parameter. */
module Auth {
  import opened Common
  import opened Users

  /** The characters `\s` matches in a JavaScript regular expression. */
  predicate IsJsSpace(c: char) {
    || c == ' ' || c == '\t' || c == '\n' || c == '\U{000B}' || c == '\U{000C}' || c == '\r'
    || c == '\U{00A0}' || c == '\U{1680}' || ('\U{2000}' <= c <= '\U{200A}')
    || c == '\U{2028}' || c == '\U{2029}' || c == '\U{202F}' || c == '\U{205F}' || c == '\U{3000}' || c == '\U{FEFF}'
  }

  /** A match of `[^\s@]+`: not empty, no whitespace, no `@`. */
  predicate Plain(s: string) {
    |s| > 0 && forall k :: 0 <= k < |s| ==> !IsJsSpace(s[k]) && s[k] != '@'
  }

  /** `/^[^\s@]+@[^\s@]+\.[^\s@]+$/.test(s)`: the whole string splits at an
      `@` and a later `.` into three such runs. */
  predicate EmailPattern(s: string) {
    exists i, j :: 0 <= i < j < |s| && s[i] == '@' && s[j] == '.' && Plain(s[..i]) && Plain(s[i + 1..j]) && Plain(s[j + 1..])
  }

  /** The same shape said another way: no whitespace, exactly one `@`, not
      first, and a `.` at least two characters after it that is not last. */
  predicate EmailRule(s: string) {
    && (forall k :: 0 <= k < |s| ==> !IsJsSpace(s[k]))
    && exists i :: 0 < i < |s| && s[i] == '@'
                   && (forall k :: 0 <= k < |s| && k != i ==> s[k] != '@')
                   && (exists j :: i + 1 < j < |s| - 1 && s[j] == '.')
  }

  lemma PatternMeetsRule(s: string)
    requires EmailPattern(s)
    ensures EmailRule(s)
  {
    var i, j :| 0 <= i < j < |s| && s[i] == '@' && s[j] == '.' && Plain(s[..i]) && Plain(s[i + 1..j]) && Plain(s[j + 1..]);
    forall k | 0 <= k < |s|
      ensures !IsJsSpace(s[k]) && (k != i ==> s[k] != '@')
    {
      if k < i {
        assert s[..i][k] == s[k];
      } else if i < k < j {
        assert s[i + 1..j][k - i - 1] == s[k];
      } else if j < k {
        assert s[j + 1..][k - j - 1] == s[k];
      }
    }
    assert i + 1 < j < |s| - 1 && s[j] == '.';
  }

  lemma RuleMeetsPattern(s: string)
    requires EmailRule(s)
    ensures EmailPattern(s)
  {
    var i :| 0 < i < |s| && s[i] == '@'
             && (forall k :: 0 <= k < |s| && k != i ==> s[k] != '@')
             && (exists j :: i + 1 < j < |s| - 1 && s[j] == '.');
    var j :| i + 1 < j < |s| - 1 && s[j] == '.';
    var a, b, c := s[..i], s[i + 1..j], s[j + 1..];
    forall k | 0 <= k < |a|
      ensures !IsJsSpace(a[k]) && a[k] != '@'
    {
      assert a[k] == s[k];
    }
    forall k | 0 <= k < |b|
      ensures !IsJsSpace(b[k]) && b[k] != '@'
    {
      assert b[k] == s[i + 1 + k];
    }
    forall k | 0 <= k < |c|
      ensures !IsJsSpace(c[k]) && c[k] != '@'
    {
      assert c[k] == s[j + 1 + k];
    }
    assert Plain(a) && Plain(b) && Plain(c);
  }

  /** The pattern and the rule accept the same strings. */
  lemma EmailPatternIsRule(s: string)
    ensures EmailPattern(s) <==> EmailRule(s)
  {
    if EmailPattern(s) {
      PatternMeetsRule(s);
    }
    if EmailRule(s) {
      RuleMeetsPattern(s);
    }
  }

  /** A sign-up request. An absent role means the default. */
  datatype SignupInput = SignupInput(email: Option<string>, password: Option<string>, displayName: Option<string>,
                                     role: Option<Role>)

  /** The checks `signup` makes before it reads the store, in their order:
      both credentials present, the email's shape, the password's length. */
  function SignupChecks(input: SignupInput): (r: Option<Exception>)
    ensures r.None? <==>
              Truthy(input.email) && Truthy(input.password) && EmailPattern(input.email.value) && |input.password.value| >= 8
    ensures r.Some? ==> r.value.BadRequest? || r.value.Unauthorized?
    ensures r.Some? && r.value.Unauthorized? <==>
              Truthy(input.email) && Truthy(input.password) && !EmailPattern(input.email.value)
  {
    if !Truthy(input.email) || !Truthy(input.password) then Some(BadRequest("Email and password are required"))
    else if !EmailPattern(input.email.value) then Some(Unauthorized("Invalid email format"))
    else if |input.password.value| < 8 then Some(BadRequest("Password must be at least 8 characters long"))
    else None
  }

  /** The `catch` of `signup`: BadRequest and Unauthorized pass, anything
      else becomes one BadRequest. */
  function SignupCatch(err: Failure): (thrown: Exception)
    ensures thrown.BadRequest? || thrown.Unauthorized?
    ensures err.Raised? && (err.ex.BadRequest? || err.ex.Unauthorized?) ==> thrown == err.ex
    ensures !(err.Raised? && (err.ex.BadRequest? || err.ex.Unauthorized?)) ==> thrown == BadRequest("Failed to create user")
  {
    if err.Raised? && (err.ex.BadRequest? || err.ex.Unauthorized?) then err.ex else BadRequest("Failed to create user")
  }

  /** The account with this email, if any. */
  function UserByEmail(users: seq<UserRow>, email: string): (r: Option<Id>)
    ensures r.None? <==> forall i :: 0 <= i < |users| ==> users[i].email != email
    ensures r.Some? ==> r.value < |users| && users[r.value].email == email
    ensures r.Some? && EmailsUnique(users) ==> forall i :: 0 <= i < |users| && users[i].email == email ==> i == r.value
  {
    if users == [] then None
    else if users[0].email == email then Some(0)
    else match UserByEmail(users[1..], email)
         case None => None
         case Some(i) => Some(i + 1)
  }

  /** `displayName || email`: a stored account always has a name, since
      the checks made the email non-empty. */
  function NameFor(displayName: Option<string>, email: string): (name: string)
    ensures Truthy(displayName) ==> name == displayName.value
    ensures !Truthy(displayName) ==> name == email
    ensures email != "" ==> name != ""
  {
    if Truthy(displayName) then displayName.value else email
  }

  /** The row `signup` stores: the hash in place of the password, the name
      defaulting to the email, the role defaulting to a plain user. */
  function NewUser(input: SignupInput, hash: string): (u: UserRow)
    requires input.email.Some?
    ensures u.email == input.email.value && u.password == hash && u.displayName == input.displayName
    ensures input.email.value != "" ==> u.name != ""
    ensures input.role.None? ==> u.role == UserRole
    ensures input.role.Some? ==> u.role == input.role.value
  {
    UserRow(input.email.value, hash, NameFor(input.displayName, input.email.value), input.displayName,
            if input.role.Some? then input.role.value else UserRole)
  }

  /** `bcrypt.compare`: whether the password matches the stored hash. */
  type Compare = (string, string) -> bool

  /** `signin`: missing credentials, an unknown email and a wrong password
      are each an Unauthorized; there is no `catch`, so a failed read or a
      failed token reaches the caller as it is. On success, the account
      whose email was given. */
  function Signin(users: seq<UserRow>, email: Option<string>, password: Option<string>, compare: Compare,
                  fault: Option<Failure>, tokenFault: Option<Failure>): (r: Result<Id>)
    ensures !Truthy(email) || !Truthy(password) ==> r == Err(Raised(Unauthorized("Email and password are required")))
    ensures Truthy(email) && Truthy(password) && fault.Some? ==> r == Err(fault.value)
    ensures Truthy(email) && Truthy(password) && fault.None? && (forall i :: 0 <= i < |users| ==> users[i].email != email.value) ==>
              r == Err(Raised(Unauthorized("User not found")))
    ensures r.Ok? ==> && Truthy(email) && Truthy(password)
                      && r.value < |users| && users[r.value].email == email.value
                      && compare(password.value, users[r.value].password)
    ensures r.Err? && fault.None? && tokenFault.None? ==> r.failure.Raised? && r.failure.ex.Unauthorized?
    ensures Truthy(email) && Truthy(password) && fault.None? && UserByEmail(users, email.value).Some? ==>
              var id := UserByEmail(users, email.value).value;
              && (compare(password.value, users[id].password) && tokenFault.None? <==> r == Ok(id))
              && (!compare(password.value, users[id].password) ==> r == Err(Raised(Unauthorized("Credentials are incorrect"))))
              && (compare(password.value, users[id].password) && tokenFault.Some? ==> r == Err(tokenFault.value))
  {
    if !Truthy(email) || !Truthy(password) then Err(Raised(Unauthorized("Email and password are required")))
    else if fault.Some? then Err(fault.value)
    else match UserByEmail(users, email.value)
         case None => Err(Raised(Unauthorized("User not found")))
         case Some(id) =>
           if !compare(password.value, users[id].password) then Err(Raised(Unauthorized("Credentials are incorrect")))
           else if tokenFault.Some? then Err(tokenFault.value)
           else Ok(id)
  }

  class AuthService {
    const store: Accounts

    constructor (store: Accounts)
      ensures this.store == store
    {
      this.store := store;
    }

    /** `signup`: the checks in order, then the lookup of the email, then
        the insertion. Everything runs inside the `try`, whose `catch` lets
        BadRequest and Unauthorized through and turns anything else into
        'Failed to create user'. A failure before the insertion changes
        nothing; the token is made after it, so a failed token still leaves
        the new account stored. */
    method Signup(input: SignupInput, hash: string, fault: Option<Failure>, tokenFault: Option<Failure>)
      returns (r: Result<Id>)
      modifies store
      ensures store.follows == old(store.follows) && store.nextFollowId == old(store.nextFollowId)
      ensures SignupChecks(input).Some? ==> r == Err(Raised(SignupChecks(input).value)) && store.users == old(store.users)
      ensures SignupChecks(input).None? && fault.Some? ==>
                r == Err(Raised(SignupCatch(fault.value))) && store.users == old(store.users)
      ensures SignupChecks(input).None? && fault.None? && UserByEmail(old(store.users), input.email.value).Some? ==>
                r == Err(Raised(BadRequest("User with this email already exists"))) && store.users == old(store.users)
      ensures SignupChecks(input).None? && fault.None? && UserByEmail(old(store.users), input.email.value).None? ==>
                && store.users == old(store.users) + [NewUser(input, hash)]
                && r == (if tokenFault.Some? then Err(Raised(SignupCatch(tokenFault.value))) else Ok(|old(store.users)|))
      ensures r.Err? ==> r.failure.Raised? && (r.failure.ex.BadRequest? || r.failure.ex.Unauthorized?)
      ensures old(store.Valid()) ==> store.Valid()
    {
      var invalid := SignupChecks(input);
      if invalid.Some? {
        return Err(Raised(SignupCatch(Raised(invalid.value))));
      }
      if fault.Some? {
        return Err(Raised(SignupCatch(fault.value)));
      }
      var existing := UserByEmail(store.users, input.email.value);
      if existing.Some? {
        return Err(Raised(SignupCatch(Raised(BadRequest("User with this email already exists")))));
      }
      var id := |store.users|;
      store.users := store.users + [NewUser(input, hash)];
      if tokenFault.Some? {
        return Err(Raised(SignupCatch(tokenFault.value)));
      }
      return Ok(id);
    }
  }
}
