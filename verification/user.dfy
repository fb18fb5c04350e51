/** User accounts (src/entity/User.ts): the e-mail and password rules of
    `createUser` and the order of its checks, the outcome of `login`, and the
    default administrator created on an empty table.

    The `user` table is a sequence of rows in storage order. bcrypt is not modelled:
    a new hash is an input and comparison is a parameter. The clock reading and
    the auto-increment id are inputs. */
module UserAccounts {
  import opened Wrappers
  import opened JsValues

  datatype UserRow = UserRow(
    id: nat,
    firstName: string,
    lastName: string,
    roles: string,
    email: string,
    passwordHash: string,
    createdAt: string)

  /** The column default of `roles`. */
  const DefaultRoles := "[\"ROLE_USER\"]"
  const AdminRoles := "[\"ROLE_ADMIN\"]"

  datatype UserError =
    | InvalidEmail
    | WeakPassword
    | EmailExists
    | EmailNotFound
    | PasswordMismatch
    /** `JSON.parse` of the stored roles threw. */
    | RolesUnreadable

  /** The message each error is thrown with. */
  function Message(e: UserError): string
  {
    match e
    case InvalidEmail => "User error: Invalid email"
    case WeakPassword => "User error: Password is not strong enough, it must contain at least 8 characters, 1 uppercase, 1 lowercase, 1 number, 1 special character"
    case EmailExists => "User error: Email already exists"
    case EmailNotFound => "User error: Email not found"
    case PasswordMismatch => "User error: Password does not match"
    case RolesUnreadable => "SyntaxError"
  }

  // ---------------------------------------------------------------------------
  // E-mail rule: ^[\w-\.]+@([\w-]+\.)+[\w-]{2,4}$

  /** `\w`. */
  predicate WordChar(c: char)
  {
    'a' <= c <= 'z' || 'A' <= c <= 'Z' || '0' <= c <= '9' || c == '_'
  }

  /** `[\w-]`. */
  predicate LabelChar(c: char) { WordChar(c) || c == '-' }

  /** `[\w-\.]`: the `-` between a class escape and `.` is a literal hyphen. */
  predicate LocalChar(c: char) { LabelChar(c) || c == '.' }

  predicate AllOf(s: string, p: char -> bool)
  {
    forall i :: 0 <= i < |s| ==> p(s[i])
  }

  /** `([\w-]+\.)+[\w-]{2,4}`: at least one non-empty label before a final label of
      two to four characters. */
  predicate DomainMatches(domain: string)
  {
    var labels := Split(domain, '.');
    && |labels| >= 2
    && (forall i :: 0 <= i < |labels| - 1 ==> labels[i] != "" && AllOf(labels[i], LabelChar))
    && 2 <= |labels[|labels| - 1]| <= 4 && AllOf(labels[|labels| - 1], LabelChar)
  }

  /** The e-mail test of `createUser`. No character class admits '@', so a matching
      address has exactly one. */
  predicate EmailMatches(email: string)
  {
    var parts := Split(email, '@');
    && |parts| == 2
    && parts[0] != "" && AllOf(parts[0], LocalChar)
    && DomainMatches(parts[1])
  }

  lemma DefaultAdminEmailMatches()
    ensures EmailMatches("admin@example.com")
  {
    var local, name, tld := "admin", "example", "com";
    assert AllOf(local, LocalChar) && AllOf(name, LabelChar) && AllOf(tld, LabelChar);
    SimpleAddress(local, name, tld);
    assert local + "@" + (name + "." + tld) == "admin@example.com";
  }

  /** `local@name.tld` with one domain label. */
  lemma SimpleAddress(local: string, name: string, tld: string)
    requires local != "" && AllOf(local, LocalChar)
    requires name != "" && AllOf(name, LabelChar)
    requires 2 <= |tld| <= 4 && AllOf(tld, LabelChar)
    ensures EmailMatches(local + "@" + (name + "." + tld))
  {
    Excludes(name, LabelChar, '@');
    Excludes(tld, LabelChar, '@');
    Excludes(name, LabelChar, '.');
    Excludes(tld, LabelChar, '.');
    TwoLabelDomain(name, tld);
    AddressAt(local, name + ['.'] + tld);
  }

  lemma TwoLabelDomain(name: string, tld: string)
    requires name != "" && AllOf(name, LabelChar) && '.' !in name
    requires 2 <= |tld| <= 4 && AllOf(tld, LabelChar) && '.' !in tld
    ensures DomainMatches(name + ['.'] + tld)
  {
    TwoParts(name, '.', tld);
  }

  lemma AddressAt(local: string, domain: string)
    requires local != "" && AllOf(local, LocalChar)
    requires '@' !in domain && DomainMatches(domain)
    ensures EmailMatches(local + ['@'] + domain)
  {
    Excludes(local, LocalChar, '@');
    TwoParts(local, '@', domain);
  }

  /** A character the predicate refuses does not occur in a text it accepts throughout. */
  lemma Excludes(s: string, p: char -> bool, x: char)
    requires AllOf(s, p) && !p(x)
    ensures x !in s
  {
  }

  /** Splitting at the only separator. */
  lemma TwoParts(a: string, c: char, b: string)
    requires c !in a && c !in b
    ensures Split(a + [c] + b, c) == [a, b]
  {
    SplitCons(a, c, b);
    SplitNoSeparator(b, c);
  }

  /** An address with no '.' after its '@', or with a one-letter last label, is refused. */
  lemma EmailNeedsDottedDomain(local: string, domain: string)
    requires '@' !in local && '@' !in domain
    requires '.' !in domain || |Split(domain, '.')[|Split(domain, '.')| - 1]| < 2
    ensures !EmailMatches(local + "@" + domain)
  {
    TwoParts(local, '@', domain);
    assert local + "@" + domain == local + ['@'] + domain;
    if '.' !in domain {
      SplitNoSeparator(domain, '.');
    }
    assert !DomainMatches(domain);
  }

  // ---------------------------------------------------------------------------
  // Password rule: ^(?=.*?[A-Z])(?=.*?[a-z])(?=.*?[0-9])(?=.*?[#?!@$%^&*-\.]).{8,}$

  /** `[#?!@$%^&*-\.]`; `*-\.` is the range from '*' to '.'. */
  predicate SpecialChar(c: char)
  {
    c in "#?!@$%^&" || '*' <= c <= '.'
  }

  predicate Contains(s: string, p: char -> bool)
  {
    exists i :: 0 <= i < |s| && p(s[i])
  }

  /** The password test of `createUser`. */
  predicate StrongPassword(password: string)
  {
    && |password| >= 8
    && !Contains(password, LineTerminator)
    && Contains(password, c => 'A' <= c <= 'Z')
    && Contains(password, c => 'a' <= c <= 'z')
    && Contains(password, c => '0' <= c <= '9')
    && Contains(password, SpecialChar)
  }

  /** The range `*-\.` makes '+' and ',' special characters: a password whose only
      special character is one of them passes. */
  lemma RangeAdmitsPlusAndComma(password: string, i: nat)
    requires |password| >= 8 && !Contains(password, LineTerminator)
    requires Contains(password, c => 'A' <= c <= 'Z') && Contains(password, c => 'a' <= c <= 'z')
    requires Contains(password, c => '0' <= c <= '9')
    requires i < |password| && (password[i] == '+' || password[i] == ',')
    ensures StrongPassword(password)
  {
    assert SpecialChar(password[i]);
  }

  // ---------------------------------------------------------------------------
  // createUser

  predicate EmailTaken(table: seq<UserRow>, email: string)
  {
    exists i :: 0 <= i < |table| && table[i].email == email
  }

  /** A new row and the table with it. */
  datatype Created = Created(table: seq<UserRow>, insertId: nat)

  /** `createUser`. `hashed` is bcrypt's hash of the password, `now` the creation
      time text, `nextId` the id the table assigns. */
  function CreateUser(table: seq<UserRow>, firstName: string, lastName: string, email: string, password: string,
                      hashed: string, now: string, nextId: nat): (r: Result<Created, UserError>)
    ensures r.Ok? <==> EmailMatches(email) && StrongPassword(password) && !EmailTaken(table, email)
    ensures !EmailMatches(email) ==> r == Err(InvalidEmail)
    ensures EmailMatches(email) && !StrongPassword(password) ==> r == Err(WeakPassword)
    ensures EmailMatches(email) && StrongPassword(password) && EmailTaken(table, email) ==> r == Err(EmailExists)
    ensures r.Ok? ==> (r.value.insertId == nextId
      && r.value.table == table + [UserRow(nextId, firstName, lastName, DefaultRoles, email, hashed, now)])
  {
    if !EmailMatches(email) then Err(InvalidEmail)
    else if !StrongPassword(password) then Err(WeakPassword)
    else if EmailTaken(table, email) then Err(EmailExists)
    else Ok(Created(table + [UserRow(nextId, firstName, lastName, DefaultRoles, email, hashed, now)], nextId))
  }

  predicate EmailsUnique(table: seq<UserRow>)
  {
    forall i, j :: 0 <= i < j < |table| ==> table[i].email != table[j].email
  }

  /** `createUser` keeps e-mails unique, so a second sign-up with the same address fails. */
  lemma CreateUserKeepsEmailsUnique(table: seq<UserRow>, firstName: string, lastName: string, email: string, password: string,
                                    hashed: string, now: string, nextId: nat)
    requires EmailsUnique(table)
    requires CreateUser(table, firstName, lastName, email, password, hashed, now, nextId).Ok?
    ensures var t := CreateUser(table, firstName, lastName, email, password, hashed, now, nextId).value.table;
      EmailsUnique(t) && EmailTaken(t, email)
  {
    var t := CreateUser(table, firstName, lastName, email, password, hashed, now, nextId).value.table;
    assert t[|table|].email == email;
  }

  lemma SecondSignUpRefused(table: seq<UserRow>, email: string, password: string, hashed: string, now: string,
                            nextId: nat, firstName: string, lastName: string, hashed2: string, nextId2: nat)
    requires CreateUser(table, firstName, lastName, email, password, hashed, now, nextId).Ok?
    ensures var t := CreateUser(table, firstName, lastName, email, password, hashed, now, nextId).value.table;
      CreateUser(t, firstName, lastName, email, password, hashed2, now, nextId2) == Err(EmailExists)
  {
    var t := CreateUser(table, firstName, lastName, email, password, hashed, now, nextId).value.table;
    assert t[|table|].email == email;
  }

  // ---------------------------------------------------------------------------
  // login

  /** What `login` returns: the account without its password hash. */
  datatype LoginView = LoginView(id: nat, firstName: string, lastName: string, email: string, roles: seq<string>)

  /** Index of the first row with the e-mail, which `rows[0]` of the query picks. */
  function FirstWithEmail(table: seq<UserRow>, email: string): (i: nat)
    requires EmailTaken(table, email)
    ensures i < |table| && table[i].email == email
    ensures forall k :: 0 <= k < i ==> table[k].email != email
  {
    if table[0].email == email then 0
    else
      assert exists i :: 0 <= i < |table[1..]| && table[1..][i].email == email by {
        var i :| 0 <= i < |table| && table[i].email == email;
        assert table[1..][i - 1] == table[i];
      }
      1 + FirstWithEmail(table[1..], email)
  }

  /** `login`. `matches` is `bcrypt.compare`, `parseRoles` is `JSON.parse` of the roles
      column (`None` when it throws). */
  function Login(table: seq<UserRow>, email: string, password: string,
                 matches: (string, string) -> bool, parseRoles: string -> Option<seq<string>>): (r: Result<LoginView, UserError>)
    ensures !EmailTaken(table, email) ==> r == Err(EmailNotFound)
    ensures EmailTaken(table, email) ==>
      var u := table[FirstWithEmail(table, email)];
      && (!matches(password, u.passwordHash) ==> r == Err(PasswordMismatch))
      && (matches(password, u.passwordHash) && parseRoles(u.roles).None? ==> r == Err(RolesUnreadable))
      && (r.Ok? <==> matches(password, u.passwordHash) && parseRoles(u.roles).Some?)
      && (r.Ok? ==> r.value == LoginView(u.id, u.firstName, u.lastName, u.email, parseRoles(u.roles).value))
  {
    if !EmailTaken(table, email) then Err(EmailNotFound)
    else
      var u := table[FirstWithEmail(table, email)];
      if !matches(password, u.passwordHash) then Err(PasswordMismatch)
      else match parseRoles(u.roles)
        case None => Err(RolesUnreadable)
        case Some(roles) => Ok(LoginView(u.id, u.firstName, u.lastName, u.email, roles))
  }

  /** Right after a sign-up, logging in with the same password (as bcrypt judges it)
      returns the new account with the default role. */
  lemma LoginAfterCreate(table: seq<UserRow>, firstName: string, lastName: string, email: string, password: string,
                         hashed: string, now: string, nextId: nat,
                         matches: (string, string) -> bool, parseRoles: string -> Option<seq<string>>)
    requires CreateUser(table, firstName, lastName, email, password, hashed, now, nextId).Ok?
    requires matches(password, hashed)
    requires parseRoles(DefaultRoles) == Some(["ROLE_USER"])
    ensures var t := CreateUser(table, firstName, lastName, email, password, hashed, now, nextId).value.table;
      Login(t, email, password, matches, parseRoles) == Ok(LoginView(nextId, firstName, lastName, email, ["ROLE_USER"]))
  {
    var t := CreateUser(table, firstName, lastName, email, password, hashed, now, nextId).value.table;
    assert t[|table|].email == email;
  }

  // ---------------------------------------------------------------------------
  // Default administrator

  /** `initializeDefaultUser`: on an empty table, the administrator row is inserted.
      `hashed` is bcrypt's hash of "adminpassword". */
  function InitializeDefaultUser(table: seq<UserRow>, hashed: string, now: string, nextId: nat): (t: seq<UserRow>)
    ensures |table| > 0 ==> t == table
    ensures |table| == 0 ==> t == [UserRow(nextId, "Admin", "Floway", AdminRoles, "admin@example.com", hashed, now)]
  {
    var hasUsers := |table| > 0;
    if hasUsers then table
    else [UserRow(nextId, "Admin", "Floway", AdminRoles, "admin@example.com", hashed, now)]
  }

  /** The administrator's password is set without the `createUser` rule, which would
      refuse it: it has no upper-case letter, digit or special character. */
  lemma AdminPasswordBypassesRule()
    ensures !StrongPassword("adminpassword")
  {
    var p := "adminpassword";
    assert forall i :: 0 <= i < |p| ==> 'a' <= p[i] <= 'z';
  }

  /** The administrator is created at most once: a second start finds a user. */
  lemma DefaultUserOnce(table: seq<UserRow>, hashed: string, now: string, nextId: nat, hashed2: string, now2: string, nextId2: nat)
    ensures var t := InitializeDefaultUser(table, hashed, now, nextId);
      |t| >= 1 && InitializeDefaultUser(t, hashed2, now2, nextId2) == t
  {
  }
}
