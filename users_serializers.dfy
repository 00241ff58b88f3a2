/** The account and address serializers of eCommerce/users/serializers.py:
    registration (validation, then an inactive user), token issuance for
    active users only, and the nested create and update of a user's
    address. */
module UserSerializers {
  import opened Base
  import opened Errors
  import opened UserModels

  /** The registration request body, as the serializer's fields deliver it:
      each value with surrounding whitespace already stripped. */
  datatype RegistrationData = RegistrationData(
    email: string,
    username: string,
    firstName: string,
    lastName: string,
    password: string,
    password2: string)

  const PasswordMismatchText := "Password fields didn't match."
  const EmailTakenText := "user with this email address already exists."
  const UsernameTakenText := "A user with that username already exists."

  /** What the column validators say of the submitted values, apart from
      uniqueness: the email column's format and length validators, the
      username column's character and length validators, and the password
      validators. Each is the list of messages for the value, empty when it
      passes. */
  datatype FieldChecks = FieldChecks(email: seq<string>, username: seq<string>, password: seq<string>)

  /** The field-level checks that run before `validate`: every validator of a
      field runs and its messages are collected, the uniqueness check of the
      email and of the username among them. */
  function RegistrationFieldErrors(users: map<UserId, SiteUser>, n: nat, data: RegistrationData,
                                   checks: FieldChecks): (errs: map<string, seq<string>>)
    ensures "email" in errs <==> FindByEmail(users, data.email, n).Some? || checks.email != []
    ensures "username" in errs <==> FindByUsername(users, data.username, n).Some? || checks.username != []
    ensures "password" in errs <==> checks.password != []
    ensures "email" in errs ==>
              && (forall m :: m in checks.email ==> m in errs["email"])
              && (FindByEmail(users, data.email, n).Some? ==> EmailTakenText in errs["email"])
              && (FindByEmail(users, data.email, n).None? ==> errs["email"] == checks.email)
    ensures "username" in errs ==>
              && (forall m :: m in checks.username ==> m in errs["username"])
              && (FindByUsername(users, data.username, n).Some? ==> UsernameTakenText in errs["username"])
              && (FindByUsername(users, data.username, n).None? ==> errs["username"] == checks.username)
    ensures "password" in errs ==> errs["password"] == checks.password
    ensures errs.Keys <= {"email", "username", "password"}
  {
    var emailTaken := if FindByEmail(users, data.email, n).Some? then [EmailTakenText] else [];
    var nameTaken := if FindByUsername(users, data.username, n).Some? then [UsernameTakenText] else [];
    var e: map<string, seq<string>> :=
      if emailTaken + checks.email != [] then map["email" := checks.email + emailTaken] else map[];
    var u: map<string, seq<string>> :=
      if nameTaken + checks.username != [] then map["username" := checks.username + nameTaken] else map[];
    var p: map<string, seq<string>> := if checks.password != [] then map["password" := checks.password] else map[];
    e + u + p
  }

  /** The outcome of `is_valid(raise_exception=True)` on registration data. */
  datatype Registration = Registrable(attrs: RegistrationData) | Refused(exc: Exc)

  /** `UserRegistrationSerializer.validate`, after the field checks: the two
      passwords must match, and the data passes through unchanged. */
  function ValidateRegistration(users: map<UserId, SiteUser>, n: nat, data: RegistrationData,
                                checks: FieldChecks): (r: Registration)
    ensures r.Registrable? ==> r.attrs == data
  {
    var errs := RegistrationFieldErrors(users, n, data, checks);
    if errs != map[] then Refused(ValidationError(FieldMessages(errs)))
    else if data.password != data.password2 then Refused(ValidationError(FieldMessages(map["password" := [PasswordMismatchText]])))
    else Registrable(data)
  }

  /** Registration goes through exactly when the email and username are free
      and well formed, the password passes its validators and the two
      passwords match. Two passwords that differ, on data that is otherwise
      fine, give a 400 naming the password field. */
  lemma {:induction false} RegistrationOutcome(users: map<UserId, SiteUser>, n: nat, data: RegistrationData, checks: FieldChecks)
    ensures var r := ValidateRegistration(users, n, data, checks);
            && (r.Registrable? <==>
                  FindByEmail(users, data.email, n).None? && FindByUsername(users, data.username, n).None? &&
                  checks == FieldChecks([], [], []) && data.password == data.password2)
            && (r.Refused? ==> Handle(r.exc, DrfDefault(r.exc), "POST").status == HttpBadRequest)
            && (RegistrationFieldErrors(users, n, data, checks) == map[] && data.password != data.password2 ==>
                  Handle(r.exc, DrfDefault(r.exc), "POST").errors ==
                    Verbatim(FieldMessages(map["password" := [PasswordMismatchText]])))
  {
    var errs := RegistrationFieldErrors(users, n, data, checks);
    if errs == map[] {
      assert "email" !in errs && "username" !in errs && "password" !in errs;
    } else {
      var key :| key in errs;
      assert key == "email" || key == "username" || key == "password";
    }
  }

  /** `UserRegistrationSerializer.create`: the new row, deactivated until its
      email is confirmed. */
  function NewUser(attrs: RegistrationData): SiteUser {
    SiteUser(attrs.email, attrs.username, attrs.firstName, attrs.lastName, attrs.password, false)
  }

  /** What registration answers. */
  datatype RegisterReply = Registered(id: UserId) | RegisterFailed(exc: Exc)

  /** `UserRegistrationView` up to the saved user: validate, then create. */
  method Register(dir: UserDirectory, data: RegistrationData, checks: FieldChecks) returns (reply: RegisterReply)
    requires dir.Valid()
    modifies dir
    ensures dir.Valid()
    ensures var r := ValidateRegistration(old(dir.users), old(dir.nextUserId), data, checks);
            && (r.Refused? ==> reply == RegisterFailed(r.exc) && dir.users == old(dir.users) && dir.nextUserId == old(dir.nextUserId))
            && (r.Registrable? ==>
                  reply == Registered(old(dir.nextUserId)) && dir.users == old(dir.users)[reply.id := NewUser(data)] &&
                  dir.nextUserId == old(dir.nextUserId) + 1)
  {
    var r := ValidateRegistration(dir.users, dir.nextUserId, data, checks);
    if r.Refused? {
      reply := RegisterFailed(r.exc);
      return;
    }
    RegistrationOutcome(dir.users, dir.nextUserId, data, checks);
    var id := dir.Insert(NewUser(data));
    reply := Registered(id);
  }

  /** A newly registered user is inactive and holds the submitted fields. */
  lemma {:induction false} NewUserIsInactive(attrs: RegistrationData)
    ensures var u := NewUser(attrs);
            !u.isActive && u.email == attrs.email && u.username == attrs.username &&
            u.firstName == attrs.firstName && u.lastName == attrs.lastName && u.password == attrs.password
  {
  }

  const NoActiveAccountText := "No active account found with the given credentials"

  /** The refusal the inherited `TokenObtainSerializer.validate` raises when
      authentication finds no user: DRF's `AuthenticationFailed` with the
      `no_active_account` message as a plain detail. */
  function NoActiveAccount(): (e: Exc)
    ensures AuthenticationFailedKind in e.kinds && ValidationKind !in e.kinds && e.statusCode == HttpUnauthorized
  {
    Exc({AuthenticationFailedKind}, Message(NoActiveAccountText), HttpUnauthorized)
  }

  /** The authentication backend: the user holding the email, when the
      password is its password and the user may authenticate (is active).
      `email` and `password` are the login fields after whitespace stripping. */
  function Authenticate(users: map<UserId, SiteUser>, n: nat, email: string, password: string): (r: Option<UserId>)
    ensures r.Some? ==> r.value in users && users[r.value].email == email
  {
    var found := FindByEmail(users, email, n);
    if found.Some? && users[found.value].password == password && users[found.value].isActive then found else None
  }

  /** The answer to a token request: a token pair for a user, or a refusal. */
  datatype TokenReply = Tokens(user: UserId) | TokenRefused(exc: Exc)

  /** `CustomTokenObtainPairSerializer.validate`: the inherited check refuses
      when authentication finds no user, and the added check refuses an
      inactive user. */
  function IssueTokens(users: map<UserId, SiteUser>, n: nat, email: string, password: string): (r: TokenReply)
    ensures r.Tokens? ==> r.user in users
  {
    var found := Authenticate(users, n, email, password);
    if found.None? then TokenRefused(NoActiveAccount())
    else if !users[found.value].isActive then TokenRefused(NoActiveAccount())
    else Tokens(found.value)
  }

  /** Tokens are issued exactly to the active user holding the email and the
      password; every refusal is the same 401 under 'detail'. */
  lemma {:induction false} TokensOnlyForActiveUsers(users: map<UserId, SiteUser>, n: nat, email: string, password: string)
    requires UsersValid(users, n)
    ensures var r := IssueTokens(users, n, email, password);
            && (r.Tokens? <==> exists u :: u in users && users[u].email == email && users[u].password == password && users[u].isActive)
            && (r.Tokens? ==> users[r.user].email == email && users[r.user].isActive)
            && (r.TokenRefused? ==>
                  Handle(r.exc, DrfDefault(r.exc), "POST") == Response(HttpUnauthorized, DetailEntry(Message(NoActiveAccountText))))
  {
    var r := IssueTokens(users, n, email, password);
    if exists u :: u in users && users[u].email == email && users[u].password == password && users[u].isActive {
      var u :| u in users && users[u].email == email && users[u].password == password && users[u].isActive;
      EmailIdentifiesUser(users, n, u);
    }
  }

  /** The user half of `UserAddressSerializer.update`: the default flag
      supplied, or the row's own when none is. */
  function UpdatedLink(row: UserAddress, isDefault: Option<bool>): (r: UserAddress)
    ensures r.user == row.user && r.address == row.address
    ensures isDefault.None? ==> r.isDefault == row.isDefault
    ensures isDefault.Some? ==> r.isDefault == isDefault.value
  {
    row.(isDefault := if isDefault.Some? then isDefault.value else row.isDefault)
  }

  /** The address half: the nested address changes only when address data is
      supplied and non-empty, and then only in the columns it names. */
  function UpdatedAddresses(addresses: map<AddressId, AddressRow>, a: AddressId, fields: Option<AddressRow>): map<AddressId, AddressRow>
    requires a in addresses
  {
    if fields.Some? && fields.value != map[] then addresses[a := addresses[a] + fields.value] else addresses
  }

  lemma {:induction false} AddressChangesOnlyWithData(addresses: map<AddressId, AddressRow>, a: AddressId, fields: Option<AddressRow>)
    requires a in addresses
    ensures var r := UpdatedAddresses(addresses, a, fields);
            && r.Keys == addresses.Keys
            && (forall b :: b in addresses && b != a ==> r[b] == addresses[b])
            && (fields.None? || fields.value == map[] ==> r == addresses)
            && (fields.Some? ==> forall col :: col in fields.value ==> col in r[a] && r[a][col] == fields.value[col])
            && (forall col :: col in addresses[a] && (fields.None? || col !in fields.value) ==> col in r[a] && r[a][col] == addresses[a][col])
  {
    if fields.Some? && fields.value == map[] {
      assert addresses[a] + fields.value == addresses[a];
    }
  }

  /** `UserAddressSerializer.create`, with the user the view passes in: a new
      address row, then a link to it saved by the single-default rule. */
  method CreateUserAddress(book: AddressBook, user: UserId, fields: AddressRow, isDefault: bool) returns (id: LinkId)
    requires book.Valid()
    modifies book
    ensures book.Valid()
    ensures var a := old(book.nextAddressId);
            && book.addresses == old(book.addresses)[a := fields]
            && id == old(book.nextLinkId) && id !in old(book.links)
            && book.links == SaveRow(old(book.links), id, UserAddress(user, a, isDefault))
            && book.nextAddressId == a + 1 && book.nextLinkId == id + 1
  {
    var a := book.InsertAddress(fields);
    id := book.Save(None, UserAddress(user, a, isDefault));
  }

  /** `UserAddressSerializer.update` of link `id`. */
  method UpdateUserAddress(book: AddressBook, id: LinkId, fields: Option<AddressRow>, isDefault: Option<bool>)
    requires book.Valid() && id in book.links
    modifies book
    ensures book.Valid()
    ensures book.addresses == UpdatedAddresses(old(book.addresses), old(book.links)[id].address, fields)
    ensures book.links == SaveRow(old(book.links), id, UpdatedLink(old(book.links)[id], isDefault))
    ensures book.nextAddressId == old(book.nextAddressId) && book.nextLinkId == old(book.nextLinkId)
  {
    var row := book.links[id];
    if fields.Some? && fields.value != map[] {
      book.UpdateAddress(row.address, fields.value);
    }
    var saved := book.Save(Some(id), UpdatedLink(row, isDefault));
  }
}
