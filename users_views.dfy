/** The account and address endpoints of eCommerce/users/views.py: email
    confirmation, logout, and the caller's address list and its updates. */
module UserViews {
  import opened Base
  import opened UserModels
  import opened UserSerializers

  const ConfirmedText := "Email confirmed successfully. You can now log in."
  const InvalidLinkText := "Confirmation link is invalid or has expired."

  /** A plain answer: the status and the one entry of its body. */
  datatype Answer = Answer(status: int, key: string, text: string)

  /** The user table after confirmation, and the answer. */
  datatype Confirmation = Confirmation(users: map<UserId, SiteUser>, answer: Answer)

  /** `EmailConfirmationView.get`: `uid` is the decoded primary key (None when
      the link's uid does not decode) and `tokenOk` the token generator's
      verdict on the link's token for a user. A user that exists and whose
      token checks out is activated; any other link is invalid. */
  function Confirm(users: map<UserId, SiteUser>, uid: Option<UserId>, tokenOk: UserId -> bool): Confirmation {
    if uid.Some? && uid.value in users && tokenOk(uid.value) then
      Confirmation(users[uid.value := users[uid.value].(isActive := true)], Answer(HttpOk, "message", ConfirmedText))
    else Confirmation(users, Answer(HttpBadRequest, "error", InvalidLinkText))
  }

  /** Confirmation answers 200 exactly when the link names an existing user
      and its token checks out, and then that user, and no other, is active
      with every other field kept. Otherwise it answers 400 and no user
      changes. */
  lemma {:induction false} ConfirmActivatesOnlyLinkedUser(users: map<UserId, SiteUser>, uid: Option<UserId>, tokenOk: UserId -> bool)
    ensures var r := Confirm(users, uid, tokenOk);
            && (r.answer.status == HttpOk <==> uid.Some? && uid.value in users && tokenOk(uid.value))
            && (r.answer.status != HttpOk ==> r.answer.status == HttpBadRequest && r.users == users)
            && r.users.Keys == users.Keys
            && (forall u :: u in users && (uid.None? || u != uid.value) ==> r.users[u] == users[u])
            && (r.answer.status == HttpOk ==> r.users[uid.value] == users[uid.value].(isActive := true))
  {
  }

  /** Confirmation keeps the user table's constraints. */
  lemma {:induction false} ConfirmKeepsUsersValid(users: map<UserId, SiteUser>, n: nat, uid: Option<UserId>, tokenOk: UserId -> bool)
    requires UsersValid(users, n)
    ensures UsersValid(Confirm(users, uid, tokenOk).users, n)
  {
  }

  /** The view over the user table. */
  method ConfirmEmail(dir: UserDirectory, uid: Option<UserId>, tokenOk: UserId -> bool) returns (answer: Answer)
    requires dir.Valid()
    modifies dir
    ensures dir.Valid() && dir.nextUserId == old(dir.nextUserId)
    ensures Confirmation(dir.users, answer) == Confirm(old(dir.users), uid, tokenOk)
  {
    if uid.Some? && uid.value in dir.users && tokenOk(uid.value) {
      dir.Activate(uid.value);
      answer := Answer(HttpOk, "message", ConfirmedText);
    } else {
      answer := Answer(HttpBadRequest, "error", InvalidLinkText);
    }
  }

  /** The account flow end to end: a freshly registered user is refused
      tokens even with the right password, and once its confirmation link is
      followed the same credentials obtain them. */
  lemma {:induction false} ConfirmationEnablesLogin(users: map<UserId, SiteUser>, n: nat, data: RegistrationData, tokenOk: UserId -> bool)
    requires UsersValid(users, n)
    requires FindByEmail(users, data.email, n).None? && FindByUsername(users, data.username, n).None?
    requires tokenOk(n)
    ensures var registered := users[n := NewUser(data)];
            && IssueTokens(registered, n + 1, data.email, data.password).TokenRefused?
            && IssueTokens(Confirm(registered, Some(n), tokenOk).users, n + 1, data.email, data.password) == Tokens(n)
  {
    var registered := users[n := NewUser(data)];
    assert UsersValid(registered, n + 1);
    TokensOnlyForActiveUsers(registered, n + 1, data.email, data.password);
    var confirmed := Confirm(registered, Some(n), tokenOk).users;
    assert UsersValid(confirmed, n + 1);
    EmailIdentifiesUser(confirmed, n + 1, n);
  }

  /** `UserLogoutView.post`: 205 when the request carries a refresh token and
      the token is parsed and blacklisted (`blacklists`); any failure,
      including a missing token, is a 400. */
  function LogoutStatus(refresh: Option<string>, blacklists: string -> bool): (s: int)
    ensures s == HttpResetContent <==> refresh.Some? && blacklists(refresh.value)
    ensures s == HttpResetContent || s == HttpBadRequest
  {
    if refresh.Some? && blacklists(refresh.value) then HttpResetContent else HttpBadRequest
  }

  /** The ids below `n` of user `u`'s rows whose default flag is `isDefault`,
      in id order. */
  function LinksBelow(links: map<LinkId, UserAddress>, u: UserId, isDefault: bool, n: nat): (r: seq<LinkId>)
    ensures forall i :: 0 <= i < |r| ==> r[i] < n && r[i] in links && links[r[i]].user == u && links[r[i]].isDefault == isDefault
    ensures forall i, j :: 0 <= i < j < |r| ==> r[i] < r[j]
    ensures forall k :: k < n && k in links && links[k].user == u && links[k].isDefault == isDefault ==> k in r
  {
    if n == 0 then []
    else
      var prev := LinksBelow(links, u, isDefault, n - 1);
      if n - 1 in links && links[n - 1].user == u && links[n - 1].isDefault == isDefault then prev + [n - 1] else prev
  }

  /** `UserAddressViewSet.get_queryset`: the caller's rows ordered by
      `-is_default`. Rows with the same flag come in id order here; the query
      itself leaves their order to the database. */
  function AddressList(links: map<LinkId, UserAddress>, u: UserId, n: nat): seq<LinkId> {
    LinksBelow(links, u, true, n) + LinksBelow(links, u, false, n)
  }

  /** The list holds each of the caller's rows exactly once and no one
      else's, the default rows before the others, and with the
      single-default rule at most one default, which then comes first. */
  lemma {:induction false} AddressListIsCallersRows(links: map<LinkId, UserAddress>, u: UserId, n: nat)
    requires forall k :: k in links ==> k < n
    ensures var r := AddressList(links, u, n);
            && (forall i :: 0 <= i < |r| ==> r[i] in links)
            && (forall k :: k in r <==> k in links && links[k].user == u)
            && (forall i, j :: 0 <= i < j < |r| ==> r[i] != r[j])
            && (forall i, j :: 0 <= i < j < |r| && links[r[j]].isDefault ==> links[r[i]].isDefault)
            && (AtMostOneDefault(links) ==> forall i :: 1 <= i < |r| ==> !links[r[i]].isDefault)
  {
    var d, o := LinksBelow(links, u, true, n), LinksBelow(links, u, false, n);
    var r := AddressList(links, u, n);
    forall i, j | 0 <= i < j < |r| ensures r[i] != r[j] {
      if j < |d| || i >= |d| {
      } else {
        assert links[r[i]].isDefault && !links[r[j]].isDefault;
      }
    }
    if AtMostOneDefault(links) && |d| > 1 {
      assert d[0] != d[1];
    }
  }

  /** What an address endpoint answers: its status and, on success, the row. */
  datatype AddressReply = AddressSaved(status: int, id: LinkId) | AddressNotFound

  /** `UserAddressViewSet.create` for the caller `u`: the serializer's create
      with the caller as the row's user, answered with 201. */
  method CreateAddress(book: AddressBook, u: UserId, fields: AddressRow, isDefault: bool) returns (reply: AddressReply)
    requires book.Valid()
    modifies book
    ensures book.Valid()
    ensures reply.AddressSaved? && reply.status == HttpCreated
    ensures book.links == SaveRow(old(book.links), reply.id, UserAddress(u, old(book.nextAddressId), isDefault))
    ensures reply.id == old(book.nextLinkId) && book.addresses == old(book.addresses)[old(book.nextAddressId) := fields]
    ensures book.nextAddressId == old(book.nextAddressId) + 1 && book.nextLinkId == old(book.nextLinkId) + 1
  {
    var id := CreateUserAddress(book, u, fields, isDefault);
    reply := AddressSaved(HttpCreated, id);
  }

  /** `UserAddressViewSet.partial_update` for the caller `u`: the row is
      looked up in the caller's queryset, so another user's row is a 404
      exactly like a missing one, and nothing changes. */
  method UpdateAddress(book: AddressBook, u: UserId, id: LinkId, fields: Option<AddressRow>, isDefault: Option<bool>)
    returns (reply: AddressReply)
    requires book.Valid()
    modifies book
    ensures book.Valid()
    ensures book.nextAddressId == old(book.nextAddressId) && book.nextLinkId == old(book.nextLinkId)
    ensures !(id in old(book.links) && old(book.links)[id].user == u) ==>
              reply == AddressNotFound && book.links == old(book.links) && book.addresses == old(book.addresses)
    ensures id in old(book.links) && old(book.links)[id].user == u ==>
              && reply == AddressSaved(HttpOk, id)
              && book.addresses == UpdatedAddresses(old(book.addresses), old(book.links)[id].address, fields)
              && book.links == SaveRow(old(book.links), id, UpdatedLink(old(book.links)[id], isDefault))
  {
    if !(id in book.links && book.links[id].user == u) {
      reply := AddressNotFound;
      return;
    }
    UpdateUserAddress(book, id, fields, isDefault);
    reply := AddressSaved(HttpOk, id);
  }
}
