/** The account and address tables of eCommerce/users/models.py: site users
    identified by a unique email, stored addresses, and the rows that link a
    user to an address with its default flag. */
module UserModels {
  import opened Base

  type UserId = nat
  type AddressId = nat
  type LinkId = nat
  type CountryId = nat

  /** A `SiteUser` row as far as the account flow reads it. `password` stands
      for the stored credential `set_password` derives from the raw password;
      hashing is not part of this model. */
  datatype SiteUser = SiteUser(
    email: string,
    username: string,
    firstName: string,
    lastName: string,
    password: string,
    isActive: bool)

  /** A column value of an `Address` row. */
  datatype Value = Text(s: string) | Null | CountryRef(country: CountryId)

  /** An `Address` row: its column values by column name. */
  type AddressRow = map<string, Value>

  /** A `UserAddress` row: the junction of a user and an address. */
  datatype UserAddress = UserAddress(user: UserId, address: AddressId, isDefault: bool)

  /** The lowest user id below `n` whose email is `email`. */
  function FindByEmail(users: map<UserId, SiteUser>, email: string, n: nat): (r: Option<UserId>)
    ensures r.Some? ==> r.value < n && r.value in users && users[r.value].email == email
    ensures r.None? ==> forall u :: u < n && u in users ==> users[u].email != email
  {
    if n == 0 then None
    else
      var r := FindByEmail(users, email, n - 1);
      if r.Some? then r else if n - 1 in users && users[n - 1].email == email then Some(n - 1) else None
  }

  /** The lowest user id below `n` whose username is `name`. */
  function FindByUsername(users: map<UserId, SiteUser>, name: string, n: nat): (r: Option<UserId>)
    ensures r.Some? ==> r.value < n && r.value in users && users[r.value].username == name
    ensures r.None? ==> forall u :: u < n && u in users ==> users[u].username != name
  {
    if n == 0 then None
    else
      var r := FindByUsername(users, name, n - 1);
      if r.Some? then r else if n - 1 in users && users[n - 1].username == name then Some(n - 1) else None
  }

  /** The user table's constraints: ids below the counter, and email and
      username each unique. */
  ghost predicate UsersValid(users: map<UserId, SiteUser>, nextUserId: nat) {
    && (forall u :: u in users ==> u < nextUserId)
    && (forall u, w :: u in users && w in users && u != w ==> users[u].email != users[w].email)
    && (forall u, w :: u in users && w in users && u != w ==> users[u].username != users[w].username)
  }

  /** With unique emails, the lookup by email finds the one user holding it. */
  lemma {:induction false} EmailIdentifiesUser(users: map<UserId, SiteUser>, n: nat, u: UserId)
    requires UsersValid(users, n) && u in users
    ensures FindByEmail(users, users[u].email, n) == Some(u)
  {
  }

  /** The user table: `SiteUser` rows under their primary keys. */
  class UserDirectory {
    var users: map<UserId, SiteUser>
    var nextUserId: nat

    ghost predicate Valid()
      reads this
    {
      UsersValid(users, nextUserId)
    }

    constructor ()
      ensures Valid() && users == map[] && nextUserId == 0
    {
      users, nextUserId := map[], 0;
    }

    /** An INSERT of a new row under the next id; the unique columns must be
        free, as the database demands. */
    method Insert(u: SiteUser) returns (id: UserId)
      requires Valid()
      requires FindByEmail(users, u.email, nextUserId).None?
      requires FindByUsername(users, u.username, nextUserId).None?
      modifies this
      ensures Valid()
      ensures id == old(nextUserId) && id !in old(users)
      ensures users == old(users)[id := u] && nextUserId == old(nextUserId) + 1
    {
      id := nextUserId;
      users := users[id := u];
      nextUserId := nextUserId + 1;
    }

    /** `user.is_active = True; user.save()`. */
    method Activate(id: UserId)
      requires Valid() && id in users
      modifies this
      ensures Valid()
      ensures users == old(users)[id := old(users)[id].(isActive := true)] && nextUserId == old(nextUserId)
    {
      users := users[id := users[id].(isActive := true)];
    }
  }

  /** The rows of user `u` that are marked default. */
  ghost function DefaultsOf(links: map<LinkId, UserAddress>, u: UserId): set<LinkId> {
    set k | k in links && links[k].user == u && links[k].isDefault
  }

  /** The state the single-default rule keeps: each user has at most one
      default address. */
  ghost predicate AtMostOneDefault(links: map<LinkId, UserAddress>) {
    forall k, j :: k in links && j in links && links[k].user == links[j].user && links[k].isDefault && links[j].isDefault ==> k == j
  }

  /** `UserAddress.objects.filter(user=u, is_default=True).update(is_default=False)`. */
  function ClearDefaults(links: map<LinkId, UserAddress>, u: UserId): map<LinkId, UserAddress> {
    map k | k in links :: if links[k].user == u && links[k].isDefault then links[k].(isDefault := false) else links[k]
  }

  /** `UserAddress.save` for the row `row` under id `id`: a default row first
      clears every default of its user, then the row is written. */
  function SaveRow(links: map<LinkId, UserAddress>, id: LinkId, row: UserAddress): map<LinkId, UserAddress> {
    (if row.isDefault then ClearDefaults(links, row.user) else links)[id := row]
  }

  /** After saving a default row it is its user's one default. */
  lemma {:induction false} SaveLeavesOneDefault(links: map<LinkId, UserAddress>, id: LinkId, row: UserAddress)
    requires row.isDefault
    ensures DefaultsOf(SaveRow(links, id, row), row.user) == {id}
  {
    var r := SaveRow(links, id, row);
    forall k | k in DefaultsOf(r, row.user) ensures k == id {
    }
  }

  /** Saving a row changes no other row but by clearing a default flag, and
      clears flags of the row's own user only, and only when the row is
      default; a non-default save leaves every other row as it was. */
  lemma {:induction false} SaveTouchesOnlyFlagsOfOwner(links: map<LinkId, UserAddress>, id: LinkId, row: UserAddress)
    ensures var r := SaveRow(links, id, row);
            && r.Keys == links.Keys + {id} && r[id] == row
            && (forall k :: k in links && k != id ==> r[k] == links[k].(isDefault := r[k].isDefault))
            && (forall k :: k in links && k != id && r[k] != links[k] ==>
                  row.isDefault && links[k].user == row.user && links[k].isDefault && !r[k].isDefault)
  {
  }

  /** Every save keeps the single-default rule. */
  lemma {:induction false} SaveKeepsOneDefault(links: map<LinkId, UserAddress>, id: LinkId, row: UserAddress)
    requires AtMostOneDefault(links)
    ensures AtMostOneDefault(SaveRow(links, id, row))
  {
    var r := SaveRow(links, id, row);
    if row.isDefault {
      SaveLeavesOneDefault(links, id, row);
      forall k, j | k in r && j in r && r[k].user == r[j].user && r[k].isDefault && r[j].isDefault
        ensures k == j
      {
        if r[k].user == row.user {
          assert k in DefaultsOf(r, row.user) && j in DefaultsOf(r, row.user);
        } else {
          assert k != id && j != id;
        }
      }
    }
  }

  /** The address tables: `Address` rows and the `UserAddress` rows that
      link them to users. */
  class AddressBook {
    var addresses: map<AddressId, AddressRow>
    var links: map<LinkId, UserAddress>
    var nextAddressId: nat
    var nextLinkId: nat

    /** Ids below their counters, every link to an existing address, and
        each user with at most one default. */
    ghost predicate Valid()
      reads this
    {
      && (forall a :: a in addresses ==> a < nextAddressId)
      && (forall k :: k in links ==> k < nextLinkId && links[k].address in addresses)
      && AtMostOneDefault(links)
    }

    constructor ()
      ensures Valid()
      ensures addresses == map[] && links == map[] && nextAddressId == 0 && nextLinkId == 0
    {
      addresses, links := map[], map[];
      nextAddressId, nextLinkId := 0, 0;
    }

    /** `Address.objects.create(**fields)`. */
    method InsertAddress(fields: AddressRow) returns (a: AddressId)
      requires Valid()
      modifies this
      ensures Valid()
      ensures a == old(nextAddressId) && addresses == old(addresses)[a := fields] && nextAddressId == a + 1
      ensures links == old(links) && nextLinkId == old(nextLinkId)
    {
      a := nextAddressId;
      addresses := addresses[a := fields];
      nextAddressId := nextAddressId + 1;
    }

    /** `Address.objects.filter(id=a).update(**fields)`: the named columns take
        the new values. */
    method UpdateAddress(a: AddressId, fields: AddressRow)
      requires Valid() && a in addresses
      modifies this
      ensures Valid()
      ensures addresses == old(addresses)[a := old(addresses)[a] + fields]
      ensures links == old(links) && nextAddressId == old(nextAddressId) && nextLinkId == old(nextLinkId)
    {
      addresses := addresses[a := addresses[a] + fields];
    }

    /** `UserAddress.save`: an existing row when `pk` names one, otherwise an
        INSERT under the next id. A default row first clears its user's
        defaults. */
    method Save(pk: Option<LinkId>, row: UserAddress) returns (id: LinkId)
      requires Valid() && row.address in addresses
      requires pk.Some? ==> pk.value in links
      modifies this
      ensures Valid()
      ensures pk.Some? ==> id == pk.value && nextLinkId == old(nextLinkId)
      ensures pk.None? ==> id == old(nextLinkId) && id !in old(links) && nextLinkId == old(nextLinkId) + 1
      ensures links == SaveRow(old(links), id, row)
      ensures addresses == old(addresses) && nextAddressId == old(nextAddressId)
    {
      id := if pk.Some? then pk.value else nextLinkId;
      SaveKeepsOneDefault(links, id, row);
      if row.isDefault {
        links := ClearDefaults(links, row.user);
      }
      links := links[id := row];
      if pk.None? {
        nextLinkId := nextLinkId + 1;
      }
    }
  }
}
