/** Address book and e-mail verification codes (server/controllers/userController.js).

    Addresses: at most three per user; making one the default clears the caller's other
    defaults; reads and deletes are scoped to the caller, but an update is keyed by id alone.

    Verification codes: one record per e-mail, refused within 60 seconds of the previous one,
    valid for 15 minutes and deleted when used. Times are milliseconds, passed in as `now`;
    e-mail syntax (`z.email()`) and the mailer are parameters. */
module Accounts {
  import opened Common

  // ----- addresses -----

  const MaxAddresses: int := 3

  /** An address row; `details` holds the postal fields, which no rule here inspects. */
  datatype Address = Address(id: Id, userId: Id, isDefault: bool, details: map<string, string>)

  /** The address fields of a create request. */
  datatype AddressDraft = AddressDraft(isDefault: bool, details: map<string, string>)

  /** `updatedAddress`: the columns an update sets. */
  datatype AddressPatch = AddressPatch(isDefault: Option<bool>, details: map<string, string>)

  type AddressTable = map<Id, Address>

  predicate KeyedById(addresses: AddressTable)
  {
    forall id | id in addresses :: addresses[id].id == id
  }

  /** `where: { userId }`. */
  function AddressIdsOf(addresses: AddressTable, userId: Id): (r: set<Id>)
    ensures forall id | id in r :: id in addresses && addresses[id].userId == userId
    ensures forall id | id in addresses && addresses[id].userId == userId :: id in r
  {
    set id | id in addresses && addresses[id].userId == userId
  }

  /** `prisma.userAddress.count({ where: { userId } })`. */
  function AddressCount(addresses: AddressTable, userId: Id): nat
  {
    |AddressIdsOf(addresses, userId)|
  }

  /** No user has more addresses than the limit. */
  ghost predicate WithinLimit(addresses: AddressTable)
  {
    forall u :: AddressCount(addresses, u) <= MaxAddresses
  }

  /** The caller's default is exactly `id`. */
  predicate SoleDefault(addresses: AddressTable, userId: Id, id: Id)
  {
    forall k | k in addresses && addresses[k].userId == userId :: addresses[k].isDefault <==> k == id
  }

  function Patched(a: Address, patch: AddressPatch): Address
  {
    a.(isDefault := if patch.isDefault.Some? then patch.isDefault.value else a.isDefault,
       details := a.details + patch.details)
  }

  /** Adding an address of one user changes no other user's count and adds one to theirs. */
  lemma AddressCountAfterInsert(addresses: AddressTable, a: Address)
    requires a.id !in addresses
    ensures AddressCount(addresses[a.id := a], a.userId) == AddressCount(addresses, a.userId) + 1
    ensures forall u | u != a.userId :: AddressCount(addresses[a.id := a], u) == AddressCount(addresses, u)
  {
    assert AddressIdsOf(addresses[a.id := a], a.userId) == AddressIdsOf(addresses, a.userId) + {a.id};
    forall u | u != a.userId
      ensures AddressCount(addresses[a.id := a], u) == AddressCount(addresses, u)
    {
      assert AddressIdsOf(addresses[a.id := a], u) == AddressIdsOf(addresses, u);
    }
  }

  /** `AddressCreateThrew` is the error the create throws out of the handler. */
  datatype CreateAddressOutcome = AddressLimitReached | AddressCreateThrew | AddressCreated(userAddress: Address)

  datatype AddressLookup = AddressIdRequired | AddressNotFound | AddressFound(address: Address)

  datatype UpdateAddressOutcome = UpdateAddressIdRequired | UpdateThrew | AddressUpdated(address: Address)

  datatype DeleteAddressOutcome = DeleteAddressIdRequired | DeleteAddressNotFound | AddressDeleted

  class AddressBook {
    var addresses: AddressTable

    ghost predicate Valid()
      reads this
    {
      KeyedById(addresses)
    }

    constructor ()
      ensures Valid() && addresses == map[]
    {
      addresses := map[];
    }

    /** `createUserAddress`, as written. The create's data is `{ userId, ...req.parsedAddress }`,
        but the route's validator only checks `req.body` and sets nothing, so the spread adds no
        field and the request's `body` never reaches the table. What the database then does
        depends on its column defaults, which are not part of this model: `columnDefaults` is the
        row it fills in for a bare `userId`, or none when a required column has no default and
        the create throws. `newId` is the id the database assigns. */
    method CreateUserAddress(userId: Id, body: AddressDraft, columnDefaults: Option<AddressDraft>, newId: Id)
      returns (r: CreateAddressOutcome)
      requires Valid()
      requires newId !in addresses
      modifies this
      ensures Valid()
      ensures r == AddressLimitReached <==> AddressCount(old(addresses), userId) >= MaxAddresses
      ensures r == AddressCreateThrew <==> AddressCount(old(addresses), userId) < MaxAddresses && columnDefaults.None?
      ensures !r.AddressCreated? ==> addresses == old(addresses)
      // the stored row is the defaults, whatever the body holds
      ensures r.AddressCreated? ==>
                && r.userAddress == Address(newId, userId, columnDefaults.value.isDefault, columnDefaults.value.details)
                && addresses == old(addresses)[newId := r.userAddress]
      ensures forall u | u != userId :: AddressCount(addresses, u) == AddressCount(old(addresses), u)
      ensures WithinLimit(old(addresses)) ==> WithinLimit(addresses)
    {
      if AddressCount(addresses, userId) >= MaxAddresses {
        return AddressLimitReached;
      }
      if columnDefaults.None? {
        return AddressCreateThrew;
      }
      r := InsertAddress(userId, columnDefaults.value, newId);
    }

    /** What `createUserAddress` is meant to do: store the validated request body under the
        caller, within the limit of three. */
    method CreateUserAddressIntended(userId: Id, body: AddressDraft, newId: Id) returns (r: CreateAddressOutcome)
      requires Valid()
      requires newId !in addresses
      modifies this
      ensures Valid()
      ensures r == AddressLimitReached <==> AddressCount(old(addresses), userId) >= MaxAddresses
      ensures r.AddressCreated? <==> AddressCount(old(addresses), userId) < MaxAddresses
      ensures !r.AddressCreated? ==> addresses == old(addresses)
      ensures r.AddressCreated? ==>
                && r.userAddress == Address(newId, userId, body.isDefault, body.details)
                && addresses == old(addresses)[newId := r.userAddress]
                && AddressCount(addresses, userId) == AddressCount(old(addresses), userId) + 1
      ensures forall u | u != userId :: AddressCount(addresses, u) == AddressCount(old(addresses), u)
      ensures WithinLimit(old(addresses)) ==> WithinLimit(addresses)
    {
      if AddressCount(addresses, userId) >= MaxAddresses {
        return AddressLimitReached;
      }
      r := InsertAddress(userId, body, newId);
    }

    /** Lines 246-251 below the limit: insert the row; other defaults of the user are left as
        they were. */
    method InsertAddress(userId: Id, fields: AddressDraft, newId: Id) returns (r: CreateAddressOutcome)
      requires Valid()
      requires newId !in addresses
      requires AddressCount(addresses, userId) < MaxAddresses
      modifies this
      ensures Valid()
      ensures r == AddressCreated(Address(newId, userId, fields.isDefault, fields.details))
      ensures addresses == old(addresses)[newId := r.userAddress]
      ensures AddressCount(addresses, userId) == AddressCount(old(addresses), userId) + 1
      ensures forall u | u != userId :: AddressCount(addresses, u) == AddressCount(old(addresses), u)
      ensures WithinLimit(old(addresses)) ==> WithinLimit(addresses)
    {
      var userAddress := Address(newId, userId, fields.isDefault, fields.details);
      AddressCountAfterInsert(addresses, userAddress);
      addresses := addresses[newId := userAddress];
      return AddressCreated(userAddress);
    }

    /** `getUserAllAddresses`. */
    function GetUserAllAddresses(userId: Id): (r: AddressTable)
      reads this
      ensures r.Keys == AddressIdsOf(addresses, userId)
      ensures forall k | k in r :: r[k] == addresses[k] && r[k].userId == userId
    {
      map k | k in addresses && addresses[k].userId == userId :: addresses[k]
    }

    /** `getUserAddressById`: found only when both the id and the owner match. */
    function GetUserAddressById(userId: Id, id: Id): (r: AddressLookup)
      reads this
      ensures id == "" <==> r == AddressIdRequired
      ensures r.AddressFound? <==> id != "" && id in addresses && addresses[id].userId == userId
      ensures r.AddressFound? ==> r.address == addresses[id]
    {
      if id == "" then AddressIdRequired
      else if id in addresses && addresses[id].userId == userId then AddressFound(addresses[id])
      else AddressNotFound
    }

    /** `updateUserAddress`. The patch is the body's `updatedAddress`; without one the update
        fails. The row is found by id alone; when the patch makes it a default, every other
        address of the caller stops being one. */
    method UpdateUserAddress(userId: Id, id: Id, body: UpdateBody) returns (r: UpdateAddressOutcome)
      requires Valid()
      modifies this
      ensures Valid()
      ensures id == "" ==> r == UpdateAddressIdRequired && addresses == old(addresses)
      ensures id != "" && (id !in old(addresses) || PatchOf(body).None?) ==>
                r == UpdateThrew && addresses == old(addresses)
      ensures id != "" && id in old(addresses) && PatchOf(body).Some? ==>
                var patch := PatchOf(body).value;
                && r == AddressUpdated(Patched(old(addresses)[id], patch))
                && addresses.Keys == old(addresses).Keys
                && addresses[id] == r.address
                && forall k | k in addresses && k != id ::
                     addresses[k] == if patch.isDefault == Some(true) && old(addresses)[k].userId == userId
                                     then old(addresses)[k].(isDefault := false) else old(addresses)[k]
      ensures id != "" && id in old(addresses) && old(addresses)[id].userId == userId
              && PatchOf(body).Some? && PatchOf(body).value.isDefault == Some(true) ==>
                SoleDefault(addresses, userId, id)
    {
      if id == "" {
        return UpdateAddressIdRequired;
      }
      var patch := PatchOf(body);
      if patch.None? {
        // `data: undefined`: Prisma refuses the update for its missing argument
        return UpdateThrew;
      }
      if id !in addresses {
        // update with a where clause matching no row: P2025
        return UpdateThrew;
      }
      var updatedAddress := Patched(addresses[id], patch.value);
      addresses := addresses[id := updatedAddress];
      if patch.value.isDefault == Some(true) {
        addresses := map k | k in addresses ::
                       if addresses[k].userId == userId && k != id then addresses[k].(isDefault := false) else addresses[k];
      }
      return AddressUpdated(updatedAddress);
    }

    /** `deleteUserAddress`: only an address of the caller's is deleted. */
    method DeleteUserAddress(userId: Id, id: Id) returns (r: DeleteAddressOutcome)
      requires Valid()
      modifies this
      ensures Valid()
      ensures r == DeleteAddressIdRequired <==> id == ""
      ensures r == AddressDeleted <==> id != "" && id in old(addresses) && old(addresses)[id].userId == userId
      ensures r == AddressDeleted ==> addresses == old(addresses) - {id}
      ensures r != AddressDeleted ==> addresses == old(addresses)
      ensures forall u | u != userId :: GetUserAllAddresses(u) == old(GetUserAllAddresses(u))
    {
      if id == "" {
        return DeleteAddressIdRequired;
      }
      if !(id in addresses && addresses[id].userId == userId) {
        return DeleteAddressNotFound;
      }
      addresses := addresses - {id};
      return AddressDeleted;
    }
  }

  /** Because the update is keyed by id alone, a caller can turn another user's address
      into a default, leaving that user with two. */
  lemma ForeignUpdateCanLeaveTwoDefaults()
    ensures var before := map["a" := Address("a", "owner", true, map[]), "b" := Address("b", "owner", false, map[])];
            var after := before["b" := Patched(before["b"], AddressPatch(Some(true), map[]))];
            && before["b"].userId != "caller"
            && after["a"].isDefault && after["b"].isDefault
  {
  }

  // ----- the update request body -----

  /** A request body: its top-level fields, each carrying an address patch. */
  type UpdateBody = map<string, AddressPatch>

  /** `req.body.updatedAddress` (lines 304 and 308): the patch the handler applies, or none
      when the body has no such field. */
  function PatchOf(body: UpdateBody): (r: Option<AddressPatch>)
    ensures r.Some? <==> "updatedAddress" in body
    ensures r.Some? ==> r.value == body["updatedAddress"]
  {
    if "updatedAddress" in body then Some(body["updatedAddress"]) else None
  }

  /** The body the client's `updateUserAddress` sends, as written
      (client/src/services/user.js:23-26): `{ address }`. */
  function ClientUpdateBody(address: AddressPatch): UpdateBody
  {
    map["address" := address]
  }

  /** As written, the handler finds no patch in anything the client sends: the update gets
      `data: undefined` and fails, so no address edit from the client is ever applied. */
  lemma ClientUpdateCarriesNoPatch(address: AddressPatch)
    ensures PatchOf(ClientUpdateBody(address)).None?
  {
  }

  /** The body the client evidently means to send: `{ updatedAddress: address }`. */
  function ClientUpdateBodyIntended(address: AddressPatch): (body: UpdateBody)
    ensures PatchOf(body) == Some(address)
  {
    map["updatedAddress" := address]
  }

  // ----- e-mail verification codes -----

  /** `60 * 1000`: the least time between two codes for one address. */
  const ResendInterval: int := 60 * 1000
  /** `15 * 60 * 1000`: how long a code stays valid. */
  const CodeLifetime: int := 15 * 60 * 1000
  /** `z.string().length(6)`. */
  const CodeLength: int := 6

  datatype Verification = Verification(verificationCode: string, createdAt: int, expiresAt: int)

  /** What the mailer reports. */
  datatype MailResult = MailResult(success: bool, code: string)

  datatype SendOutcome = InvalidEmail | UserExists | TooSoon | SendFailed | CodeSent

  datatype VerifyCodeOutcome = CodeMalformed | InvalidOrExpired | EmailVerified

  /** The previous code is too recent to send another (`createdAt > now - 60 s`). */
  predicate TooRecent(v: Verification, now: int)
  {
    v.createdAt > now - ResendInterval
  }

  /** The stored code accepts `code` at `now` (the rejection is `expiresAt < now`). */
  predicate Accepts(v: Verification, code: string, now: int)
  {
    v.verificationCode == code && !(v.expiresAt < now)
  }

  class VerificationTable {
    /** E-mails of registered users. */
    var users: set<string>
    /** `userVerification`, unique by e-mail. */
    var codes: map<string, Verification>

    constructor (users: set<string>)
      ensures this.users == users && codes == map[]
    {
      this.users := users;
      codes := map[];
    }

    /** `sendVerificationCode`. The previous record is deleted before the mail goes out, so a
        failed send leaves the address with no code at all. */
    method SendVerificationCode(email: string, emailValid: bool, mail: MailResult, now: int)
      returns (r: SendOutcome)
      modifies this
      ensures users == old(users)
      ensures r == InvalidEmail <==> email == "" || !emailValid
      ensures r == UserExists <==> email != "" && emailValid && email in old(users)
      ensures r == TooSoon <==>
                && email != "" && emailValid && email !in old(users)
                && email in old(codes) && TooRecent(old(codes)[email], now)
      ensures r in {InvalidEmail, UserExists, TooSoon} ==> codes == old(codes)
      ensures r == SendFailed <==>
                && email != "" && emailValid && email !in old(users) && !mail.success
                && (email in old(codes) ==> !TooRecent(old(codes)[email], now))
      ensures r == SendFailed ==> codes == old(codes) - {email}
      ensures r == CodeSent <==>
                && email != "" && emailValid && email !in old(users) && mail.success
                && (email in old(codes) ==> !TooRecent(old(codes)[email], now))
      ensures r == CodeSent ==>
                codes == old(codes)[email := Verification(mail.code, now, now + CodeLifetime)]
    {
      if email == "" || !emailValid {
        return InvalidEmail;
      }
      if email in users {
        return UserExists;
      }
      if email in codes && TooRecent(codes[email], now) {
        return TooSoon;
      }
      if email in codes {
        codes := codes - {email};
      }
      if !mail.success {
        return SendFailed;
      }
      codes := codes[email := Verification(mail.code, now, now + CodeLifetime)];
      return CodeSent;
    }

    /** `verifyEmailCode`. A code that verifies is deleted, so it verifies once. */
    method VerifyEmailCode(email: string, code: string, emailValid: bool, now: int)
      returns (r: VerifyCodeOutcome)
      modifies this
      ensures users == old(users)
      ensures r == CodeMalformed <==> !emailValid || |code| != CodeLength
      ensures r == EmailVerified <==>
                emailValid && |code| == CodeLength && email in old(codes) && Accepts(old(codes)[email], code, now)
      ensures r == EmailVerified ==> codes == old(codes) - {email} && email !in codes
      ensures r != EmailVerified ==> codes == old(codes)
    {
      if !emailValid || |code| != CodeLength {
        return CodeMalformed;
      }
      if email !in codes || codes[email].verificationCode != code || codes[email].expiresAt < now {
        return InvalidOrExpired;
      }
      codes := codes - {email};
      return EmailVerified;
    }
  }
}
