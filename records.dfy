/**
 * The three kinds of flat record the store keeps (users, reported items and
 * claims), the shape of their generated identifiers, the record constructors
 * ReportedItem and Claim, and the status sets the store's operations keep.
 */
module Records {
  import opened Options
  import opened Text

  /** The `role` field; the controller never looks at anything else of a role. */
  datatype Role = RegularUser | Admin

  datatype User = User(id: int, name: string, email: string, password: string, role: Role)

  datatype Item = Item(itemId: string, name: string, description: string, location: string,
                       itemType: string, status: string)

  datatype Claim = Claim(claimId: string, userId: int, itemId: string, status: string)

  /** The three collections, in their stored order. */
  datatype Db = Db(users: seq<User>, items: seq<Item>, claims: seq<Claim>)

  const StatusReported: string := "reported"
  const StatusClaimed: string := "claimed"
  const StatusPending: string := "pending"
  const StatusApproved: string := "approved"

  const ItemPrefix: string := "ITEM-"
  const ClaimPrefix: string := "CLM-"

  /** The administrator seeded into an empty user collection on first start. */
  const DefaultAdmin: User := User(1, "Admin", "admin@dlfs.com", "admin123", Admin)

  /** The range `random.randint(1000, 9999)` draws from (both ends included). */
  predicate IsIdNumber(n: int) {
    1000 <= n <= 9999
  }

  /** A readable identifier: a prefix followed by the decimal number. */
  function MakeId(prefix: string, n: nat): string {
    prefix + Digits(n)
  }

  /** The number an identifier with the given prefix carries, if it has that shape. */
  function IdNumber(prefix: string, id: string): Option<nat> {
    if prefix <= id then ParseNat(id[|prefix|..]) else None
  }

  /** An identifier built from a drawn number is the prefix plus four digits, and gives the number back. */
  lemma IdRoundTrip(prefix: string, n: nat)
    requires IsIdNumber(n)
    ensures |MakeId(prefix, n)| == |prefix| + 4
    ensures prefix <= MakeId(prefix, n)
    ensures IdNumber(prefix, MakeId(prefix, n)) == Some(n)
  {
    FourDigits(n);
    assert MakeId(prefix, n)[|prefix|..] == Digits(n);
    ParseDigits(n);
  }

  /** Two identifiers collide exactly when the same number was drawn. */
  lemma IdsCollideIffSameNumber(prefix: string, n: nat, m: nat)
    requires IsIdNumber(n) && IsIdNumber(m)
    ensures MakeId(prefix, n) == MakeId(prefix, m) <==> n == m
  {
    IdRoundTrip(prefix, n);
    IdRoundTrip(prefix, m);
  }

  /** `ReportedItem(name, description, location, item_type)` with the drawn number n. */
  function NewItem(name: string, description: string, location: string, itemType: string, n: nat): (it: Item)
    requires IsIdNumber(n)
    ensures IdNumber(ItemPrefix, it.itemId) == Some(n) && |it.itemId| == |ItemPrefix| + 4
    ensures it.name == name && it.description == description
    ensures it.location == location && it.itemType == itemType
    ensures it.status == StatusReported
  {
    IdRoundTrip(ItemPrefix, n);
    Item(MakeId(ItemPrefix, n), name, description, location, itemType, StatusReported)
  }

  /** `Claim(user_id, item_id)` with the drawn number n. */
  function NewClaim(userId: int, itemId: string, n: nat): (c: Claim)
    requires IsIdNumber(n)
    ensures IdNumber(ClaimPrefix, c.claimId) == Some(n) && |c.claimId| == |ClaimPrefix| + 4
    ensures c.userId == userId && c.itemId == itemId
    ensures c.status == StatusPending
  {
    IdRoundTrip(ClaimPrefix, n);
    Claim(MakeId(ClaimPrefix, n), userId, itemId, StatusPending)
  }

  predicate ItemStatusOk(it: Item) {
    it.status == StatusReported || it.status == StatusClaimed
  }

  predicate ClaimStatusOk(c: Claim) {
    c.status == StatusPending || c.status == StatusApproved
  }

  /** Every item is reported or claimed, every claim pending or approved. */
  predicate StatusesOk(db: Db) {
    && (forall i :: 0 <= i < |db.items| ==> ItemStatusOk(db.items[i]))
    && (forall i :: 0 <= i < |db.claims| ==> ClaimStatusOk(db.claims[i]))
  }

  /** Seeded collections: the default administrator, no items, no claims. */
  const InitialDb: Db := Db([DefaultAdmin], [], [])

}
