/**
 * The controller: the in-memory authority for the three collections. Every
 * successful mutation ends by writing all three collections back, which is
 * modelled by the ghost snapshot `saved` of what was last written.
 */
module Dlfs {
  import opened Options
  import opened Text
  import opened Records
  import opened Search
  import opened Approval

  /** A user whose email and password both equal the given ones exactly. */
  predicate HasCredentials(u: User, email: string, password: string) {
    u.email == email && u.password == password
  }

  class Controller {
    var users: seq<User>
    var items: seq<Item>
    var claims: seq<Claim>
    /** What disk is taken to hold: the collections as loaded, then as the last `SaveAll` wrote them. */
    ghost var saved: Db

    function State(): Db
      reads this
    {
      Db(users, items, claims)
    }

    /** What is on disk is what is in memory. */
    ghost predicate Persisted()
      reads this
    {
      saved == State()
    }

    /** Loading the three collections that storage handed back; disk is assumed to hold exactly them. */
    constructor Load(users0: seq<User>, items0: seq<Item>, claims0: seq<Claim>)
      ensures State() == Db(users0, items0, claims0)
      ensures Persisted()
    {
      users, items, claims := users0, items0, claims0;
      saved := Db(users0, items0, claims0);
    }

    /** First start on an empty data directory: only the default administrator exists. */
    constructor Bootstrap()
      ensures State() == InitialDb
      ensures Persisted()
    {
      users, items, claims := [DefaultAdmin], [], [];
      saved := InitialDb;
    }

    /** Writes all three collections. */
    method SaveAll()
      modifies this`saved
      ensures Persisted()
    {
      saved := State();
    }

    /** The first user with exactly these credentials, or None. */
    method Login(email: string, password: string) returns (r: Option<User>)
      ensures r.Some? ==> exists i :: 0 <= i < |users| && users[i] == r.value
                                      && HasCredentials(users[i], email, password)
                                      && forall j :: 0 <= j < i ==> !HasCredentials(users[j], email, password)
      ensures r.None? <==> forall i :: 0 <= i < |users| ==> !HasCredentials(users[i], email, password)
    {
      var i := 0;
      while i < |users|
        invariant 0 <= i <= |users|
        invariant forall j :: 0 <= j < i ==> !HasCredentials(users[j], email, password)
      {
        if HasCredentials(users[i], email, password) {
          return Some(users[i]);
        }
        i := i + 1;
      }
      return None;
    }

    /**
     * Appends a new reported item drawn with number n and returns its id.
     * The reporting user's id is accepted but not stored.
     */
    method ReportItem(name: string, description: string, location: string, itemType: string,
                      userId: int, n: nat) returns (itemId: string)
      requires IsIdNumber(n)
      modifies this
      ensures items == old(items) + [NewItem(name, description, location, itemType, n)]
      ensures users == old(users) && claims == old(claims)
      ensures itemId == items[|old(items)|].itemId
      ensures IdNumber(ItemPrefix, itemId) == Some(n)
      ensures old(StatusesOk(State())) ==> StatusesOk(State())
      ensures Persisted()
    {
      var item := NewItem(name, description, location, itemType, n);
      items := items + [item];
      SaveAll();
      itemId := item.itemId;
    }

    /** The items whose lower-cased name contains the lower-cased keyword, in stored order. */
    function SearchItems(keyword: string): (r: seq<Item>)
      reads this
      ensures forall it :: it in r <==> it in items && Contains(Lower(it.name), Lower(keyword))
      ensures keyword == "" ==> r == items
    {
      SearchEmptyKeyword(items);
      Filter(items, ByName(keyword))
    }

    /**
     * Appends a new pending claim drawn with number n and returns its id.
     * Neither the user nor the item is looked up.
     */
    method ClaimItem(userId: int, itemId: string, n: nat) returns (claimId: string)
      requires IsIdNumber(n)
      modifies this
      ensures claims == old(claims) + [NewClaim(userId, itemId, n)]
      ensures users == old(users) && items == old(items)
      ensures claimId == claims[|old(claims)|].claimId
      ensures IdNumber(ClaimPrefix, claimId) == Some(n)
      ensures old(StatusesOk(State())) ==> StatusesOk(State())
      ensures Persisted()
    {
      var claim := NewClaim(userId, itemId, n);
      claims := claims + [claim];
      SaveAll();
      claimId := claim.claimId;
    }

    /**
     * Approves the first claim with the given id and marks its item claimed,
     * or reports that no claim has the id and changes nothing (not even
     * what is on disk).
     */
    method ApproveClaim(claimId: string) returns (ok: bool)
      modifies this
      ensures (State(), ok) == Approve(old(State()), claimId)
      ensures ok ==> Persisted()
      ensures !ok ==> saved == old(saved)
      ensures old(StatusesOk(State())) ==> StatusesOk(State())
    {
      if StatusesOk(State()) {
        ApproveKeepsStatuses(State(), claimId);
      }
      var i := 0;
      while i < |claims|
        invariant 0 <= i <= |claims|
        invariant forall j :: 0 <= j < i ==> claims[j].claimId != claimId
        invariant users == old(users) && items == old(items) && claims == old(claims)
        invariant saved == old(saved)
      {
        if claims[i].claimId == claimId {
          claims := claims[i := claims[i].(status := StatusApproved)];
          var target := claims[i].itemId;
          var j := 0;
          while j < |items|
            invariant 0 <= j <= |items| && |items| == |old(items)|
            invariant forall k :: 0 <= k < j ==> items[k] == Marked(old(items)[k], target)
            invariant forall k :: j <= k < |items| ==> items[k] == old(items)[k]
            invariant users == old(users) && claims == old(claims)[i := old(claims)[i].(status := StatusApproved)]
          {
            if items[j].itemId == target {
              items := items[j := items[j].(status := StatusClaimed)];
            }
            j := j + 1;
          }
          assert FirstClaimIndex(old(claims), claimId) == Some(i);
          assert items == MarkClaimed(old(items), target);
          SaveAll();
          return true;
        }
        i := i + 1;
      }
      return false;
    }
  }

  /** On a freshly seeded store the default administrator logs in. */
  method AdminLogsInAfterBootstrap() returns (u: Option<User>)
    ensures u == Some(DefaultAdmin)
  {
    var store := new Controller.Bootstrap();
    assert HasCredentials(store.users[0], "admin@dlfs.com", "admin123");
    u := store.Login("admin@dlfs.com", "admin123");
  }
}
