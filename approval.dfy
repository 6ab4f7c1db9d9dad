/**
 * What `approve_claim` does to the collections, as functions of the old
 * collections: the first claim with the id becomes approved, and every
 * item carrying that claim's item id becomes claimed.
 */
module Approval {
  import opened Options
  import opened Records

  /** The position of the first claim with the given id, if there is one. */
  function FirstClaimIndex(claims: seq<Claim>, claimId: string): (r: Option<nat>)
    ensures r.Some? ==> r.value < |claims| && claims[r.value].claimId == claimId
    ensures r.Some? ==> forall j :: 0 <= j < r.value ==> claims[j].claimId != claimId
    ensures r.None? ==> forall j :: 0 <= j < |claims| ==> claims[j].claimId != claimId
  {
    if claims == [] then None
    else if claims[0].claimId == claimId then Some(0)
    else match FirstClaimIndex(claims[1..], claimId)
      case None => None
      case Some(k) => Some(k + 1)
  }

  /** One item after the inner loop has looked at it. */
  function Marked(it: Item, itemId: string): Item {
    if it.itemId == itemId then it.(status := StatusClaimed) else it
  }

  /** Every item whose id is itemId set to claimed; nothing else changes. */
  function MarkClaimed(items: seq<Item>, itemId: string): (r: seq<Item>)
    ensures |r| == |items|
    ensures forall j :: 0 <= j < |items| && items[j].itemId == itemId ==>
      r[j].status == StatusClaimed && r[j] == items[j].(status := r[j].status)
    ensures forall j :: 0 <= j < |items| && items[j].itemId != itemId ==> r[j] == items[j]
  {
    seq(|items|, j requires 0 <= j < |items| => Marked(items[j], itemId))
  }

  /**
   * The collections after approving claimId, and whether a claim was found.
   * With no such claim nothing changes.
   */
  function Approve(db: Db, claimId: string): (r: (Db, bool))
    ensures r.1 <==> exists j :: 0 <= j < |db.claims| && db.claims[j].claimId == claimId
    ensures !r.1 ==> r.0 == db
    ensures r.0.users == db.users
    ensures |r.0.items| == |db.items| && |r.0.claims| == |db.claims|
  {
    match FirstClaimIndex(db.claims, claimId)
    case None => (db, false)
    case Some(k) =>
      var c := db.claims[k];
      (Db(db.users, MarkClaimed(db.items, c.itemId), db.claims[k := c.(status := StatusApproved)]), true)
  }

  /**
   * Approving the first claim k with the id changes claim k's status to
   * approved and no other claim, and sets claimed exactly on the items that
   * carry claim k's item id.
   */
  lemma ApproveFirstMatch(db: Db, claimId: string, k: nat)
    requires k < |db.claims| && db.claims[k].claimId == claimId
    requires forall j :: 0 <= j < k ==> db.claims[j].claimId != claimId
    ensures Approve(db, claimId).1
    ensures Approve(db, claimId).0.claims[k] == db.claims[k].(status := StatusApproved)
    ensures forall j :: 0 <= j < |db.claims| && j != k ==> Approve(db, claimId).0.claims[j] == db.claims[j]
    ensures forall j :: 0 <= j < |db.items| ==>
      var it := Approve(db, claimId).0.items[j];
      if db.items[j].itemId == db.claims[k].itemId
      then it == db.items[j].(status := StatusClaimed)
      else it == db.items[j]
  {
  }

  /** Approving the same claim twice leaves the collections as approving it once. */
  lemma ApproveIdempotent(db: Db, claimId: string)
    ensures Approve(Approve(db, claimId).0, claimId) == Approve(db, claimId)
  {
    match FirstClaimIndex(db.claims, claimId)
    case None =>
    case Some(k) =>
      var once := Approve(db, claimId).0;
      assert forall j :: 0 <= j < |db.claims| ==> once.claims[j].claimId == db.claims[j].claimId;
      assert FirstClaimIndex(once.claims, claimId) == Some(k);
      var t := db.claims[k].itemId;
      assert once.claims[k].itemId == t;
      assert MarkClaimed(once.items, t) == once.items;
      assert once.claims[k := once.claims[k].(status := StatusApproved)] == once.claims;
  }

  /** Approval keeps every item reported or claimed and every claim pending or approved. */
  lemma ApproveKeepsStatuses(db: Db, claimId: string)
    requires StatusesOk(db)
    ensures StatusesOk(Approve(db, claimId).0)
  {
  }
}
