/**
 * `getSellerIdForReq`: the seller a request acts for, taken from the token
 * payload when it carries a truthy `sellerId`, otherwise from the stored row
 * of the token's user. `null` is `None`.
 */
module SellerId {
  import opened Js
  import opened Schema

  /** The seller id stored on the user row with id `id`, if that row exists and has one. */
  function StoredSellerId(users: map<nat, User>, id: int): (r: Option<int>)
    ensures r.Some? <==> 0 <= id && id in users && users[id].sellerId.Some?
    ensures r.Some? ==> r.value == users[id].sellerId.value
  {
    if 0 <= id && id in users && users[id].sellerId.Some? then Some(users[id].sellerId.value) else None
  }

  /** `getSellerIdForReq(req)` with `req.user` as `user` and the user table as `users`. */
  function GetSellerIdForReq(user: Option<TokenUser>, users: map<nat, User>): (r: Option<int>)
    // a truthy sellerId in the token is the answer, and nothing is looked up
    ensures user.Some? && TruthyInt(user.value.sellerId) ==> r == user.value.sellerId
    // without a truthy user id the answer is null
    ensures !(user.Some? && TruthyInt(user.value.sellerId)) && (user.None? || user.value.id == 0) ==> r == None
    // every answer is the token's truthy sellerId or the sellerId stored for the token's user
    ensures r.Some? ==>
              user.Some? && ((TruthyInt(user.value.sellerId) && r == user.value.sellerId) || r == StoredSellerId(users, user.value.id))
  {
    if user.Some? && TruthyInt(user.value.sellerId) then user.value.sellerId
    else if user.None? || user.value.id == 0 then None
    else StoredSellerId(users, user.value.id)
  }

  /** A token sellerId of 0 counts as absent: the answer is the same as with no sellerId at all. */
  lemma ZeroSellerIdIsAbsent(id: int, role: string, users: map<nat, User>)
    ensures GetSellerIdForReq(Some(TokenUser(id, role, Some(0))), users)
         == GetSellerIdForReq(Some(TokenUser(id, role, None)), users)
         == if id == 0 then None else StoredSellerId(users, id)
  {
  }

  /** A truthy sellerId in the token makes the answer independent of the user table. */
  lemma TokenSellerIdNeedsNoLookup(u: TokenUser, users1: map<nat, User>, users2: map<nat, User>)
    requires TruthyInt(u.sellerId)
    ensures GetSellerIdForReq(Some(u), users1) == GetSellerIdForReq(Some(u), users2) == u.sellerId
  {
  }

  /** In a consistent database, an answer found by lookup names an existing seller. */
  lemma LookedUpSellerExists(db: Database, u: TokenUser)
    requires db.Valid()
    requires !TruthyInt(u.sellerId)
    ensures var r := GetSellerIdForReq(Some(u), db.users);
            r.Some? ==> 0 <= r.value && r.value in db.sellers
  {
  }
}
