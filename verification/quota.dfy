/** Per-user caps and byte counts. Rows appear on first use; a missing row means the default cap and no usage. */
module Quota {

  type UserId = int

  /** Whether a push of this many bytes fits; freeing space always does. */
  predicate Fits(used: int, cap: int, incoming: int) {
    incoming <= 0 || used + incoming <= cap
  }

  class QuotaTable {
    const defaultQuota: int
    var maxBytes: map<UserId, int>
    var usedBytes: map<UserId, int>

    constructor (defaultQuota: int)
      ensures this.defaultQuota == defaultQuota && maxBytes == map[] && usedBytes == map[]
      ensures forall u :: Cap(u) == defaultQuota && Used(u) == 0
    {
      this.defaultQuota, maxBytes, usedBytes := defaultQuota, map[], map[];
    }

    function Cap(user: UserId): int
      reads this
    {
      if user in maxBytes then maxBytes[user] else defaultQuota
    }

    function Used(user: UserId): int
      reads this
    {
      if user in usedBytes then usedBytes[user] else 0
    }

    method EnsureQuotaRows(user: UserId)
      modifies this
      ensures user in maxBytes && user in usedBytes
      ensures forall u :: Cap(u) == old(Cap(u)) && Used(u) == old(Used(u))
    {
      if user !in maxBytes {
        maxBytes := maxBytes[user := defaultQuota];
      }
      if user !in usedBytes {
        usedBytes := usedBytes[user := 0];
      }
    }

    method CheckPushAllowed(user: UserId, incoming: int) returns (allowed: bool)
      modifies this
      ensures allowed <==> incoming <= 0 || old(Used(user)) + incoming <= old(Cap(user))
      ensures forall u :: Cap(u) == old(Cap(u)) && Used(u) == old(Used(u))
    {
      if incoming <= 0 {
        return true;
      }
      EnsureQuotaRows(user);
      return usedBytes[user] + incoming <= maxBytes[user];
    }

    /** Adds to the user's count, never going below zero; nobody else is affected. */
    method AddUsage(user: UserId, delta: int)
      modifies this
      ensures Used(user) == if old(Used(user)) + delta < 0 then 0 else old(Used(user)) + delta
      ensures forall u :: u != user ==> Used(u) == old(Used(u))
      ensures forall u :: Cap(u) == old(Cap(u))
    {
      EnsureQuotaRows(user);
      var newValue := usedBytes[user] + delta;
      usedBytes := usedBytes[user := if newValue < 0 then 0 else newValue];
    }
  }
}
