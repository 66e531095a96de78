/** Quota limits and the in-memory usage tracker (crates/slatefs-core/src/quota.rs). */
module Quota {
  import opened Common

  datatype QuotaLimit = QuotaLimit(soft: Option<nat>, hard: Option<nat>, graceUntil: Option<nat>)

  datatype QuotaLimits = QuotaLimits(bytes: QuotaLimit, inodes: QuotaLimit)

  /** Over the hard limit, or over the soft limit once its grace period has ended. */
  predicate ExceedsLimit(usage: int, limit: QuotaLimit, now: nat) {
    || (limit.hard.Some? && usage > limit.hard.value)
    || (limit.soft.Some? && limit.graceUntil.Some? && usage > limit.soft.value && now >= limit.graceUntil.value)
  }

  predicate OverHard(usage: int, limit: QuotaLimit) { limit.hard.Some? && usage > limit.hard.value }

  /** There is no soft limit, or its grace period has not ended. */
  predicate InGrace(limit: QuotaLimit, now: nat) {
    limit.soft.Some? && limit.graceUntil.Some? ==> now < limit.graceUntil.value
  }

  class QuotaTracker {
    var bytes: int
    var inodes: int
    var rejections: nat
    var limits: QuotaLimits

    constructor (bytes: int, inodes: int, limits: QuotaLimits)
      ensures this.bytes == bytes && this.inodes == inodes && this.limits == limits && rejections == 0
    {
      this.bytes, this.inodes, this.limits, rejections := bytes, inodes, limits, 0;
    }

    /** Reserve usage: both counters move or neither does, frees always succeed, and a refusal means that a counter
        that was to grow would have ended over its limit. Until a grace period ends only the hard limit refuses; after
        it no growth ends over the soft limit. */
    method Reserve(bytesDelta: int, inodeDelta: int, now: nat) returns (ok: bool)
      modifies this
      ensures ok <==>
        && !(bytesDelta > 0 && ExceedsLimit(old(bytes) + bytesDelta, limits.bytes, now))
        && !(inodeDelta > 0 && ExceedsLimit(old(inodes) + inodeDelta, limits.inodes, now))
      ensures InGrace(limits.bytes, now) && InGrace(limits.inodes, now) ==>
        (ok <==>
          && !(bytesDelta > 0 && OverHard(old(bytes) + bytesDelta, limits.bytes))
          && !(inodeDelta > 0 && OverHard(old(inodes) + inodeDelta, limits.inodes)))
      ensures ok && bytesDelta > 0 && !InGrace(limits.bytes, now) ==> bytes <= limits.bytes.soft.value
      ensures ok && inodeDelta > 0 && !InGrace(limits.inodes, now) ==> inodes <= limits.inodes.soft.value
      ensures ok ==> bytes == old(bytes) + bytesDelta && inodes == old(inodes) + inodeDelta
      ensures !ok ==> bytes == old(bytes) && inodes == old(inodes)
      ensures limits == old(limits) && rejections == old(rejections) + (if ok then 0 else 1)
    {
      bytes := bytes + bytesDelta;
      if bytesDelta > 0 && ExceedsLimit(bytes, limits.bytes, now) {
        bytes := bytes - bytesDelta;
        rejections := rejections + 1;
        return false;
      }
      inodes := inodes + inodeDelta;
      if inodeDelta > 0 && ExceedsLimit(inodes, limits.inodes, now) {
        inodes := inodes - inodeDelta;
        bytes := bytes - bytesDelta;
        rejections := rejections + 1;
        return false;
      }
      return true;
    }

    /** Roll back a reservation whose batch failed to commit. */
    method Release(bytesDelta: int, inodeDelta: int)
      modifies this
      ensures bytes == old(bytes) - bytesDelta && inodes == old(inodes) - inodeDelta
      ensures limits == old(limits) && rejections == old(rejections)
    {
      bytes := bytes - bytesDelta;
      inodes := inodes - inodeDelta;
    }

    /** The life of a reservation: it stays if the batch it was made for is written. */
    method Charge(bytesDelta: int, inodeDelta: int, commits: bool, now: nat) returns (admitted: bool)
      modifies this
      ensures admitted <==>
        && !(bytesDelta > 0 && ExceedsLimit(old(bytes) + bytesDelta, old(limits).bytes, now))
        && !(inodeDelta > 0 && ExceedsLimit(old(inodes) + inodeDelta, old(limits).inodes, now))
      ensures bytes == old(bytes) + (if admitted && commits then bytesDelta else 0)
      ensures inodes == old(inodes) + (if admitted && commits then inodeDelta else 0)
      ensures limits == old(limits)
    {
      admitted := Reserve(bytesDelta, inodeDelta, now);
      if admitted && !commits {
        Release(bytesDelta, inodeDelta);
      }
    }

    /** The tracker of the next mount starts from the persistent counters. */
    method Load(bytes: int, inodes: int)
      modifies this
      ensures this.bytes == bytes && this.inodes == inodes && limits == old(limits) && rejections == 0
    {
      this.bytes, this.inodes, rejections := bytes, inodes, 0;
    }
  }
}
