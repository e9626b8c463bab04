/** The client-side projection that decides whether the presale is over: the contract
    reports an end timestamp in seconds, and the page compares it with the wall clock. */
module Sale {

  /** `Math.floor(Date.now() / 1000)`: Dafny's `/` with a positive divisor rounds toward
      negative infinity, exactly as `Math.floor` of the quotient does. */
  function NowSeconds(nowMs: int): (sec: int)
    ensures sec * 1000 <= nowMs < sec * 1000 + 1000
  {
    nowMs / 1000
  }

  /** `endTimestamp.lt(Math.floor(now / 1000))`: strictly before the current whole second.
      In milliseconds, the presale has ended once a full second past the end timestamp has
      begun. */
  function HasEnded(endTimestamp: nat, nowMs: int): (ended: bool)
    ensures ended <==> (endTimestamp + 1) * 1000 <= nowMs
  {
    endTimestamp < NowSeconds(nowMs)
  }

  /** Once the projection says ended, it says so at every later time: between two reads of
      the same timestamp it can only flip from false to true. */
  lemma EndedStaysEnded(endTimestamp: nat, nowMs: int, laterMs: int)
    requires nowMs <= laterMs
    ensures HasEnded(endTimestamp, nowMs) ==> HasEnded(endTimestamp, laterMs)
  {
  }

  /** During the end second itself the projection still says "not ended". */
  lemma NotEndedAtEndSecond(endTimestamp: nat, nowMs: int)
    requires NowSeconds(nowMs) == endTimestamp
    ensures !HasEnded(endTimestamp, nowMs)
  {
  }
}
