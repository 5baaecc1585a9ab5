/** Redis sorted sets as maps from members to scores. */
module SortedSets {

  /** What ZREMRANGEBYSCORE key 0 top leaves. */
  function Pruned<T(==)>(scores: map<T, int>, top: int): map<T, int> {
    map m | m in scores && !(0 <= scores[m] <= top) :: scores[m]
  }
}
