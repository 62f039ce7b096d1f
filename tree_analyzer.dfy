/** Statistics that every search bot keeps: nodes visited and the time one move took. */
module Instrumentation {
  /** The clock is a parameter: `now` is the value `System.currentTimeMillis()` returned. */
  class TreeAnalyzer {
    var nodesCount: int
    var moveStartTime: int
    var moveEndTime: int

    constructor ()
      ensures nodesCount == 0 && moveStartTime == 0 && moveEndTime == 0
      ensures GetMoveTime() == 0
    {
      nodesCount := 0;
      moveStartTime := 0;
      moveEndTime := 0;
    }

    method StartMoveStopWatch(now: int)
      modifies this`moveStartTime
      ensures moveStartTime == now
    {
      moveStartTime := now;
    }

    method EndMoveStopWatch(now: int)
      modifies this`moveEndTime
      ensures moveEndTime == now
    {
      moveEndTime := now;
    }

    /** The time between the two stop-watch readings. */
    function GetMoveTime(): (r: int)
      reads this
      ensures moveStartTime + r == moveEndTime
      ensures r >= 0 <==> moveStartTime <= moveEndTime
    {
      moveEndTime - moveStartTime
    }

    method IncrementNodesCount()
      modifies this`nodesCount
      ensures nodesCount == old(nodesCount) + 1
    {
      nodesCount := nodesCount + 1;
    }
  }
}
