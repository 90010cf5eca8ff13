/**
 * Lap timing: the current lap number and time, the best and last lap times, and the history
 * of completed laps. The wall clock is passed in as `now` (seconds).
 */
module LapTiming {
  import opened Geometry

  /** A best time that may still be infinite (no lap recorded yet). */
  datatype Extended = Infinite | Finite(value: real)

  /** `t` is strictly better than `best`. */
  predicate Below(t: real, best: Extended)
  {
    best.Infinite? || t < best.value
  }

  /** `a` is no worse than `b`. */
  predicate AtMost(a: Extended, b: Extended)
  {
    b.Infinite? || (a.Finite? && a.value <= b.value)
  }

  datatype LapInfo = LapInfo(lapNumber: int, time: real, isBest: bool)

  /** The best time after recording a lap of `lap`, and whether that lap set it. */
  function RecordLap(best: Extended, lap: real): (r: (Extended, bool))
    ensures r.1 <==> Below(lap, best)
    ensures AtMost(r.0, best) && r.0.Finite? && r.0.value <= lap
    ensures r.1 ==> r.0 == Finite(lap)
    ensures !r.1 ==> r.0 == best
  {
    if Below(lap, best) then (Finite(lap), true) else (best, false)
  }

  /** The best time after a sequence of laps is at most each of them. */
  function BestOf(best: Extended, laps: seq<real>): Extended
  {
    if laps == [] then best else RecordLap(BestOf(best, laps[..|laps| - 1]), laps[|laps| - 1]).0
  }

  lemma {:induction false} BestOfBoundsEveryLap(best: Extended, laps: seq<real>)
    ensures AtMost(BestOf(best, laps), best)
    ensures forall i :: 0 <= i < |laps| ==> BestOf(best, laps).Finite? && BestOf(best, laps).value <= laps[i]
  {
    if laps != [] {
      var init := laps[..|laps| - 1];
      BestOfBoundsEveryLap(best, init);
      assert forall i :: 0 <= i < |init| ==> laps[i] == init[i];
    }
  }

  /** The best time after a sequence of laps is the starting best or one of the laps. */
  lemma {:induction false} BestOfIsAttained(best: Extended, laps: seq<real>)
    ensures BestOf(best, laps) == best || exists i :: 0 <= i < |laps| && BestOf(best, laps) == Finite(laps[i])
  {
    if laps != [] {
      var init := laps[..|laps| - 1];
      BestOfIsAttained(best, init);
      if BestOf(best, laps) != best && BestOf(best, laps) != Finite(laps[|laps| - 1]) {
        var i :| 0 <= i < |init| && BestOf(best, init) == Finite(init[i]);
        assert BestOf(best, laps) == Finite(laps[i]);
      }
    }
  }

  class LapTimer {
    var currentLap: int
    var lapStartTime: Option<real>
    var currentLapTime: real
    var bestLapTime: Extended
    var lastLapTime: real
    var totalRaceTime: real
    var raceStarted: bool
    var lapTimesHistory: seq<real>
    /** The best time when the current race started; earlier races keep counting. */
    ghost var bestBeforeRace: Extended

    /** One history entry per completed lap of the current race, and the best time is the best
        of the time kept from earlier races and every lap of this one. */
    ghost predicate Valid()
      reads this
    {
      currentLap >= 1 && |lapTimesHistory| == currentLap - 1 &&
      bestLapTime == BestOf(bestBeforeRace, lapTimesHistory)
    }

    /** The state of a fresh timer; Reset returns to it. */
    ghost predicate Initial()
      reads this
    {
      currentLap == 1 && lapStartTime == None && currentLapTime == 0.0 && bestLapTime == Infinite &&
      lastLapTime == 0.0 && totalRaceTime == 0.0 && !raceStarted && lapTimesHistory == []
    }

    constructor ()
      ensures Initial() && Valid()
    {
      currentLap := 1;
      lapStartTime := None;
      currentLapTime := 0.0;
      bestLapTime := Infinite;
      lastLapTime := 0.0;
      totalRaceTime := 0.0;
      raceStarted := false;
      lapTimesHistory := [];
      bestBeforeRace := Infinite;
    }

    /** Starts lap 1 at `now` with an empty history; the best, last and current lap times are
        kept. */
    method StartRace(now: real)
      modifies this
      ensures lapStartTime == Some(now) && raceStarted && currentLap == 1
      ensures totalRaceTime == 0.0 && lapTimesHistory == []
      ensures bestLapTime == old(bestLapTime) && lastLapTime == old(lastLapTime)
      ensures currentLapTime == old(currentLapTime)
      ensures Valid()
    {
      lapStartTime := Some(now);
      raceStarted := true;
      currentLap := 1;
      totalRaceTime := 0.0;
      lapTimesHistory := [];
      bestBeforeRace := bestLapTime;
    }

    /** Refreshes the current lap time while a race runs; a start time of 0 counts as unset. */
    method Update(now: real)
      modifies this
      ensures raceStarted && lapStartTime.Some? && lapStartTime.value != 0.0 ==>
        currentLapTime == now - lapStartTime.value && totalRaceTime == old(totalRaceTime) + currentLapTime
      ensures !(raceStarted && lapStartTime.Some? && lapStartTime.value != 0.0) ==>
        currentLapTime == old(currentLapTime) && totalRaceTime == old(totalRaceTime)
      ensures currentLap == old(currentLap) && lapStartTime == old(lapStartTime) && raceStarted == old(raceStarted)
      ensures bestLapTime == old(bestLapTime) && lastLapTime == old(lastLapTime)
      ensures lapTimesHistory == old(lapTimesHistory)
      ensures old(Valid()) ==> Valid()
    {
      if raceStarted && lapStartTime.Some? && lapStartTime.value != 0.0 {
        currentLapTime := now - lapStartTime.value;
        totalRaceTime := totalRaceTime + currentLapTime;
      }
    }

    /** Closes the current lap at `now`; does nothing before the race has started. */
    method CompleteLap(now: real) returns (info: Option<LapInfo>)
      modifies this
      ensures !old(raceStarted) ==> (info == None &&
        currentLap == old(currentLap) && lapStartTime == old(lapStartTime) &&
        currentLapTime == old(currentLapTime) && bestLapTime == old(bestLapTime) &&
        lastLapTime == old(lastLapTime) && totalRaceTime == old(totalRaceTime) &&
        !raceStarted && lapTimesHistory == old(lapTimesHistory))
      ensures old(raceStarted) ==>
        var recorded := RecordLap(old(bestLapTime), old(currentLapTime));
        var isBest := recorded.1 && old(currentLap) > 0;
        info == Some(LapInfo(old(currentLap), old(currentLapTime), isBest)) &&
        lapTimesHistory == old(lapTimesHistory) + [old(currentLapTime)] &&
        lastLapTime == old(currentLapTime) && currentLap == old(currentLap) + 1 &&
        currentLapTime == 0.0 && lapStartTime == Some(now) &&
        bestLapTime == (if old(currentLap) > 0 then recorded.0 else old(bestLapTime)) &&
        raceStarted && totalRaceTime == old(totalRaceTime)
      ensures AtMost(bestLapTime, old(bestLapTime))
      ensures old(Valid()) ==> Valid()
    {
      if !raceStarted {
        return None;
      }
      var lapTime := currentLapTime;
      lastLapTime := lapTime;
      lapTimesHistory := lapTimesHistory + [lapTime];
      var isBest := false;
      if Below(lapTime, bestLapTime) && currentLap > 0 {
        bestLapTime := Finite(lapTime);
        isBest := true;
      }
      assert lapTimesHistory[..|lapTimesHistory| - 1] == old(lapTimesHistory);
      info := Some(LapInfo(currentLap, lapTime, isBest));
      currentLap := currentLap + 1;
      lapStartTime := Some(now);
      currentLapTime := 0.0;
    }

    /** Back to the constructor's state. */
    method Reset()
      modifies this
      ensures Initial() && Valid()
    {
      currentLap := 1;
      lapStartTime := None;
      currentLapTime := 0.0;
      bestLapTime := Infinite;
      lastLapTime := 0.0;
      totalRaceTime := 0.0;
      raceStarted := false;
      lapTimesHistory := [];
      bestBeforeRace := Infinite;
    }

    /** The best lap time, or 0 when none has been recorded; never above a lap in the history. */
    function BestLapTime(): (r: real)
      reads this
      ensures bestLapTime.Infinite? ==> r == 0.0
      ensures Valid() ==> forall i :: 0 <= i < |lapTimesHistory| ==> r <= lapTimesHistory[i]
    {
      BestOfBoundsEveryLap(bestBeforeRace, lapTimesHistory);
      if bestLapTime.Finite? then bestLapTime.value else 0.0
    }

    /** The completed laps of the current race, oldest first, one per finished lap. */
    function LapHistory(): (r: seq<real>)
      reads this
      ensures Valid() ==> |r| == currentLap - 1
      ensures r == lapTimesHistory
    {
      lapTimesHistory
    }
  }
}
