/**
  GetNumberOfSubscribers and GetNumberOfPublishers: poll a match count until it is
  large enough or the time is up, sleeping 100 ms between polls.
*/
module Polling {

  const WAIT_INCREMENT := 100

  /** What asking for the matched status came to. */
  datatype Poll = Threw | Matched(count: int)

  /** Finding the topic's name in the map and then its writer or reader. */
  datatype Lookup = NoTopic | NoEndpoint | Found

  /** The k-th poll's answer, and the milliseconds waited when it is made. */
  datatype World = World(poll: nat -> Poll, waited: nat -> int)

  /** A monotone clock that every sleep advances by the wait increment or more. */
  ghost predicate ClockAdvances(w: World) {
    w.waited(0) == 0 && forall k: nat :: w.waited(k + 1) >= w.waited(k) + WAIT_INCREMENT
  }

  /** The k-th poll ends the wait by itself. */
  predicate Decides(w: World, minCount: int, k: nat) {
    w.poll(k).Threw? || w.poll(k).count >= minCount
  }

  /** The k-th poll is the last: it decides, or the time is up. */
  predicate Stops(w: World, minCount: int, maxWait: int, k: nat) {
    Decides(w, minCount, k) || w.waited(k) >= maxWait
  }

  ghost predicate IsLastPoll(w: World, minCount: int, maxWait: int, k: nat) {
    Stops(w, minCount, maxWait, k) && forall j: nat :: j < k ==> !Stops(w, minCount, maxWait, j)
  }

  /** GetNumberOfSubscribers over the topic's writer, GetNumberOfPublishers over its reader. An exception
      anywhere makes the call report 0. */
  method GetNumberMatched(lookup: Lookup, w: World, minCount: int, maxWait: int) returns (count: int, sleeps: nat)
    requires ClockAdvances(w)
    ensures !lookup.Found? ==> count == 0 && sleeps == 0
    ensures lookup.Found? ==>
              && IsLastPoll(w, minCount, maxWait, sleeps)
              && (w.poll(sleeps).Threw? ==> count == 0) && (w.poll(sleeps).Matched? ==> count == w.poll(sleeps).count)
  {
    sleeps := 0;
    if !lookup.Found? {
      return 0, 0;
    }
    var timeWaited, status := 0, w.poll(0);
    if status.Threw? {
      return 0, sleeps;
    }
    if status.count >= minCount {
      return status.count, sleeps;
    }
    while timeWaited < maxWait
      invariant timeWaited == w.waited(sleeps) && status == w.poll(sleeps)
      invariant forall j: nat :: j < sleeps ==> !Stops(w, minCount, maxWait, j)
      invariant !Decides(w, minCount, sleeps)
      decreases maxWait - timeWaited
    {
      assert !Stops(w, minCount, maxWait, sleeps);
      assert w.waited(sleeps + 1) >= w.waited(sleeps) + WAIT_INCREMENT;
      sleeps := sleeps + 1;
      timeWaited := w.waited(sleeps);
      status := w.poll(sleeps);
      if status.Threw? {
        return 0, sleeps;
      }
      if status.count >= minCount {
        return status.count, sleeps;
      }
    }
    return status.count, sleeps;
  }

  lemma {:induction false} WaitedAtLeast(w: World, k: nat)
    requires ClockAdvances(w)
    ensures w.waited(k) >= WAIT_INCREMENT * k
  {
    if k == 0 {
    } else {
      WaitedAtLeast(w, k - 1);
      assert w.waited(k - 1 + 1) >= w.waited(k - 1) + WAIT_INCREMENT;
    }
  }

  /** At most ceil(maxWait / 100) sleeps, and none if there is no time to wait. */
  lemma SleepsAreBounded(w: World, minCount: int, maxWait: int, sleeps: nat)
    requires ClockAdvances(w) && IsLastPoll(w, minCount, maxWait, sleeps)
    ensures if maxWait <= 0 then sleeps == 0 else sleeps <= (maxWait + WAIT_INCREMENT - 1) / WAIT_INCREMENT
  {
    if sleeps > 0 {
      WaitedAtLeast(w, sleeps - 1);
      assert !Stops(w, minCount, maxWait, sleeps - 1);
      assert w.waited(0) == 0 && !Stops(w, minCount, maxWait, 0);
    }
  }

  /** The count returned reaches the minimum iff some poll made saw one that does, and then
      it is the first such; when no poll throws. */
  lemma ReachesMinimumIffSeen(w: World, minCount: int, maxWait: int, sleeps: nat)
    requires IsLastPoll(w, minCount, maxWait, sleeps) && forall k :: w.poll(k).Matched?
    ensures w.poll(sleeps).count >= minCount <==> exists k: nat :: k <= sleeps && w.poll(k).count >= minCount
    ensures forall k: nat :: k <= sleeps && w.poll(k).count >= minCount ==> k == sleeps
  {
    forall k: nat | k <= sleeps && w.poll(k).count >= minCount ensures k == sleeps {
      assert k < sleeps ==> !Stops(w, minCount, maxWait, k);
    }
  }

  /** A count is missed iff it first shows after the time is up. */
  lemma MissedIffTooLate(w: World, minCount: int, maxWait: int, sleeps: nat)
    requires ClockAdvances(w) && IsLastPoll(w, minCount, maxWait, sleeps) && forall k :: w.poll(k).Matched?
    ensures w.poll(sleeps).count < minCount
            <==> forall k: nat :: w.poll(k).count >= minCount ==> exists j: nat :: j < k && w.waited(j) >= maxWait
  {
    if w.poll(sleeps).count < minCount {
      forall k: nat | w.poll(k).count >= minCount ensures exists j: nat :: j < k && w.waited(j) >= maxWait {
        assert k <= sleeps ==> k < sleeps && !Stops(w, minCount, maxWait, k);
        assert sleeps < k && w.waited(sleeps) >= maxWait;
      }
    } else {
      forall j: nat | j < sleeps ensures w.waited(j) < maxWait {
        assert !Stops(w, minCount, maxWait, j);
      }
    }
  }

  /** WaitForSubscriber and WaitForPublisher: true iff a poll made in time saw a match. */
  method WaitForMatch(lookup: Lookup, w: World, timeToWait: int) returns (found: bool)
    requires ClockAdvances(w)
    ensures found <==> lookup.Found? && exists k: nat :: IsLastPoll(w, 1, timeToWait, k) && w.poll(k).Matched? && w.poll(k).count >= 1
  {
    var count, sleeps := GetNumberMatched(lookup, w, 1, timeToWait);
    found := count > 0;
    if lookup.Found? {
      LastPollIsUnique(w, 1, timeToWait, sleeps);
    }
  }

  lemma LastPollIsUnique(w: World, minCount: int, maxWait: int, k: nat)
    requires IsLastPoll(w, minCount, maxWait, k)
    ensures forall j: nat :: IsLastPoll(w, minCount, maxWait, j) ==> j == k
  {
    forall j: nat | j != k ensures !IsLastPoll(w, minCount, maxWait, j) {
      assert j < k ==> !Stops(w, minCount, maxWait, j);
    }
  }
}
