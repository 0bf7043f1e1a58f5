/**
 * The adventure mode's bounded history of previous map positions
 * (forge-gui-mobile/src/forge/adventure/PreviousLocation.java).
 *
 * A capacity-limited FIFO over an ArrayDeque: `add` pops from the front
 * until there is room, appends at the back, and reports whether it evicted.
 * The libgdx Vector2 element type is the type parameter T.
 */
module Adventure {
  import opened Wrappers

  /** The contents after `add(x)` on contents `s` with capacity `max`. */
  function AfterAdd<T>(s: seq<T>, max: int, x: T): (r: seq<T>)
    requires max >= 1
    ensures |r| >= 1 && r[|r| - 1] == x
    ensures |r| <= max
    ensures |s| >= max ==> |r| == max
    ensures |s| < max ==> r == s + [x]
    // the survivors are the newest |r| - 1 elements of s, in their old order
    ensures |r| - 1 <= |s| && r[..|r| - 1] == s[|s| - (|r| - 1)..]
  {
    if |s| >= max then s[|s| - max + 1..] + [x] else s + [x]
  }

  /**
   * The do-while loop of `add` as written: pop once, then keep popping
   * while the size is still at least `max`. None means that a pop was
   * attempted on an empty deque (a NoSuchElementException).
   */
  function PopLoop<T>(s: seq<T>, max: int): (r: Option<seq<T>>)
    decreases |s|
    // when the loop ends normally it has popped at least once, stopped below max, and kept the newest elements
    ensures r.Some? ==> |r.value| < |s| && |r.value| < max && r.value == s[|s| - |r.value|..]
  {
    if s == [] then None
    else if |s| - 1 >= max then PopLoop(s[1..], max)
    else Some(s[1..])
  }

  /** With a positive capacity the pop loop leaves exactly max - 1 elements, the newest ones. */
  lemma {:induction false} PopLoopEvicts<T>(s: seq<T>, max: int)
    requires max >= 1 && |s| >= max
    ensures PopLoop(s, max) == Some(s[|s| - max + 1..])
    decreases |s|
  {
    if |s| - 1 >= max {
      PopLoopEvicts(s[1..], max);
      assert s[1..][|s[1..]| - max + 1..] == s[|s| - max + 1..];
    }
  }

  /** With a capacity of zero or less the pop loop always runs off the front of the deque. */
  lemma {:induction false} PopLoopUnderflows<T>(s: seq<T>, max: int)
    requires max <= 0
    ensures PopLoop(s, max) == None
    decreases |s|
  {
    if s != [] {
      PopLoopUnderflows(s[1..], max);
    }
  }

  /** `add` is the pop loop (when evicting) followed by an append. */
  lemma AfterAddIsPopThenAppend<T>(s: seq<T>, max: int, x: T)
    requires max >= 1 && |s| >= max
    ensures PopLoop(s, max).Some? && AfterAdd(s, max, x) == PopLoop(s, max).value + [x]
  {
    PopLoopEvicts(s, max);
  }

  class PreviousLocation<T> {
    const maximumStored: int
    var locations: seq<T>

    /** The deque never holds more than a positive capacity. */
    ghost predicate Valid()
      reads this
    {
      maximumStored >= 1 ==> |locations| <= maximumStored
    }

    constructor (max: int)
      ensures Valid()
      ensures maximumStored == max && locations == []
    {
      maximumStored := max;
      locations := [];
    }

    /** Appends `location`, first dropping the oldest entries when the deque is at capacity; the result says whether any were dropped. */
    method Add(location: T) returns (evicting: bool)
      requires maximumStored >= 1
      modifies this
      ensures Valid()
      ensures evicting == (|old(locations)| >= maximumStored)
      ensures locations == AfterAdd(old(locations), maximumStored, location)
    {
      evicting := |locations| >= maximumStored;
      if evicting {
        locations := locations[1..];
        while |locations| >= maximumStored
          invariant maximumStored - 1 <= |locations| < |old(locations)|
          invariant locations == old(locations)[|old(locations)| - |locations|..]
          decreases |locations|
        {
          locations := locations[1..];
        }
      }
      locations := locations + [location];
    }

    /** The oldest retained location, or None (null) when empty. */
    function Peek(): (r: Option<T>)
      reads this
      ensures r.None? <==> |locations| == 0
      ensures r.Some? ==> r.value == locations[0]
    {
      if |locations| == 0 then None else Some(locations[0])
    }

    /** The number of retained locations, never above a positive capacity. */
    function Size(): (n: nat)
      requires Valid()
      reads this
      ensures n == |locations|
      ensures maximumStored >= 1 ==> n <= maximumStored
    {
      |locations|
    }
  }
}
