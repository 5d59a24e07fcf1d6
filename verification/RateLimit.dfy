/** The session-creation limiter (internal/gateway/ratelimit.go): a log of the
    admitted requests, filtered in place on every call. */
module RateLimit {

  /** The stamps later than `cut`, in order. */
  function After(stamps: seq<int>, cut: int): seq<int> {
    if stamps == [] then
      []
    else
      var earlier := After(stamps[..|stamps| - 1], cut);
      var last := stamps[|stamps| - 1];
      if last > cut then earlier + [last] else earlier
  }

  /** The log after a request at `now`, and whether the request is admitted. */
  function Admit(stamps: seq<int>, limit: int, window: int, now: int): (seq<int>, bool) {
    var kept := After(stamps, now - window);
    if |kept| >= limit then (kept, false) else (kept + [now], true)
  }

  /** The limiter: `buf[..len]` is the slice of stamps, `buf` its backing array. */
  class CreateLimiter {
    const limit: int
    const window: int
    var buf: array<int>
    var len: nat

    ghost predicate Valid()
      reads this
    {
      len <= buf.Length
    }

    ghost function Stamps(): seq<int>
      reads this, buf
      requires Valid()
    {
      buf[..len]
    }

    constructor (limit: int, window: int)
      ensures Valid() && fresh(buf) && Stamps() == []
      ensures this.limit == limit && this.window == window
    {
      this.limit, this.window := limit, window;
      buf, len := new int[0], 0;
    }

    /** Keeps the stamps after the cut, then appends `now` if there is room for it. */
    method Allow(now: int) returns (admitted: bool)
      requires Valid()
      modifies this, buf
      ensures Valid() && (buf == old(buf) || fresh(buf))
      ensures (Stamps(), admitted) == Admit(old(Stamps()), limit, window, now)
    {
      Keep(now - window);
      if len >= limit {
        return false;
      }
      Append(now);
      return true;
    }

    /** Filters the stamps through a slice that shares their backing array. */
    method Keep(cut: int)
      requires Valid()
      modifies this`len, buf
      ensures Valid() && Stamps() == After(old(Stamps()), cut)
    {
      ghost var was := Stamps();
      var kept := 0;
      for i := 0 to len
        invariant kept <= i && len == old(len) && len <= buf.Length
        invariant buf[..kept] == After(was[..i], cut)
        invariant forall k | i <= k < len :: buf[k] == was[k]
      {
        assert was[..i + 1][..i] == was[..i];
        if buf[i] > cut {
          buf[kept] := buf[i];
          kept := kept + 1;
          assert buf[..kept] == After(was[..i], cut) + [was[i]];
        }
      }
      assert was[..len] == was;
      len := kept;
    }

    /** Appends in place while the backing array has room, otherwise in a larger one. */
    method Append(now: int)
      requires Valid()
      modifies this, buf
      ensures Valid() && (buf == old(buf) || fresh(buf))
      ensures Stamps() == old(Stamps()) + [now]
    {
      if len == buf.Length {
        Grow();
      }
      buf[len] := now;
      len := len + 1;
    }

    method Grow()
      requires Valid()
      modifies this`buf
      ensures Valid() && fresh(buf) && buf.Length > len && Stamps() == old(Stamps())
    {
      var bigger := new int[2 * buf.Length + 1];
      for i := 0 to len
        invariant buf == old(buf) && i <= buf.Length && buf[..] == old(buf[..])
        invariant forall k | 0 <= k < i :: bigger[k] == buf[k]
      {
        bigger[i] := buf[i];
      }
      assert bigger[..len] == buf[..len];
      buf := bigger;
    }
  }

  // ---- Runs ----

  predicate Sorted(times: seq<int>) {
    forall i, j | 0 <= i < j < |times| :: times[i] <= times[j]
  }

  /** The limiter's log after requests at `times`. */
  function Log(limit: int, window: int, times: seq<int>): seq<int> {
    if times == [] then
      []
    else
      var n := |times| - 1;
      Admit(Log(limit, window, times[..n]), limit, window, times[n]).0
  }

  /** All the requests the limiter has admitted out of `times`, with no expiry. */
  function Admitted(limit: int, window: int, times: seq<int>): seq<int> {
    if times == [] then
      []
    else
      var n := |times| - 1;
      var earlier := Admitted(limit, window, times[..n]);
      if Admit(Log(limit, window, times[..n]), limit, window, times[n]).1 then
        earlier + [times[n]]
      else
        earlier
  }

  lemma AfterPush(a: seq<int>, t: int, cut: int)
    ensures After(a + [t], cut) == if t > cut then After(a, cut) + [t] else After(a, cut)
  {
    assert (a + [t])[..|a|] == a;
  }

  lemma {:induction false} AfterTwice(a: seq<int>, cut: int, later: int)
    requires cut <= later
    ensures After(After(a, cut), later) == After(a, later)
  {
    if a != [] {
      var front, last := a[..|a| - 1], a[|a| - 1];
      AfterTwice(front, cut, later);
      AfterPush(After(front, cut), last, later);
    }
  }

  /** If the log and the admitted requests agree on what is recent, they still do
      at any later time after the filter, whether or not `t` is then added to both. */
  lemma StillAgree(log: seq<int>, admitted: seq<int>, cut: int, t: int, later: int)
    requires cut <= later && After(log, cut) == After(admitted, cut)
    ensures After(After(log, cut), later) == After(admitted, later)
    ensures After(After(log, cut) + [t], later) == After(admitted + [t], later)
  {
    AfterTwice(log, cut, later);
    AfterTwice(admitted, cut, later);
    AfterPush(After(log, cut), t, later);
    AfterPush(admitted, t, later);
  }

  function Push(ok: bool, stamps: seq<int>, t: int): seq<int> {
    if ok then stamps + [t] else stamps
  }

  lemma OneRequest(limit: int, window: int, times: seq<int>, kept: seq<int>, t: int)
    requires times != [] && t == times[|times| - 1]
    requires kept == After(Log(limit, window, times[..|times| - 1]), t - window)
    ensures Log(limit, window, times) == Push(|kept| < limit, kept, t)
    ensures Admitted(limit, window, times)
         == Push(|kept| < limit, Admitted(limit, window, times[..|times| - 1]), t)
  { }

  lemma SortedFront(times: seq<int>)
    requires Sorted(times) && times != []
    ensures Sorted(times[..|times| - 1])
    ensures |times| > 1 ==> times[|times| - 2] <= times[|times| - 1]
  { }

  /** One request at `t` takes `log` and `admitted` to `next` and `all`. */
  lemma StillRecent(log: seq<int>, admitted: seq<int>, cut: int, t: int, later: int, ok: bool, next: seq<int>,
                    all: seq<int>)
    requires cut <= later && After(log, cut) == After(admitted, cut)
    requires next == Push(ok, After(log, cut), t) && all == Push(ok, admitted, t)
    ensures After(next, later) == After(all, later)
  {
    StillAgree(log, admitted, cut, t, later);
  }

  /** Under a clock that never goes back, the log agrees with the list of all
      admitted requests on every later window: what the in-place filter drops can
      never matter again. */
  lemma {:induction false} LogIsRecentAdmissions(limit: int, window: int, times: seq<int>, now: int)
    requires Sorted(times) && (times != [] ==> times[|times| - 1] <= now)
    ensures After(Log(limit, window, times), now - window)
         == After(Admitted(limit, window, times), now - window)
  {
    if times == [] {
      assert Log(limit, window, times) == Admitted(limit, window, times);
    } else {
      var n := |times| - 1;
      SortedFront(times);
      LogIsRecentAdmissions(limit, window, times[..n], times[n]);
      var log, admitted := Log(limit, window, times[..n]), Admitted(limit, window, times[..n]);
      var kept := After(log, times[n] - window);
      OneRequest(limit, window, times, kept, times[n]);
      StillRecent(log, admitted, times[n] - window, times[n], now - window, |kept| < limit,
                  Log(limit, window, times), Admitted(limit, window, times));
    }
  }

  /** A request is refused exactly when at least `limit` of the requests admitted
      so far lie within the last window. */
  lemma RefusedIff(limit: int, window: int, times: seq<int>, now: int)
    requires Sorted(times) && (times != [] ==> times[|times| - 1] <= now)
    ensures !Admit(Log(limit, window, times), limit, window, now).1
       <==> |After(Admitted(limit, window, times), now - window)| >= limit
  {
    LogIsRecentAdmissions(limit, window, times, now);
  }

  lemma {:induction false} AdmittedIsSorted(limit: int, window: int, times: seq<int>)
    requires Sorted(times)
    ensures Sorted(Admitted(limit, window, times))
    ensures forall t | t in Admitted(limit, window, times) :: times != [] && t <= times[|times| - 1]
  {
    if times != [] {
      SortedFront(times);
      AdmittedIsSorted(limit, window, times[..|times| - 1]);
      SortedPush(Admitted(limit, window, times[..|times| - 1]), times[|times| - 1]);
    }
  }

  lemma SortedPush(a: seq<int>, t: int)
    requires Sorted(a) && forall s | s in a :: s <= t
    ensures Sorted(a + [t])
  {
    forall i, j | 0 <= i < j < |a + [t]| ensures (a + [t])[i] <= (a + [t])[j] {
      assert a[i] in a;
    }
  }

  /** In a sorted list everything from a recent stamp on is recent. */
  lemma {:induction false} RecentSuffix(a: seq<int>, i: nat, cut: int)
    requires Sorted(a) && i < |a| && a[i] > cut
    ensures |After(a, cut)| >= |a| - i
  {
    if i < |a| - 1 {
      SortedFront(a);
      RecentSuffix(a[..|a| - 1], i, cut);
    }
  }

  /** Any limit + 1 consecutive admitted requests span at least the window. */
  lemma {:induction false} WindowBound(limit: nat, window: int, times: seq<int>, i: nat)
    requires Sorted(times)
    requires i + limit < |Admitted(limit, window, times)|
    ensures var admitted := Admitted(limit, window, times);
      admitted[i + limit] - admitted[i] >= window
  {
    var n := |times| - 1;
    var admitted := Admitted(limit, window, times[..n]);
    SortedFront(times);
    if i + limit < |admitted| {
      WindowBound(limit, window, times[..n], i);
    } else {
      // The request at times[n] is the one with index i + limit.
      AdmittedIsSorted(limit, window, times[..n]);
      RefusedIff(limit, window, times[..n], times[n]);
      if i < |admitted| && admitted[i] > times[n] - window {
        RecentSuffix(admitted, i, times[n] - window);
      }
    }
  }
}
