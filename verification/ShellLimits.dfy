/**
 The two sliding-window limiters of the desktop shell, apps/desktop/src/main.ts: silent prints,
 where a refused request is not remembered, and reloads after a renderer crash, where it is.
 */
module ShellLimits {

  const CrashReloadsMax := 3
  const CrashWindow := 60_000
  const PrintRateMax := 30
  const PrintRateWindow := 60_000

  // ---------------------------------------------------------------- windows

  /** The times less than a window before `now`, which is what the handlers filter for. */
  function Recent(ts: seq<int>, now: int, window: int): seq<int> {
    if ts == [] then []
    else (if now - ts[0] < window then [ts[0]] else []) + Recent(ts[1..], now, window)
  }

  /** The times in `[from, from + window)`. */
  function Within(ts: seq<int>, from: int, window: int): seq<int> {
    if ts == [] then []
    else (if from <= ts[0] < from + window then [ts[0]] else []) + Within(ts[1..], from, window)
  }

  predicate Sorted(ts: seq<int>) {
    forall i, j :: 0 <= i < j < |ts| ==> ts[i] <= ts[j]
  }

  lemma {:induction false} RecentSnoc(ts: seq<int>, t: int, now: int, window: int)
    ensures Recent(ts + [t], now, window) == Recent(ts, now, window) + if now - t < window then [t] else []
  {
    if ts != [] {
      RecentSnoc(ts[1..], t, now, window);
      assert (ts + [t])[1..] == ts[1..] + [t];
    }
  }

  lemma {:induction false} WithinSnoc(ts: seq<int>, t: int, from: int, window: int)
    ensures Within(ts + [t], from, window) == Within(ts, from, window) + if from <= t < from + window then [t] else []
  {
    if ts != [] {
      WithinSnoc(ts[1..], t, from, window);
      assert (ts + [t])[1..] == ts[1..] + [t];
    }
  }

  lemma {:induction false} RecentAgain(ts: seq<int>, earlier: int, now: int, window: int)
    requires earlier <= now
    ensures Recent(Recent(ts, earlier, window), now, window) == Recent(ts, now, window)
  {
    if ts != [] {
      RecentAgain(ts[1..], earlier, now, window);
      var rest := Recent(ts[1..], earlier, window);
      assert ([ts[0]] + rest)[1..] == rest;
      assert [] + rest == rest;
    }
  }

  /** A window that contains `now` holds nothing that is not recent. */
  lemma {:induction false} WithinIsRecent(ts: seq<int>, from: int, now: int, window: int)
    requires now < from + window
    ensures |Within(ts, from, window)| <= |Recent(ts, now, window)|
  {
    if ts != [] {
      WithinIsRecent(ts[1..], from, now, window);
    }
  }

  /** On a clock that does not go back, there are `max` recent times when the `max`th last is recent. */
  lemma {:induction false} FullIff(ts: seq<int>, now: int, window: int, max: nat)
    requires Sorted(ts) && max > 0
    ensures |Recent(ts, now, window)| >= max <==> |ts| >= max && now - ts[|ts| - max] < window
  {
    RecentIsShorter(ts, now, window);
    if ts != [] && now - ts[0] < window {
      AllRecent(ts, now, window);
    } else if ts != [] {
      FullIff(ts[1..], now, window, max);
      assert Recent(ts, now, window) == Recent(ts[1..], now, window);
    }
  }

  lemma {:induction false} RecentIsShorter(ts: seq<int>, now: int, window: int)
    ensures |Recent(ts, now, window)| <= |ts|
  {
    if ts != [] {
      RecentIsShorter(ts[1..], now, window);
    }
  }

  lemma {:induction false} AllRecent(ts: seq<int>, now: int, window: int)
    requires Sorted(ts) && (ts != [] ==> now - ts[0] < window)
    ensures Recent(ts, now, window) == ts
  {
    if ts != [] {
      AllRecent(ts[1..], now, window);
      assert ts == [ts[0]] + ts[1..];
    }
  }

  // ---------------------------------------------------------------- what is let through

  /** The prints that go to the printer, out of all that are asked for. */
  function Prints(asked: seq<int>): seq<int> {
    if asked == [] then []
    else
      var before, now := Prints(asked[..|asked| - 1]), asked[|asked| - 1];
      if |Recent(before, now, PrintRateWindow)| < PrintRateMax then before + [now] else before
  }

  /** The automatic reloads, out of all crashes. */
  function Reloads(crashes: seq<int>): seq<int> {
    if crashes == [] then []
    else
      var before, now := Reloads(crashes[..|crashes| - 1]), crashes[|crashes| - 1];
      if |Recent(crashes[..|crashes| - 1], now, CrashWindow)| < CrashReloadsMax then before + [now] else before
  }

  /** No window holds more than 30 prints. */
  lemma {:induction false} PrintsAreBounded(asked: seq<int>, from: int)
    ensures |Within(Prints(asked), from, 60_000)| <= 30
  {
    if asked != [] {
      var before, now := asked[..|asked| - 1], asked[|asked| - 1];
      PrintsAreBounded(before, from);
      WithinSnoc(Prints(before), now, from, PrintRateWindow);
      if now < from + PrintRateWindow {
        WithinIsRecent(Prints(before), from, now, PrintRateWindow);
      }
    }
  }

  lemma {:induction false} ReloadsAreCrashes(crashes: seq<int>, now: int)
    ensures |Recent(Reloads(crashes), now, CrashWindow)| <= |Recent(crashes, now, CrashWindow)|
  {
    if crashes != [] {
      var before, last := crashes[..|crashes| - 1], crashes[|crashes| - 1];
      ReloadsAreCrashes(before, now);
      RecentSnoc(before, last, now, CrashWindow);
      RecentSnoc(Reloads(before), last, now, CrashWindow);
      assert before + [last] == crashes;
    }
  }

  /** No window holds more than 3 reloads, although refused crashes count against the next one. */
  lemma {:induction false} ReloadsAreBounded(crashes: seq<int>, from: int)
    ensures |Within(Reloads(crashes), from, 60_000)| <= 3
  {
    if crashes != [] {
      var before, now := crashes[..|crashes| - 1], crashes[|crashes| - 1];
      ReloadsAreBounded(before, from);
      WithinSnoc(Reloads(before), now, from, CrashWindow);
      if now < from + CrashWindow {
        WithinIsRecent(Reloads(before), from, now, CrashWindow);
        ReloadsAreCrashes(before, now);
      }
    }
  }

  lemma {:induction false} PrintsAreSorted(asked: seq<int>)
    requires Sorted(asked)
    ensures Sorted(Prints(asked))
    ensures Prints(asked) != [] ==> asked != [] && Prints(asked)[|Prints(asked)| - 1] <= asked[|asked| - 1]
  {
    if asked != [] {
      PrintsAreSorted(asked[..|asked| - 1]);
    }
  }

  lemma SortedInit(ts: seq<int>, now: int)
    requires Sorted(ts + [now])
    ensures Sorted(ts)
  {
    assert forall i :: 0 <= i < |ts| ==> ts[i] == (ts + [now])[i];
  }

  lemma PrintsSnoc(asked: seq<int>, now: int)
    ensures Prints(asked + [now])
      == Prints(asked) + if |Recent(Prints(asked), now, PrintRateWindow)| < PrintRateMax then [now] else []
  {
    var all := asked + [now];
    assert all[..|all| - 1] == asked;
    hide Recent;
  }

  /** A print is refused exactly when the 30th last one printed is less than a minute old. */
  lemma PrintRefusedIff(asked: seq<int>, now: int)
    requires Sorted(asked + [now])
    ensures var printed := Prints(asked);
      Prints(asked + [now])
      == if |printed| >= 30 && now - printed[|printed| - 30] < 60_000 then printed else printed + [now]
  {
    hide Recent;
    hide Prints;
    hide Sorted;
    SortedInit(asked, now);
    PrintsAreSorted(asked);
    PrintsSnoc(asked, now);
    FullIff(Prints(asked), now, PrintRateWindow, PrintRateMax);
    assert |Prints(asked) + [now]| == |Prints(asked)| + 1;
    assert Prints(asked) + [] == Prints(asked);
  }

  lemma ReloadsSnoc(crashes: seq<int>, now: int)
    ensures Reloads(crashes + [now])
      == Reloads(crashes) + if |Recent(crashes, now, CrashWindow)| < CrashReloadsMax then [now] else []
  {
    var all := crashes + [now];
    assert all[..|all| - 1] == crashes;
    hide Recent;
  }

  /**
   A reload is refused exactly when the third last crash is less than a minute old, reloaded or
   not: crashes that keep coming faster than that are never followed by a reload again.
   */
  lemma ReloadRefusedIff(crashes: seq<int>, now: int)
    requires Sorted(crashes + [now])
    ensures Reloads(crashes + [now])
      == Reloads(crashes) + if |crashes| >= 3 && now - crashes[|crashes| - 3] < 60_000 then [] else [now]
  {
    hide Recent;
    hide Reloads;
    hide Sorted;
    SortedInit(crashes, now);
    ReloadsSnoc(crashes, now);
    assert |Reloads(crashes) + [now]| == |Reloads(crashes)| + 1;
    assert Reloads(crashes) + [] == Reloads(crashes);
    FullIff(crashes, now, CrashWindow, CrashReloadsMax);
  }

  /** A window of time holds every one of a run of prints that fits into it. */
  lemma {:induction false} RunFits(ts: seq<int>, i: nat, n: nat, window: int)
    requires Sorted(ts) && n > 0 && i + n <= |ts| && ts[i + n - 1] - ts[i] < window
    ensures |Within(ts, ts[i], window)| >= n
  {
    if n == 1 {
      OneFits(ts, i, window);
    } else if i == 0 && |ts| == n {
      AllFit(ts, ts[0], window);
    } else if i > 0 {
      assert ts[1..][i - 1] == ts[i] && ts[1..][i + n - 2] == ts[i + n - 1];
      RunFits(ts[1..], i - 1, n, window);
    } else {
      var init := ts[..|ts| - 1];
      assert ts == init + [ts[|ts| - 1]];
      RunFits(init, 0, n, window);
      WithinSnoc(init, ts[|ts| - 1], ts[0], window);
    }
  }

  lemma {:induction false} OneFits(ts: seq<int>, i: nat, window: int)
    requires i < |ts| && window > 0
    ensures |Within(ts, ts[i], window)| >= 1
  {
    if i > 0 {
      assert ts[1..][i - 1] == ts[i];
      OneFits(ts[1..], i - 1, window);
    }
  }

  lemma {:induction false} AllFit(ts: seq<int>, from: int, window: int)
    requires forall k :: 0 <= k < |ts| ==> from <= ts[k] < from + window
    ensures Within(ts, from, window) == ts
  {
    if ts != [] {
      AllFit(ts[1..], from, window);
      assert ts == [ts[0]] + ts[1..];
    }
  }

  /** On a clock that does not go back, any 31 prints in a row take at least a minute. */
  lemma PrintsTakeTheirTime(asked: seq<int>, i: nat)
    requires Sorted(asked) && i + 30 < |Prints(asked)|
    ensures Prints(asked)[i + 30] - Prints(asked)[i] >= 60_000
  {
    PrintsAreSorted(asked);
    if Prints(asked)[i + 30] - Prints(asked)[i] < 60_000 {
      RunFits(Prints(asked), i, 31, 60_000);
      PrintsAreBounded(asked, Prints(asked)[i]);
    }
  }

  lemma {:induction false} ReloadsAreSorted(crashes: seq<int>)
    requires Sorted(crashes)
    ensures Sorted(Reloads(crashes))
    ensures Reloads(crashes) != [] ==> crashes != [] && Reloads(crashes)[|Reloads(crashes)| - 1] <= crashes[|crashes| - 1]
  {
    if crashes != [] {
      ReloadsAreSorted(crashes[..|crashes| - 1]);
    }
  }

  /** And any 4 reloads in a row. */
  lemma ReloadsTakeTheirTime(crashes: seq<int>, i: nat)
    requires Sorted(crashes) && i + 3 < |Reloads(crashes)|
    ensures Reloads(crashes)[i + 3] - Reloads(crashes)[i] >= 60_000
  {
    ReloadsAreSorted(crashes);
    if Reloads(crashes)[i + 3] - Reloads(crashes)[i] < 60_000 {
      RunFits(Reloads(crashes), i, 4, 60_000);
      ReloadsAreBounded(crashes, Reloads(crashes)[i]);
    }
  }

  lemma NothingYet(now: int)
    ensures Prints([]) == [] && Reloads([]) == []
    ensures Recent([], now, PrintRateWindow) == [] && Recent([], now, CrashWindow) == []
  {
  }

  // ---------------------------------------------------------------- the handlers

  /** The list of prints is what is recent of all of them, at the time of the last request. */
  ghost predicate PrintsTracked(asked: seq<int>, times: seq<int>) {
    if asked == [] then times == [] else times == Recent(Prints(asked), asked[|asked| - 1], PrintRateWindow)
  }

  lemma PrintTracked(asked: seq<int>, times: seq<int>, now: int)
    requires PrintsTracked(asked, times) && (asked != [] ==> asked[|asked| - 1] <= now)
    ensures var kept := Recent(times, now, PrintRateWindow);
      if |kept| >= PrintRateMax then Prints(asked + [now]) == Prints(asked) && PrintsTracked(asked + [now], kept)
      else Prints(asked + [now]) == Prints(asked) + [now] && PrintsTracked(asked + [now], kept + [now])
  {
    if asked != [] {
      RecentAgain(Prints(asked), asked[|asked| - 1], now, PrintRateWindow);
    } else {
      NothingYet(now);
    }
    RecentSnoc(Prints(asked), now, now, PrintRateWindow);
    PrintsSnoc(asked, now);
    assert Prints(asked) + [] == Prints(asked);
    hide Recent;
    hide Prints;
  }

  ghost predicate CrashesTracked(crashes: seq<int>, times: seq<int>) {
    if crashes == [] then times == [] else times == Recent(crashes, crashes[|crashes| - 1], CrashWindow)
  }

  lemma CrashTracked(crashes: seq<int>, times: seq<int>, now: int)
    requires CrashesTracked(crashes, times) && (crashes != [] ==> crashes[|crashes| - 1] <= now)
    ensures var kept := Recent(times, now, CrashWindow) + [now];
      && CrashesTracked(crashes + [now], kept)
      && Reloads(crashes + [now]) == Reloads(crashes) + if |kept| <= CrashReloadsMax then [now] else []
  {
    if crashes != [] {
      RecentAgain(crashes, crashes[|crashes| - 1], now, CrashWindow);
    } else {
      NothingYet(now);
    }
    RecentSnoc(crashes, now, now, CrashWindow);
    ReloadsSnoc(crashes, now);
    hide Recent;
    hide Reloads;
  }

  datatype Ack = Denied | RateLimited | Printed | PrintError
  datatype Screen = AppReloaded | Fallback | Unchanged

  class Shell {
    var printTimes: seq<int>
    var crashReloads: seq<int>
    /** Every trusted print request and every crash so far. */
    ghost var asked: seq<int>
    ghost var crashes: seq<int>

    /** The lists hold what is recent of the whole history. */
    ghost predicate Tracks()
      reads this
    {
      && Sorted(asked) && Sorted(crashes)
      && PrintsTracked(asked, printTimes) && CrashesTracked(crashes, crashReloads)
    }

    /** The clock has not gone back. */
    ghost predicate InOrder(now: int)
      reads this
    {
      (asked != [] ==> asked[|asked| - 1] <= now) && (crashes != [] ==> crashes[|crashes| - 1] <= now)
    }

    constructor ()
      ensures Tracks() && asked == [] && crashes == []
    {
      printTimes, crashReloads := [], [];
      asked, crashes := [], [];
    }

    method Print(now: int, trusted: bool, succeeds: bool) returns (ack: Ack)
      requires Tracks() && InOrder(now)
      modifies this
      ensures Tracks() && crashes == old(crashes)
      ensures asked == if trusted then old(asked) + [now] else old(asked)
      ensures ack == Denied <==> !trusted
      ensures trusted ==> (ack == RateLimited <==> Prints(asked) == Prints(old(asked)))
      ensures trusted && ack != RateLimited ==> ack == if succeeds then Printed else PrintError
    {
      if !trusted {
        return Denied;
      }
      hide Recent;
      hide Prints;
      hide Reloads;
      PrintTracked(asked, printTimes, now);
      printTimes := Recent(printTimes, now, PrintRateWindow);
      asked := asked + [now];
      if |printTimes| >= PrintRateMax {
        return RateLimited;
      }
      printTimes := printTimes + [now];
      ack := if succeeds then Printed else PrintError;
    }

    method RenderProcessGone(now: int, expected: bool) returns (screen: Screen)
      requires Tracks() && InOrder(now)
      modifies this
      ensures Tracks() && asked == old(asked)
      ensures crashes == if expected then old(crashes) else old(crashes) + [now]
      ensures screen == Unchanged <==> expected
      ensures !expected ==> (screen == Fallback <==> Reloads(crashes) == Reloads(old(crashes)))
    {
      if expected {
        return Unchanged;
      }
      hide Recent;
      hide Prints;
      hide Reloads;
      CrashTracked(crashes, crashReloads, now);
      crashReloads := Recent(crashReloads, now, CrashWindow);
      crashReloads := crashReloads + [now];
      crashes := crashes + [now];
      screen := if |crashReloads| <= CrashReloadsMax then AppReloaded else Fallback;
    }
  }
}
