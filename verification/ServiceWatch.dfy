/**
 * verifyService (internal/cli/opencode_v2_service.go): watching the pinned port
 * until the listener on it is proven, over everything the port, the
 * registration file, the clock and the caller may do.
 */
module ServiceWatch {
  import opened Wrappers

  /** serviceCheck, without the interval: durations in ticks of the clock. */
  datatype Check = Check(grace: int, window: int)

  /**
   * What one round of the loop sees: the registered port and whether the service
   * there proves itself, the time, whether the port answers, and whether the
   * wait after the round ends by cancellation.
   */
  datatype Poll = Poll(registered: Option<int>, proves: bool, now: int, answers: bool, cancelled: bool)

  datatype Verdict = Proven | WrongPort(port: int) | Taken | Quiet

  /** The rounds to come, one after the other. */
  type Rounds = nat -> Poll

  /** Time passes between rounds, and never more than gap. */
  ghost predicate Ticking(polls: Rounds, start: int, gap: int) {
    && 0 <= polls(0).now - start <= gap
    && forall i: nat :: 0 < polls(i + 1).now - polls(i).now <= gap
  }

  // ---- what ends the watch ----

  predicate Unproven(polls: Rounds, port: int, i: nat) {
    polls(i).registered.None? || (polls(i).registered.value == port && !polls(i).proves)
  }

  /** The port answered at every round from j to i, and none of these proved it. */
  predicate AnsweredSince(polls: Rounds, port: int, j: nat, i: nat) {
    forall k: nat | j <= k <= i :: polls(k).answers && Unproven(polls, port, k)
  }

  /** Unproven answers without a break for at least the grace time. */
  predicate TakenAt(polls: Rounds, port: int, c: Check, i: nat) {
    exists j: nat | j < i :: AnsweredSince(polls, port, j, i) && polls(i).now - polls(j).now >= c.grace
  }

  predicate SilentAt(polls: Rounds, start: int, c: Check, i: nat) {
    !polls(i).answers && polls(i).now - start >= c.window
  }

  /** The verdict that round i gives, if it ends the watch. */
  function Ends(polls: Rounds, port: int, start: int, c: Check, i: nat): Option<Verdict> {
    var p := polls(i);
    if p.registered.Some? && p.registered.value != port then Some(WrongPort(p.registered.value))
    else if p.registered.Some? && p.proves then Some(Proven)
    else if TakenAt(polls, port, c, i) then Some(Taken)
    else if SilentAt(polls, start, c, i) || p.cancelled then Some(Quiet)
    else None
  }

  /**
   * What a verdict means. Proven: the pinned port is registered and the service
   * there proves itself. Wrong port: another one is registered. Taken: neither
   * holds, and unproven answers came without a break for the grace time. Quiet:
   * none of these, and the wait was cancelled or the port is silent after the
   * window. In every other case the round gives no verdict.
   */
  lemma VerdictMeans(polls: Rounds, port: int, start: int, c: Check, i: nat)
    ensures var p, v := polls(i), Ends(polls, port, start, c, i);
            && (v == Some(Proven) <==> p.registered == Some(port) && p.proves)
            && (forall q: int :: v == Some(WrongPort(q)) <==> p.registered == Some(q) && q != port)
            && (v == Some(Taken) <==>
                  exists j: nat | j < i :: p.now - polls(j).now >= c.grace && UnprovenAnswers(polls, port, j, i))
            && (v == Some(Quiet) ==> p.registered == None || (p.registered == Some(port) && !p.proves))
            && (v == Some(Quiet) ==> p.cancelled || (!p.answers && p.now - start >= c.window))
            && (v == None ==> !p.cancelled && (p.answers || p.now - start < c.window))
  {
    forall j: nat | j < i
      ensures UnprovenAnswers(polls, port, j, i) <==> AnsweredSince(polls, port, j, i)
    {
      if UnprovenAnswers(polls, port, j, i) {
        forall k: nat | j <= k <= i
          ensures polls(k).answers && Unproven(polls, port, k)
        {}
      }
      if AnsweredSince(polls, port, j, i) {
        forall k: nat | j <= k <= i
          ensures polls(k).answers && (polls(k).registered == None || (polls(k).registered == Some(port) && !polls(k).proves))
        {
          assert Unproven(polls, port, k);
        }
      }
    }
    if TakenAt(polls, port, c, i) {
      var j: nat :| j < i && AnsweredSince(polls, port, j, i) && polls(i).now - polls(j).now >= c.grace;
      assert Unproven(polls, port, i) && UnprovenAnswers(polls, port, j, i);
    }
    if j: nat :| j < i && polls(i).now - polls(j).now >= c.grace && UnprovenAnswers(polls, port, j, i) {
      assert AnsweredSince(polls, port, j, i);
      assert Unproven(polls, port, i);
    }
  }

  /** From round j to i something answers on the port and nothing is registered that it could be. */
  predicate UnprovenAnswers(polls: Rounds, port: int, j: nat, i: nat) {
    forall k: nat | j <= k <= i ::
      polls(k).answers && (polls(k).registered == None || (polls(k).registered == Some(port) && !polls(k).proves))
  }

  /** Nothing in round i decides anything. */
  predicate Undecided(polls: Rounds, port: int, start: int, c: Check, i: nat) {
    && (polls(i).registered == None || (polls(i).registered == Some(port) && !polls(i).proves))
    && !polls(i).cancelled && (polls(i).answers || polls(i).now - start < c.window)
    && forall j: nat | j < i :: polls(i).now - polls(j).now >= c.grace ==> !UnprovenAnswers(polls, port, j, i)
  }

  ghost predicate StillWatching(polls: Rounds, port: int, start: int, c: Check, n: nat) {
    forall i: nat | i < n :: Ends(polls, port, start, c, i) == None
  }

  // ---- how long it can take ----

  lemma {:induction false} Later(polls: Rounds, start: int, gap: int, i: nat, j: nat)
    requires Ticking(polls, start, gap) && i <= j
    ensures polls(i).now + (j - i) <= polls(j).now && start <= polls(i).now
    decreases i + j
  {
    if i < j {
      Later(polls, start, gap, i, j - 1);
      assert polls(j - 1 + 1).now - polls(j - 1).now > 0;
    } else if i > 0 {
      Later(polls, start, gap, 0, i - 1);
      assert polls(i - 1 + 1).now - polls(i - 1).now > 0;
    }
  }

  /** The first round at or after the window, when round n is one. */
  lemma {:induction false} FirstPastWindow(polls: Rounds, start: int, c: Check, gap: int, n: nat) returns (i: nat)
    requires Ticking(polls, start, gap) && c.window >= 0 && polls(n).now - start >= c.window
    ensures i <= n && c.window <= polls(i).now - start <= c.window + gap
  {
    if n > 0 && polls(n - 1).now - start >= c.window {
      i := FirstPastWindow(polls, start, c, gap, n - 1);
    } else {
      i := n;
      assert n > 0 ==> polls(n - 1 + 1).now - polls(n - 1).now <= gap;
    }
  }

  /** As long as the watch goes on it has not lasted longer than window, grace and two gaps. */
  lemma WatchIsShort(polls: Rounds, port: int, start: int, c: Check, gap: int, n: nat)
    requires Ticking(polls, start, gap) && c.window >= 0 && c.grace >= 0
    requires StillWatching(polls, port, start, c, n)
    ensures polls(n).now - start <= c.window + c.grace + 2 * gap
  {
    if n > 0 && polls(n - 1).now - start >= c.window {
      var i := FirstPastWindow(polls, start, c, gap, n - 1);
      forall k: nat | i <= k <= n - 1
        ensures polls(k).answers && Unproven(polls, port, k)
      {
        Later(polls, start, gap, i, k);
        assert Ends(polls, port, start, c, k) == None;
      }
      assert Ends(polls, port, start, c, n - 1) == None;
      if i < n - 1 {
        assert AnsweredSince(polls, port, i, n - 1);
        assert polls(n - 1).now - polls(i).now < c.grace;
      }
    }
    assert n > 0 ==> polls(n - 1 + 1).now - polls(n - 1).now <= gap;
  }

  // ---- the loop ----

  /** The variable unproven, at the start of round i, is the time of round j. */
  predicate RunFrom(polls: Rounds, port: int, unproven: Option<int>, j: nat, i: nat) {
    match unproven
    case None => i == 0 || !polls(i - 1).answers
    case Some(t) =>
      && j < i && t == polls(j).now && AnsweredSince(polls, port, j, i - 1)
      && (j == 0 || !polls(j - 1).answers)
  }

  lemma AnsweredAt(polls: Rounds, port: int, j: nat, i: nat, k: nat)
    requires AnsweredSince(polls, port, j, i)
    ensures j <= k <= i ==> polls(k).answers
  {}

  /** Only the whole run of answers matters: it reaches back furthest. */
  lemma TakenIff(polls: Rounds, port: int, start: int, c: Check, gap: int, unproven: Option<int>, j: nat, i: nat)
    requires Ticking(polls, start, gap) && RunFrom(polls, port, unproven, j, i)
    requires polls(i).answers && Unproven(polls, port, i)
    ensures TakenAt(polls, port, c, i) <==> unproven.Some? && polls(i).now - unproven.value >= c.grace
  {
    if unproven.Some? && polls(i).now - unproven.value >= c.grace {
      assert AnsweredSince(polls, port, j, i);
    }
    if TakenAt(polls, port, c, i) {
      var h: nat :| h < i && AnsweredSince(polls, port, h, i) && polls(i).now - polls(h).now >= c.grace;
      AnsweredAt(polls, port, h, i, i - 1);
      if unproven.Some? && j > 0 {
        AnsweredAt(polls, port, h, i, j - 1);
      }
      if unproven.Some? && j <= h {
        Later(polls, start, gap, j, h);
      }
    }
  }

  lemma RunGoesOn(polls: Rounds, port: int, unproven: Option<int>, j: nat, i: nat)
    requires RunFrom(polls, port, unproven, j, i) && polls(i).answers && Unproven(polls, port, i)
    ensures if unproven.None? then RunFrom(polls, port, Some(polls(i).now), i, i + 1)
            else RunFrom(polls, port, unproven, j, i + 1)
  {}

  lemma RunBreaks(polls: Rounds, port: int, j: nat, i: nat)
    requires !polls(i).answers
    ensures RunFrom(polls, port, None, j, i + 1)
    ensures !(exists h: nat | h < i :: AnsweredSince(polls, port, h, i))
  {}

  /** One more round without a verdict. */
  lemma WatchGoesOn(polls: Rounds, port: int, start: int, c: Check, gap: int, n: nat)
    requires Ticking(polls, start, gap) && c.window >= 0 && c.grace >= 0
    requires StillWatching(polls, port, start, c, n) && Ends(polls, port, start, c, n) == None
    ensures StillWatching(polls, port, start, c, n + 1) && polls(n + 1).now > polls(n).now
    ensures polls(n + 1).now - start <= c.window + c.grace + 2 * gap
  {
    WatchIsShort(polls, port, start, c, gap, n + 1);
  }

  /**
   * The watch ends, at the first round that ends it and with the verdict of that
   * round, and no later than window, grace and two gaps after its start.
   */
  method VerifyService(polls: Rounds, port: int, start: int, c: Check, ghost gap: int)
    returns (verdict: Verdict, n: nat)
    requires Ticking(polls, start, gap) && c.window >= 0 && c.grace >= 0
    ensures StillWatching(polls, port, start, c, n) && Ends(polls, port, start, c, n) == Some(verdict)
    ensures polls(n).now - start <= c.window + c.grace + 2 * gap
    ensures verdict == Proven <==> polls(n).registered == Some(port) && polls(n).proves
    ensures forall q: int :: verdict == WrongPort(q) <==> polls(n).registered == Some(q) && q != port
    ensures verdict == Taken <==>
              exists j: nat | j < n :: polls(n).now - polls(j).now >= c.grace && UnprovenAnswers(polls, port, j, n)
    ensures verdict == Quiet ==> polls(n).cancelled || (!polls(n).answers && polls(n).now - start >= c.window)
    ensures forall i: nat | i < n :: Undecided(polls, port, start, c, i)
  {
    verdict, n := Watch(polls, port, start, c, gap);
    VerdictMeans(polls, port, start, c, n);
    forall i: nat | i < n
      ensures Undecided(polls, port, start, c, i)
    {
      assert Ends(polls, port, start, c, i) == None;
      VerdictMeans(polls, port, start, c, i);
    }
  }

  method Watch(polls: Rounds, port: int, start: int, c: Check, ghost gap: int)
    returns (verdict: Verdict, n: nat)
    requires Ticking(polls, start, gap) && c.window >= 0 && c.grace >= 0
    ensures StillWatching(polls, port, start, c, n) && Ends(polls, port, start, c, n) == Some(verdict)
    ensures polls(n).now - start <= c.window + c.grace + 2 * gap
  {
    var unproven: Option<int> := None;
    ghost var j: nat := 0;
    var i: nat := 0;
    assert RunFrom(polls, port, unproven, j, i) && StillWatching(polls, port, start, c, 0);
    hide RunFrom, Ticking, StillWatching, AnsweredSince;
    WatchIsShort(polls, port, start, c, gap, 0);
    while true
      invariant StillWatching(polls, port, start, c, i) && RunFrom(polls, port, unproven, j, i)
      invariant polls(i).now - start <= c.window + c.grace + 2 * gap
      decreases c.window + c.grace + 2 * gap - (polls(i).now - start)
    {
      n := i;
      var reg := polls(i).registered;
      if reg.Some? {
        if reg.value != port {
          return WrongPort(reg.value), n;
        }
        if polls(i).proves {
          return Proven, n;
        }
      }
      var now := polls(i).now;
      if polls(i).answers {
        TakenIff(polls, port, start, c, gap, unproven, j, i);
        RunGoesOn(polls, port, unproven, j, i);
        if unproven.None? {
          unproven, j := Some(now), i;
        } else if now - unproven.value >= c.grace {
          return Taken, n;
        }
      } else {
        RunBreaks(polls, port, j, i);
        unproven := None;
        if now - start >= c.window {
          return Quiet, n;
        }
      }
      if polls(i).cancelled {
        return Quiet, n;
      }
      WatchGoesOn(polls, port, start, c, gap, i);
      i := i + 1;
    }
  }

  /** A refusal because the port was taken is never premature, and silence is never taken for a listener. */
  lemma RefusalJustified(polls: Rounds, port: int, start: int, c: Check, gap: int, n: nat)
    requires Ticking(polls, start, gap) && c.grace > 0
    requires Ends(polls, port, start, c, n) == Some(Taken)
    ensures exists j: nat | j < n :: AnsweredSince(polls, port, j, n) && polls(n).now >= polls(j).now + c.grace
    ensures polls(n).now - start >= c.grace
  {
    var j: nat :| j < n && AnsweredSince(polls, port, j, n) && polls(n).now - polls(j).now >= c.grace;
    Later(polls, start, gap, j, n);
  }
}
