/**
 * The writing side of internal/audit: Emit calls that run at the same time take
 * a number, marshal, and append to the file, in any interleaving.
 */
module AuditTrail {
  import opened Wrappers
  import opened Sequences
  import opened AuditReader

  const TWO_TO_THE_64: nat := 0x1_0000_0000_0000_0000

  datatype Event<+Body> = Event(number: nat, body: Body)

  /** An Emit call between taking its number and writing; nth says which call for a number it was. */
  datatype Taken<+Body> = Taken(nth: nat, body: Body)

  /**
   * log holds one entry per write to the file and order the matching calls for a
   * number; unwritten holds the ones whose event did not marshal.
   */
  datatype Trail<Body> = Trail(
    count: nat, inFlight: map<nat, Taken<Body>>, log: seq<Attempt<Event<Body>>>, order: seq<nat>, unwritten: seq<nat>,
    warnings: nat, fatals: nat)

  function Start<Body>(): Trail<Body> {
    Trail(0, map[], [], [], [], 0, 0)
  }

  /** What one Emit call, named by a number of its own, does next. */
  datatype Step<Body> =
    | TakeNumber(call: nat, body: Body)
    | MarshalFails(call: nat)
    | Append(call: nat, wrote: nat)

  function Stamped<Body>(t: Taken<Body>): Event<Body> {
    Event(t.nth % TWO_TO_THE_64, t.body)
  }

  predicate Enabled<Body>(c: Codec<Event<Body>>, s: Trail<Body>, step: Step<Body>) {
    match step
    case TakeNumber(call, _) => call !in s.inFlight
    case MarshalFails(call) => call in s.inFlight
    case Append(call, wrote) => call in s.inFlight && wrote <= |c.enc(Stamped(s.inFlight[call]))| + 1
  }

  function Once(n: nat): nat {
    if n == 0 then 1 else n
  }

  function Next<Body>(c: Codec<Event<Body>>, strict: bool, s: Trail<Body>, step: Step<Body>): Trail<Body>
    requires Enabled(c, s, step)
  {
    match step
    case TakeNumber(call, body) =>
      s.(count := s.count + 1, inFlight := s.inFlight[call := Taken(s.count + 1, body)])
    case MarshalFails(call) =>
      s.(inFlight := s.inFlight - {call}, unwritten := s.unwritten + [s.inFlight[call].nth], warnings := Once(s.warnings))
    case Append(call, wrote) =>
      var t := s.inFlight[call];
      var a := Attempt(Stamped(t), wrote);
      var s1 := s.(inFlight := s.inFlight - {call}, log := s.log + [a], order := s.order + [t.nth]);
      if Whole(c, a) then s1
      else if strict then s1.(fatals := Once(s.fatals))
      else s1.(warnings := Once(s.warnings))
  }

  /** A run: the interleaved steps of any number of Emit calls; None when a step is not possible. */
  function Run<Body>(c: Codec<Event<Body>>, strict: bool, steps: seq<Step<Body>>): Option<Trail<Body>>
    decreases |steps|
  {
    if steps == [] then Some(Start())
    else
      var n := |steps| - 1;
      match Run(c, strict, steps[..n])
      case Some(s) => if Enabled(c, s, steps[n]) then Some(Next(c, strict, s, steps[n])) else None
      case None => None
  }

  // ---- every number is accounted for, once ----

  /** The call for a number is still on its way. */
  predicate OnItsWay<Body>(s: Trail<Body>, nth: nat) {
    exists call <- s.inFlight :: s.inFlight[call].nth == nth
  }

  ghost predicate Accounted<Body>(c: Codec<Event<Body>>, s: Trail<Body>) {
    && Distinct(s.order + s.unwritten)
    && (forall n: nat :: 1 <= n <= s.count <==> n in s.order + s.unwritten || OnItsWay(s, n))
    && (forall call <- s.inFlight :: s.inFlight[call].nth !in s.order + s.unwritten)
    && (forall p, q | p in s.inFlight && q in s.inFlight && p != q :: s.inFlight[p].nth != s.inFlight[q].nth)
    && |s.log| == |s.order| && Possible(c, s.log)
    && (forall i :: 0 <= i < |s.log| ==> s.log[i].event.number == s.order[i] % TWO_TO_THE_64)
    && s.warnings <= 1 && s.fatals <= 1
  }

  lemma TakeKeeps<Body(!new)>(c: Codec<Event<Body>>, strict: bool, s: Trail<Body>, call: nat, body: Body)
    requires Accounted(c, s) && call !in s.inFlight
    ensures Accounted(c, Next(c, strict, s, TakeNumber(call, body)))
  {
    var t := Next(c, strict, s, TakeNumber(call, body));
    assert t.inFlight[call].nth == s.count + 1 && s.count + 1 !in s.order + s.unwritten;
    forall n: nat
      ensures OnItsWay(t, n) <==> OnItsWay(s, n) || n == s.count + 1
    {
      if p :| p in s.inFlight && s.inFlight[p].nth == n {
        assert t.inFlight[p].nth == n;
      }
    }
    assert forall p <- s.inFlight :: OnItsWay(s, s.inFlight[p].nth) && t.inFlight[p] == s.inFlight[p];
  }

  /** A call that ends moves its number to the end of order or of unwritten. */
  lemma EndKeeps<Body(!new)>(c: Codec<Event<Body>>, s: Trail<Body>, t: Trail<Body>, call: nat)
    requires Accounted(c, s) && call in s.inFlight && t.count == s.count && t.inFlight == s.inFlight - {call}
    requires var nth := s.inFlight[call].nth;
             || (t.order == s.order + [nth] && t.unwritten == s.unwritten)
             || (t.order == s.order && t.unwritten == s.unwritten + [nth])
    ensures Distinct(t.order + t.unwritten)
    ensures forall n: nat :: 1 <= n <= t.count <==> n in t.order + t.unwritten || OnItsWay(t, n)
    ensures forall p <- t.inFlight :: t.inFlight[p].nth !in t.order + t.unwritten
  {
    var nth := s.inFlight[call].nth;
    forall n: nat
      ensures n in t.order + t.unwritten <==> n in s.order + s.unwritten || n == nth
      ensures OnItsWay(s, n) <==> OnItsWay(t, n) || n == nth
    {
      if p :| p in s.inFlight && s.inFlight[p].nth == n && n != nth {
        assert t.inFlight[p].nth == n;
      }
      if p :| p in t.inFlight && t.inFlight[p].nth == n {
        assert s.inFlight[p].nth == n;
      }
    }
    DistinctInsert(s.order, s.unwritten, nth);
  }

  lemma DistinctInsert(a: seq<nat>, b: seq<nat>, n: nat)
    requires Distinct(a + b) && n !in a + b
    ensures Distinct(a + [n] + b) && Distinct(a + (b + [n]))
  {
    var all := a + [n] + b;
    forall i, j | 0 <= i < j < |all|
      ensures all[i] != all[j]
    {
      var i0 := if i < |a| then i else i - 1;
      var j0 := if j < |a| then j else j - 1;
      assert i != |a| ==> all[i] == (a + b)[i0];
      assert j != |a| ==> all[j] == (a + b)[j0];
    }
    assert a + (b + [n]) == a + b + [n];
  }

  lemma LogKeeps<Body(!new)>(c: Codec<Event<Body>>, s: Trail<Body>, e: Event<Body>, wrote: nat, nth: nat)
    requires Accounted(c, s) && wrote <= |c.enc(e)| + 1 && e.number == nth % TWO_TO_THE_64
    ensures var log := s.log + [Attempt(e, wrote)];
            var order := s.order + [nth];
            Possible(c, log) && forall i :: 0 <= i < |log| ==> log[i].event.number == order[i] % TWO_TO_THE_64
  {}

  lemma StepKeeps<Body(!new)>(c: Codec<Event<Body>>, strict: bool, s: Trail<Body>, step: Step<Body>)
    requires Accounted(c, s) && Enabled(c, s, step)
    ensures Accounted(c, Next(c, strict, s, step))
  {
    if step.TakeNumber? {
      TakeKeeps(c, strict, s, step.call, step.body);
    } else {
      hide Distinct, OnItsWay, Whole, Possible;
      var t := Next(c, strict, s, step);
      EndKeeps(c, s, t, step.call);
      if step.Append? {
        LogKeeps(c, s, Stamped(s.inFlight[step.call]), step.wrote, s.inFlight[step.call].nth);
      }
      assert forall p <- t.inFlight :: p in s.inFlight && t.inFlight[p] == s.inFlight[p];
    }
  }

  /** In every interleaving each number is written, left unwritten or on its way, and only one of these. */
  lemma {:induction false} RunAccounts<Body(!new)>(c: Codec<Event<Body>>, strict: bool, steps: seq<Step<Body>>)
    requires Run(c, strict, steps).Some?
    ensures Accounted(c, Run(c, strict, steps).value)
    decreases |steps|
  {
    hide Next, Enabled;
    if steps == [] {
      StartAccounted(c);
    } else {
      hide Accounted;
      var n := |steps| - 1;
      RunAccounts(c, strict, steps[..n]);
      StepKeeps(c, strict, Run(c, strict, steps[..n]).value, steps[n]);
    }
  }

  lemma StartAccounted<Body(!new)>(c: Codec<Event<Body>>)
    ensures Accounted(c, Start<Body>())
  {}

  // ---- what a reader can tell ----

  /** The numbers written are distinct as long as the 64-bit counter does not come round. */
  lemma NumbersDistinct<Body(!new)>(c: Codec<Event<Body>>, s: Trail<Body>, i: nat, j: nat)
    requires Accounted(c, s) && s.count <= TWO_TO_THE_64 && i < j < |s.log|
    ensures s.log[i].event.number != s.log[j].event.number
  {
    var all := s.order + s.unwritten;
    assert all[i] == s.order[i] && all[j] == s.order[j];
    assert s.order[i] in all && s.order[j] in all;
    SmallMod(s.order[i], s.order[j]);
  }

  lemma SmallMod(a: nat, b: nat)
    requires 1 <= a <= TWO_TO_THE_64 && 1 <= b <= TWO_TO_THE_64 && a != b
    ensures a % TWO_TO_THE_64 != b % TWO_TO_THE_64
  {}

  lemma {:induction false} IntactMembers<Body(!new)>(
      c: Codec<Event<Body>>, log: seq<Attempt<Event<Body>>>, from: nat, e: Event<Body>)
    requires from <= |log|
    ensures e in IntactFrom(c, log, from) <==> exists i :: from <= i < |log| && Intact(c, log, i) && log[i].event == e
    decreases |log| - from
  {
    hide Intact;
    if from < |log| {
      IntactMembers(c, log, from + 1, e);
      if i :| from <= i < |log| && Intact(c, log, i) && log[i].event == e {
        assert i == from || from + 1 <= i;
      }
    }
  }

  /** The number of a call that has ended is read back. */
  ghost predicate ReadBack<Body>(c: Codec<Event<Body>>, s: Trail<Body>, n: nat) {
    exists e <- IntactFrom(c, s.log, 0) :: e.number == n
  }

  /**
   * Once no call is on its way, a number is missing from what is read exactly
   * when its event did not marshal, or its write was torn or joined to a torn one.
   */
  lemma MissingMarksFailed<Body(!new)>(c: Codec<Event<Body>>, s: Trail<Body>, n: nat)
    requires Accounted(c, s) && s.inFlight == map[] && 1 <= n <= s.count < TWO_TO_THE_64
    ensures !ReadBack(c, s, n) <==>
            n in s.unwritten || exists i :: 0 <= i < |s.log| && s.order[i] == n && !Intact(c, s.log, i)
  {
    hide Intact;
    var all := s.order + s.unwritten;
    assert n in all;
    forall i | 0 <= i < |s.log|
      ensures s.log[i].event.number == s.order[i]
      ensures n in s.unwritten ==> s.order[i] != n
    {
      assert all[i] == s.order[i] && s.order[i] in all;
      if n in s.unwritten {
        var j :| 0 <= j < |s.unwritten| && s.unwritten[j] == n;
        assert all[|s.order| + j] == n;
      }
    }
    if ReadBack(c, s, n) {
      var e :| e in IntactFrom(c, s.log, 0) && e.number == n;
      IntactMembers(c, s.log, 0, e);
      var i :| 0 <= i < |s.log| && Intact(c, s.log, i) && s.log[i].event == e;
      forall k | 0 <= k < |s.log| && s.order[k] == n
        ensures k == i
      {
        assert all[k] == all[i];
      }
    } else if n !in s.unwritten {
      var i :| 0 <= i < |s.order| && s.order[i] == n;
      IntactMembers(c, s.log, 0, s.log[i].event);
    }
  }

  /** Without failures every number from 1 to the count is read back, and nothing else, in the order of the writes. */
  lemma {:induction false} NothingMissing<Body(!new)>(c: Codec<Event<Body>>, s: Trail<Body>)
    requires Accounted(c, s) && s.inFlight == map[] && s.count < TWO_TO_THE_64
    requires s.unwritten == [] && forall i :: 0 <= i < |s.log| ==> Whole(c, s.log[i])
    ensures var events := IntactFrom(c, s.log, 0);
            && |events| == |s.log| && (forall i :: 0 <= i < |events| ==> events[i] == s.log[i].event)
            && (forall n: nat :: 1 <= n <= s.count <==> ReadBack(c, s, n))
    ensures !exists i :: 0 <= i < |s.log| && CorruptAt(c, s.log, i)
  {
    hide Intact;
    AllIntact(c, s.log, 0);
    assert s.order + s.unwritten == s.order;
    var events := IntactFrom(c, s.log, 0);
    forall i | 0 <= i < |s.log|
      ensures events[i].number == s.order[i] && 1 <= s.order[i] <= s.count
    {
      assert s.order[i] in s.order;
    }
    forall n: nat
      ensures 1 <= n <= s.count <==> ReadBack(c, s, n)
    {
      if n in s.order {
        var i :| 0 <= i < |s.order| && s.order[i] == n;
        assert events[i] in events;
      }
    }
  }

  lemma {:induction false} AllIntact<Body(!new)>(c: Codec<Event<Body>>, log: seq<Attempt<Event<Body>>>, from: nat)
    requires from <= |log| && forall i :: 0 <= i < |log| ==> Whole(c, log[i])
    ensures var events := IntactFrom(c, log, from);
            |events| == |log| - from && forall i :: 0 <= i < |events| ==> events[i] == log[from + i].event
    decreases |log| - from
  {
    if from < |log| {
      AllIntact(c, log, from + 1);
    }
  }

  // ---- the failure modes ----

  predicate SomeTorn<Body>(c: Codec<Event<Body>>, s: Trail<Body>) {
    exists i :: 0 <= i < |s.log| && !Whole(c, s.log[i])
  }

  /**
   * A strict auditor stops the program exactly when a write failed, and warns
   * only about events that do not marshal; another one never stops it, and warns
   * exactly when a write failed or an event did not marshal.
   */
  ghost predicate ModesOk<Body>(c: Codec<Event<Body>>, strict: bool, s: Trail<Body>) {
    && s.fatals == (if strict && SomeTorn(c, s) then 1 else 0)
    && s.warnings == (if s.unwritten != [] || (!strict && SomeTorn(c, s)) then 1 else 0)
  }

  lemma StepModes<Body(!new)>(c: Codec<Event<Body>>, strict: bool, s: Trail<Body>, step: Step<Body>)
    requires ModesOk(c, strict, s) && Enabled(c, s, step)
    ensures ModesOk(c, strict, Next(c, strict, s, step))
  {
    hide Whole;
    var t := Next(c, strict, s, step);
    if step.Append? {
      var a := t.log[|s.log|];
      TornSnoc(c, s, t, a);
    }
  }

  lemma TornSnoc<Body(!new)>(c: Codec<Event<Body>>, s: Trail<Body>, t: Trail<Body>, a: Attempt<Event<Body>>)
    requires t.log == s.log + [a]
    ensures SomeTorn(c, t) <==> SomeTorn(c, s) || !Whole(c, a)
  {
    hide Whole;
    assert forall i :: 0 <= i < |s.log| ==> t.log[i] == s.log[i];
    assert t.log[|s.log|] == a;
  }

  lemma {:induction false} RunModes<Body(!new)>(c: Codec<Event<Body>>, strict: bool, steps: seq<Step<Body>>)
    requires Run(c, strict, steps).Some?
    ensures ModesOk(c, strict, Run(c, strict, steps).value)
    decreases |steps|
  {
    hide ModesOk, Next, Enabled;
    if steps == [] {
      NothingYet(c, strict);
    } else {
      var n := |steps| - 1;
      RunModes(c, strict, steps[..n]);
      StepModes(c, strict, Run(c, strict, steps[..n]).value, steps[n]);
    }
  }

  lemma NothingYet<Body(!new)>(c: Codec<Event<Body>>, strict: bool)
    ensures ModesOk(c, strict, Start())
  {}

  // ---- which event carries which number ----

  /** The events of the Emit calls in the order in which these took their numbers. */
  function Bodies<Body>(steps: seq<Step<Body>>): seq<Body> {
    if steps == [] then []
    else
      var last := steps[|steps| - 1];
      Bodies(steps[..|steps| - 1]) + if last.TakeNumber? then [last.body] else []
  }

  /** Number n belongs to the n-th call that took one, on its way and in the file. */
  ghost predicate Own<Body>(bodies: seq<Body>, s: Trail<Body>) {
    && s.count == |bodies|
    && (forall call <- s.inFlight :: 1 <= s.inFlight[call].nth <= |bodies|
          && bodies[s.inFlight[call].nth - 1] == s.inFlight[call].body)
    && |s.log| == |s.order|
    && (forall i :: 0 <= i < |s.order| ==> 1 <= s.order[i] <= |bodies| && bodies[s.order[i] - 1] == s.log[i].event.body)
  }

  lemma StepOwn<Body(!new)>(c: Codec<Event<Body>>, strict: bool, s: Trail<Body>, step: Step<Body>, bodies: seq<Body>)
    requires Own(bodies, s) && Enabled(c, s, step)
    ensures Own(bodies + if step.TakeNumber? then [step.body] else [], Next(c, strict, s, step))
  {}

  /** Whatever the interleaving, each number in the file comes with the event of the call that took it. */
  lemma {:induction false} RunOwn<Body(!new)>(c: Codec<Event<Body>>, strict: bool, steps: seq<Step<Body>>)
    requires Run(c, strict, steps).Some?
    ensures Own(Bodies(steps), Run(c, strict, steps).value)
    decreases |steps|
  {
    hide Own, Next, Enabled;
    if steps == [] {
      NoneTaken<Body>();
    } else {
      var n := |steps| - 1;
      RunOwn(c, strict, steps[..n]);
      StepOwn(c, strict, Run(c, strict, steps[..n]).value, steps[n], Bodies(steps[..n]));
    }
  }

  lemma NoneTaken<Body(!new)>()
    ensures Own([], Start<Body>())
  {}

  // ---- the auditor ----

  lemma AloneTakes<Body>(c: Codec<Event<Body>>, strict: bool, s: Trail<Body>, call: nat, body: Body)
    requires call !in s.inFlight
    ensures var s1 := Next(c, strict, s, TakeNumber(call, body));
            call in s1.inFlight && Stamped(s1.inFlight[call]) == Event((s.count + 1) % TWO_TO_THE_64, body)
  {}

  /** The steps of one call with no other in between. */
  function Alone<Body>(
      c: Codec<Event<Body>>, strict: bool, s: Trail<Body>, call: nat, body: Body, marshals: bool, wrote: nat): Trail<Body>
    requires call !in s.inFlight && wrote <= |c.enc(Event((s.count + 1) % TWO_TO_THE_64, body))| + 1
  {
    var s1 := Next(c, strict, s, TakeNumber(call, body));
    Next(c, strict, s1, if marshals then Append(call, wrote) else MarshalFails(call))
  }

  /** The live auditor. The ghost fields record what its methods have done. */
  class Auditor<Body(!new)> {
    const c: Codec<Event<Body>>
    const strict: bool
    /** An unsigned 64-bit counter. */
    var n: nat
    /** The record and how much of it reached the file, write by write. */
    var file: seq<Attempt<Event<Body>>>
    var warned: bool
    var stopped: bool
    ghost var trail: Trail<Body>

    ghost predicate Valid()
      reads this
    {
      && Accounted(c, trail)
      && n == trail.count % TWO_TO_THE_64 && file == trail.log
      && trail.warnings == (if warned then 1 else 0) && trail.fatals == (if stopped then 1 else 0)
    }

    constructor (c: Codec<Event<Body>>, strict: bool)
      ensures Valid() && trail == Start() && this.c == c && this.strict == strict
    {
      this.c, this.strict := c, strict;
      n, file, warned, stopped, trail := 0, [], false, false, Start();
    }

    /** The atomic increment that hands out a number. */
    method TakeNumber(ghost call: nat, ghost body: Body) returns (number: nat)
      requires Valid() && call !in trail.inFlight
      modifies this`n, this`trail
      ensures Valid() && trail == Next(c, strict, old(trail), Step.TakeNumber(call, body))
      ensures number == Stamped(trail.inFlight[call]).number
    {
      StepKeeps(c, strict, trail, Step.TakeNumber(call, body));
      n := (n + 1) % TWO_TO_THE_64;
      trail := Next(c, strict, trail, Step.TakeNumber(call, body));
      number := n;
    }

    /** json.Marshal failed: warn, once in the life of the auditor. */
    method WarnMarshal(ghost call: nat)
      requires Valid() && call in trail.inFlight
      modifies this`warned, this`trail
      ensures Valid() && trail == Next(c, strict, old(trail), MarshalFails(call))
    {
      StepKeeps(c, strict, trail, MarshalFails(call));
      trail := Next(c, strict, trail, MarshalFails(call));
      warned := true;
    }

    /** fileSink.write under its lock, and onWriteError; wrote is what the file system accepts. */
    method Write(ghost call: nat, ev: Event<Body>, wrote: nat)
      requires Valid() && call in trail.inFlight && ev == Stamped(trail.inFlight[call])
      requires wrote <= |c.enc(ev)| + 1
      modifies this`file, this`warned, this`stopped, this`trail
      ensures Valid() && trail == Next(c, strict, old(trail), Append(call, wrote))
    {
      StepKeeps(c, strict, trail, Append(call, wrote));
      trail := Next(c, strict, trail, Append(call, wrote));
      file := file + [Attempt(ev, wrote)];
      if wrote < |c.enc(ev)| + 1 {
        if strict {
          stopped := true;
        } else {
          warned := true;
        }
      }
    }

    /** Emit with no other call in between; marshals and wrote say how its two fallible steps go. */
    method Emit(ghost call: nat, body: Body, marshals: bool, wrote: nat)
      requires Valid() && call !in trail.inFlight
      requires wrote <= |c.enc(Event((trail.count + 1) % TWO_TO_THE_64, body))| + 1
      modifies this
      ensures Valid() && trail == Alone(c, strict, old(trail), call, body, marshals, wrote)
    {
      hide Accounted, Next;
      AloneTakes(c, strict, trail, call, body);
      var number := TakeNumber(call, body);
      if marshals {
        Write(call, Event(number, body), wrote);
      } else {
        WarnMarshal(call);
      }
    }
  }
}
