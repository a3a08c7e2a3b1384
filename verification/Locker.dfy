/** The coalescing lock of src/utils/helpers.ts: one run of `fn` at a time, and calls that
    arrive during a run are merged into one later run that uses the newest arguments. */
module CoalescingLock {
  import opened Prelude

  /** What the outside world does: a client (or `fn` itself) calls `exec`, or a run of `fn` settles. */
  datatype Event<T> = Call(args: T) | Settled(failed: bool)

  /** The two fields of the class, and the arguments `fn` was started with so far. */
  datatype State<T> = State(locked: bool, args: Option<T>, started: seq<T>)

  function Initial<T>(): State<T> { State(false, None, []) }

  /** The synchronous part of `exec`. */
  function ExecStep<T>(s: State<T>, a: T): State<T> {
    if s.locked then s.(args := Some(a)) else State(true, s.args, s.started + [a])
  }

  /** `deffered`: restart with the stored arguments, if there are any. */
  function DeferredStep<T>(s: State<T>): State<T> {
    match s.args
    case None => s
    case Some(a) => ExecStep(s.(args := None), a)
  }

  function Step<T>(s: State<T>, e: Event<T>): State<T> {
    match e
    case Call(a) => ExecStep(s, a)
    case Settled(_) => DeferredStep(s.(locked := false))
  }

  function Run<T>(es: seq<Event<T>>): State<T> {
    if es == [] then Initial() else Step(Run(es[..|es| - 1]), Last(es))
  }

  /** The arguments of all calls, oldest first. */
  function Calls<T>(es: seq<Event<T>>): seq<T> {
    if es == [] then []
    else Calls(es[..|es| - 1]) + match Last(es) case Call(a) => [a] case Settled(_) => []
  }

  function Settlements<T>(es: seq<Event<T>>): nat {
    if es == [] then 0 else Settlements(es[..|es| - 1]) + if Last(es).Settled? then 1 else 0
  }

  /** Runs of `fn` that started and have not settled. */
  function InFlight<T>(es: seq<Event<T>>): int {
    |Run(es).started| - Settlements(es)
  }

  /** Only a run in flight can settle. Nothing else is assumed about the interleaving. */
  predicate Feasible<T>(es: seq<Event<T>>) {
    es == [] ||
    (Feasible(es[..|es| - 1]) && (Last(es).Settled? ==> InFlight(es[..|es| - 1]) > 0))
  }

  /** At most one run is in flight, and `locked` says whether there is one. */
  lemma {:induction false} SingleFlight<T>(es: seq<Event<T>>)
    requires Feasible(es)
    ensures 0 <= InFlight(es) <= 1
    ensures Run(es).locked <==> InFlight(es) == 1
    ensures !Run(es).locked ==> Run(es).args.None?
  {
    if es != [] { SingleFlight(es[..|es| - 1]); }
  }

  /** Whenever the lock is free the newest run used the newest arguments; while it is held the
      newest arguments are those in use or those stored. */
  lemma {:induction false} NoLostUpdate<T>(es: seq<Event<T>>)
    requires Feasible(es) && Calls(es) != []
    ensures var s := Run(es);
      && s.started != []
      && (s.args.None? ==> Last(s.started) == Last(Calls(es)))
      && (s.args.Some? ==> s.locked && s.args.value == Last(Calls(es)))
      && (!s.locked ==> Last(s.started) == Last(Calls(es)))
  {
    var before := es[..|es| - 1];
    SingleFlight(es);
    SingleFlight(before);
    if Calls(before) != [] {
      NoLostUpdate(before);
    } else {
      NothingStartsUncalled(before);
    }
  }

  lemma {:induction false} NothingStartsUncalled<T>(es: seq<Event<T>>)
    requires Calls(es) == []
    ensures Run(es).started == [] && Run(es).args.None?
  {
    if es != [] { NothingStartsUncalled(es[..|es| - 1]); }
  }

  /** For each started run, the position of the call it serves. */
  function Origins<T>(es: seq<Event<T>>): seq<nat> {
    if es == [] then []
    else
      var before := es[..|es| - 1];
      if |Run(es).started| == |Run(before).started| then Origins(before)
      else
        var n := |Calls(before)|;
        Origins(before) + [if Last(es).Call? then n else if n > 0 then n - 1 else 0]
  }

  /** Runs start in call order, each call is served at most once, with its own arguments. */
  lemma {:induction false} RunsAreASubsequenceOfCalls<T>(es: seq<Event<T>>)
    requires Feasible(es)
    ensures |Origins(es)| == |Run(es).started| <= |Calls(es)|
    ensures forall i, j :: 0 <= i < j < |Origins(es)| ==> Origins(es)[i] < Origins(es)[j]
    ensures forall i :: 0 <= i < |Origins(es)| ==>
      Origins(es)[i] < |Calls(es)| && Run(es).started[i] == Calls(es)[Origins(es)[i]]
    ensures Run(es).args.Some? ==>
      |Run(es).started| < |Calls(es)| && Run(es).started != [] && Last(Origins(es)) < |Calls(es)| - 1
  {
    if es != [] {
      var before := es[..|es| - 1];
      RunsAreASubsequenceOfCalls(before);
      SingleFlight(before);
      if Calls(before) != [] {
        NoLostUpdate(before);
      } else {
        NothingStartsUncalled(before);
      }
    }
  }

  /** After the last call at most one more run starts, and it uses that call's arguments. */
  lemma {:induction false} AtMostOneRunAfterLastCall<T>(es: seq<Event<T>>, tail: seq<Event<T>>)
    requires Feasible(es + tail)
    requires forall e :: e in tail ==> e.Settled?
    ensures Feasible(es)
    ensures tail != [] && Run(es).args.Some? ==>
      Run(es + tail).started == Run(es).started + [Last(Calls(es))]
    ensures tail == [] || Run(es).args.None? ==> Run(es + tail).started == Run(es).started
    ensures tail != [] ==> Run(es + tail).args.None?
    ensures |tail| <= 2
  {
    if tail == [] {
      assert es + tail == es;
    } else {
      var shorter := tail[..|tail| - 1];
      assert (es + tail)[..|es + tail| - 1] == es + shorter;
      AtMostOneRunAfterLastCall(es, shorter);
      SingleFlight(es + shorter);
      if shorter == [] {
        assert es + shorter == es;
        if Calls(es) != [] { NoLostUpdate(es); } else { NothingStartsUncalled(es); }
      } else {
        SettledTailBound(es, shorter);
      }
    }
  }

  /** Without calls, the number in flight falls by one per settlement, or stays for the one deferred run. */
  lemma {:induction false} SettledTailBound<T>(es: seq<Event<T>>, tail: seq<Event<T>>)
    requires Feasible(es + tail)
    requires tail != [] && forall e :: e in tail ==> e.Settled?
    ensures Run(es + tail).args.None?
    ensures |tail| >= 2 ==> !Run(es + tail).locked
  {
    var shorter := tail[..|tail| - 1];
    assert (es + tail)[..|es + tail| - 1] == es + shorter;
    if shorter != [] { SettledTailBound(es, shorter); }
  }

  /** The class of the source. `fn` is foreign, so a call of it is recorded in `started`. */
  class Locker<T> {
    var args: Option<T>
    var locked: bool
    var started: seq<T>
    ghost var history: seq<Event<T>>

    ghost predicate Valid() reads this {
      Feasible(history) && Run(history) == State(locked, args, started)
    }

    constructor ()
      ensures Valid() && history == [] && !locked && args == None && started == []
    {
      args, locked, started, history := None, false, [], [];
    }

    /** A call from a client, or from inside a run of `fn`. */
    method Exec(a: T)
      requires Valid()
      modifies this
      ensures Valid() && history == old(history) + [Call(a)]
      ensures old(locked) ==> locked && args == Some(a) && started == old(started)
      ensures !old(locked) ==> locked && args == old(args) && started == old(started) + [a]
    {
      history := history + [Call(a)];
      assert history[..|history| - 1] == old(history);
      Enter(a);
    }

    /** The body of `exec` up to its first await. `fn` sees the lock already taken. */
    method Enter(a: T)
      modifies this`args, this`locked, this`started
      ensures State(locked, args, started) == ExecStep(old(State(locked, args, started)), a)
    {
      if locked {
        args := Some(a);
        return;
      }
      locked := true;
      Invoke(a);
    }

    method Invoke(a: T)
      requires locked
      modifies this`started
      ensures started == old(started) + [a]
    {
      started := started + [a];
    }

    /** The `finally` block: `fn` returned or threw. */
    method Settle(failed: bool)
      requires Valid() && InFlight(history) > 0
      modifies this
      ensures Valid() && history == old(history) + [Settled(failed)]
      ensures old(args).None? ==> !locked && started == old(started)
      ensures old(args).Some? ==> locked && started == old(started) + [old(args).value]
      ensures args == None
    {
      history := history + [Settled(failed)];
      assert history[..|history| - 1] == old(history);
      locked := false;
      RunDeferred();
    }

    method RunDeferred()
      modifies this`args, this`locked, this`started
      ensures State(locked, args, started) == DeferredStep(old(State(locked, args, started)))
    {
      if args.Some? {
        var stored := args.value;
        args := None;
        Enter(stored);
      }
    }
  }
}
