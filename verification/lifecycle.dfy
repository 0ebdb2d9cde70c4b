/**
 * The task lifecycle (`BaseTask.run`) and the record of what a task does.
 *
 * Running a shell command is modelled as appending a `Shell` event to a
 * trace. Each lifecycle hook appends an `Enter` event when it starts, so the
 * order in which the hooks run is part of the trace. Whether a command exits
 * non-zero (and so raises) is an input: the set of failing calls.
 */
module Lifecycle {
  import opened Wrappers

  datatype Phase = Pre | Main | Post

  /**
   * One shell call: the command line, the directory `lcd` put it in (None:
   * the current directory), the variables `shell_env` set for it, and whether
   * its output is captured.
   */
  datatype Call = Call(command: string, dir: Option<string>, env: map<string, string>, capture: bool)

  datatype Event = Enter(phase: Phase) | Shell(call: Call)

  /** A plain call: current directory, no extra environment. */
  function Plain(command: string, capture: bool): Call {
    Call(command, None, map[], capture)
  }

  /** No call in `calls` raises. */
  predicate Succeeds(calls: seq<Call>, failing: set<Call>) {
    forall c :: c in calls ==> c !in failing
  }

  /**
   * The calls that actually run when `calls` are issued one after another:
   * every call up to and including the first one that raises.
   */
  function Attempted(calls: seq<Call>, failing: set<Call>): (r: seq<Call>)
    ensures r <= calls
    ensures Succeeds(calls, failing) ==> r == calls
    ensures !Succeeds(calls, failing) ==>
      r != [] && r[|r| - 1] in failing && Succeeds(r[..|r| - 1], failing)
    decreases |calls|
  {
    if calls == [] then []
    else if calls[0] in failing then [calls[0]]
    else
      var rest := Attempted(calls[1..], failing);
      assert calls == [calls[0]] + calls[1..];
      assert rest != [] ==> ([calls[0]] + rest)[..|rest|] == [calls[0]] + rest[..|rest| - 1];
      [calls[0]] + rest
  }

  lemma SucceedsAppend(xs: seq<Call>, ys: seq<Call>, failing: set<Call>)
    ensures Succeeds(xs + ys, failing) <==> Succeeds(xs, failing) && Succeeds(ys, failing)
  {
  }

  /** Issuing two lists of calls one after the other: the second runs only when the first raised nowhere. */
  lemma {:induction false} AttemptedAppend(xs: seq<Call>, ys: seq<Call>, failing: set<Call>)
    ensures Attempted(xs + ys, failing)
         == if Succeeds(xs, failing) then xs + Attempted(ys, failing) else Attempted(xs, failing)
    decreases |xs|
  {
    if xs == [] {
      assert xs + ys == ys;
    } else if xs[0] in failing {
      FirstFails(xs, ys, failing);
    } else {
      var zs := xs + ys;
      assert zs[0] == xs[0] && zs[1..] == xs[1..] + ys;
      AttemptedAppend(xs[1..], ys, failing);
      AttemptedStep(zs, failing);
      AttemptedStep(xs, failing);
      SucceedsStep(xs, failing);
      if Succeeds(xs, failing) {
        ConsAppend(xs, Attempted(ys, failing));
      }
    }
  }

  /** When the first call raises, nothing after it runs, whatever follows. */
  lemma FirstFails(xs: seq<Call>, ys: seq<Call>, failing: set<Call>)
    requires xs != [] && xs[0] in failing
    ensures Attempted(xs + ys, failing) == Attempted(xs, failing) == [xs[0]]
    ensures !Succeeds(xs, failing)
  {
    assert (xs + ys)[0] == xs[0];
    assert xs[0] in xs;
  }

  lemma ConsAppend(xs: seq<Call>, tail: seq<Call>)
    requires xs != []
    ensures [xs[0]] + (xs[1..] + tail) == xs + tail
  {
    assert xs == [xs[0]] + xs[1..];
  }

  lemma SucceedsStep(xs: seq<Call>, failing: set<Call>)
    requires xs != []
    ensures Succeeds(xs, failing) <==> xs[0] !in failing && Succeeds(xs[1..], failing)
  {
    assert xs == [xs[0]] + xs[1..];
    SucceedsAppend([xs[0]], xs[1..], failing);
  }

  lemma AttemptedStep(calls: seq<Call>, failing: set<Call>)
    requires calls != [] && calls[0] !in failing
    ensures Attempted(calls, failing) == [calls[0]] + Attempted(calls[1..], failing)
  {
  }

  function Shells(calls: seq<Call>): seq<Event> {
    seq(|calls|, i requires 0 <= i < |calls| => Shell(calls[i]))
  }

  /**
   * Issuing one call and then more: the call is recorded, and the rest run
   * only when it did not raise.
   */
  lemma ShellsStep(c: Call, rest: seq<Call>, failing: set<Call>)
    ensures Shells(Attempted([c] + rest, failing))
         == [Shell(c)] + (if c in failing then [] else Shells(Attempted(rest, failing)))
    ensures Succeeds([c] + rest, failing) <==> c !in failing && Succeeds(rest, failing)
  {
    var calls := [c] + rest;
    assert calls[0] == c && calls[1..] == rest;
    var a := Attempted(calls, failing);
    if c !in failing {
      AttemptedStep(calls, failing);
      assert Shells(a) == [Shell(c)] + Shells(Attempted(rest, failing)) by {
        assert a == [c] + Attempted(rest, failing);
      }
    } else {
      assert a == [c];
    }
    SucceedsAppend([c], rest, failing);
  }

  /** What the main hook records: its own entry, then the calls it got to make. */
  function MainPhase(calls: seq<Call>, failing: set<Call>): seq<Event> {
    [Enter(Main)] + Shells(Attempted(calls, failing))
  }

  /**
   * What `run` records: `pre_task`, then `run_main` with its calls, then
   * `post_task`, which is skipped when a call of the main hook raised.
   */
  function RunTrace(calls: seq<Call>, failing: set<Call>): seq<Event> {
    [Enter(Pre)] + MainPhase(calls, failing) + (if Succeeds(calls, failing) then [Enter(Post)] else [])
  }

  function Count(trace: seq<Event>, e: Event): nat
    decreases |trace|
  {
    if trace == [] then 0 else (if trace[0] == e then 1 else 0) + Count(trace[1..], e)
  }

  lemma {:induction false} CountAppend(a: seq<Event>, b: seq<Event>, e: Event)
    ensures Count(a + b, e) == Count(a, e) + Count(b, e)
    decreases |a|
  {
    if a == [] {
      assert a + b == b;
    } else {
      assert (a + b)[1..] == a[1..] + b;
      CountAppend(a[1..], b, e);
    }
  }

  lemma {:induction false} CountShells(calls: seq<Call>, p: Phase)
    ensures Count(Shells(calls), Enter(p)) == 0
    decreases |calls|
  {
    if calls != [] {
      assert Shells(calls)[1..] == Shells(calls[1..]);
      CountShells(calls[1..], p);
    }
  }

  /**
   * `run` enters `pre_task` first and `run_main` second, each exactly once;
   * it enters `post_task` exactly once, last, when no call of the main hook
   * raised, and never otherwise.
   */
  lemma LifecycleOrder(calls: seq<Call>, failing: set<Call>)
    ensures var t := RunTrace(calls, failing);
      && t[0] == Enter(Pre) && t[1] == Enter(Main)
      && Count(t, Enter(Pre)) == 1 && Count(t, Enter(Main)) == 1
      && Count(t, Enter(Post)) == (if Succeeds(calls, failing) then 1 else 0)
      && (Succeeds(calls, failing) ==> t[|t| - 1] == Enter(Post))
  {
    var shells := Shells(Attempted(calls, failing));
    var post: seq<Event> := if Succeeds(calls, failing) then [Enter(Post)] else [];
    var t := RunTrace(calls, failing);
    assert t == [Enter(Pre)] + ([Enter(Main)] + (shells + post));
    forall p: Phase
      ensures Count(t, Enter(p)) == (if p == Pre || p == Main then 1 else |post|)
    {
      CountAppend(shells, post, Enter(p));
      CountAppend([Enter(Main)], shells + post, Enter(p));
      CountAppend([Enter(Pre)], [Enter(Main)] + (shells + post), Enter(p));
      CountShells(Attempted(calls, failing), p);
      assert Count([Enter(Pre)], Enter(p)) == if p == Pre then 1 else 0;
      assert Count([Enter(Main)], Enter(p)) == if p == Main then 1 else 0;
      assert Count(post, Enter(p)) == if p == Post then |post| else 0;
    }
  }
}
