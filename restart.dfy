/** The vocabulary shared by the three rolling-restart loops. The cluster-health probes and the
    restart POSTs they issue are not performed here: each one reads the next entry of an input
    trace, and a run records, agent by agent, the actions it took and how it ended. */
module Restart {
  import opened Base

  /** What one cluster-health probe yields: status "green", any other status, or an exception. */
  datatype Health = Green | NotGreen | ProbeError

  /** What one POST yields: an HTTP status code, or an exception raised by the transport. */
  datatype Reply = Status(code: int) | PostError

  datatype Action =
    | Probed(health: Health)
    | Posted(url: string, port: Option<int>, reply: Reply)

  /** How a run ends: it returned True, it returned False, an exception propagated out of it, or
      a trace ran out before the loop would have returned. */
  datatype Outcome = Done | Failed | Raised | OutOfTrace

  /** How one agent's step ends: the loop moves on to the next agent, or the run stops. */
  datatype Exit = Advance | Stop(outcome: Outcome)

  /** One agent's step: the actions taken, how it ended, and what is left of the two traces. */
  datatype Step<H> = Step(actions: seq<Action>, exit: Exit, probes: seq<H>, posts: seq<Reply>)

  /** A whole run: the actions taken for each agent reached, in agent order, and the outcome. */
  datatype Run = Run(segments: seq<seq<Action>>, outcome: Outcome)

  function Prepend<H>(acts: seq<Action>, s: Step<H>): Step<H>
  {
    s.(actions := acts + s.actions)
  }

  lemma PrependTwice<H>(a: seq<Action>, b: seq<Action>, s: Step<H>)
    ensures Prepend(a, Prepend(b, s)) == Prepend(a + b, s)
  {
    assert a + (b + s.actions) == a + b + s.actions;
  }

  /** A run that starts with the given segments and goes on as `r`. */
  function Continue(segments: seq<seq<Action>>, r: Run): Run
  {
    Run(segments + r.segments, r.outcome)
  }

  /** How the step of the `i`-th agent reached ended: every segment but the last moved on, and the
      last one moved on only when the run is done. */
  function SegmentExit(r: Run, i: nat): Exit
  {
    if i + 1 < |r.segments| || r.outcome == Done then Advance else Stop(r.outcome)
  }

  /** All actions of a run, in the order they were taken. */
  function Flatten(segments: seq<seq<Action>>): seq<Action>
  {
    if segments == [] then [] else segments[0] + Flatten(segments[1..])
  }

  /** The last action of a step is a probe that returned green. */
  predicate EndsGreen(seg: seq<Action>)
  {
    |seg| >= 1 && seg[|seg| - 1] == Probed(Green)
  }

  /** Every restart POST comes immediately after a probe that returned green. */
  predicate PostsGated(log: seq<Action>)
  {
    forall i :: 0 <= i < |log| && log[i].Posted? ==> 0 < i && log[i - 1] == Probed(Green)
  }

  lemma PostsGatedConcat(a: seq<Action>, b: seq<Action>)
    requires PostsGated(a) && PostsGated(b)
    ensures PostsGated(a + b)
  {
    forall i | 0 <= i < |a + b| && (a + b)[i].Posted?
      ensures 0 < i && (a + b)[i - 1] == Probed(Green)
    {
      if i >= |a| {
        assert (a + b)[i] == b[i - |a|];
      }
    }
  }

  /** Gated segments make a gated run: the gate never straddles two agents. */
  lemma {:induction false} PostsGatedFlatten(segments: seq<seq<Action>>)
    requires forall i :: 0 <= i < |segments| ==> PostsGated(segments[i])
    ensures PostsGated(Flatten(segments))
    decreases |segments|
  {
    if segments != [] {
      PostsGatedFlatten(segments[1..]);
      PostsGatedConcat(segments[0], Flatten(segments[1..]));
    }
  }

  /** The shape of a wait for green: probes that were not green, ended by a green one (the loop
      moves on), by an exception (which propagates), or by the end of the trace. */
  predicate IsWait(w: seq<Action>, exit: Exit)
  {
    && (forall i :: 0 <= i < |w| - 1 ==> w[i] == Probed(NotGreen))
    && match exit
       case Advance => w != [] && w[|w| - 1] == Probed(Green)
       case Stop(o) =>
         || (o == Raised && w != [] && w[|w| - 1] == Probed(ProbeError))
         || (o == OutOfTrace && forall i :: 0 <= i < |w| ==> w[i] == Probed(NotGreen))
  }

  /** A wait issues no POST. */
  lemma WaitHasNoPost(w: seq<Action>, exit: Exit)
    requires IsWait(w, exit)
    ensures forall i :: 0 <= i < |w| ==> !w[i].Posted?
  {
    forall i | 0 <= i < |w| ensures !w[i].Posted? {
      if i < |w| - 1 {
        assert w[i] == Probed(NotGreen);
      }
    }
  }

  /** The log of a run of probes. */
  function ProbeLog(hs: seq<Health>): seq<Action>
  {
    if hs == [] then [] else [Probed(hs[0])] + ProbeLog(hs[1..])
  }

  /** The recovery wait `while health()['status'] != "green"`, which polls without a bound; the
      probes it issues sit outside the `try`, so an exception there propagates. */
  function AwaitGreen(probes: seq<Health>, posts: seq<Reply>): (s: Step<Health>)
    ensures IsWait(s.actions, s.exit)
    ensures s.posts == posts
    ensures |s.actions| <= |probes| && s.probes == probes[|s.actions|..]
    ensures s.actions == ProbeLog(probes[..|s.actions|])
    decreases |probes|
  {
    if probes == [] then Step([], Stop(OutOfTrace), probes, posts)
    else if probes[0] == Green then Step([Probed(Green)], Advance, probes[1..], posts)
    else if probes[0] == ProbeError then Step([Probed(ProbeError)], Stop(Raised), probes[1..], posts)
    else
      var r := AwaitGreen(probes[1..], posts);
      assert probes[..1 + |r.actions|][1..] == probes[1..][..|r.actions|];
      Prepend([Probed(NotGreen)], r)
  }

  method WaitForGreen(probes: seq<Health>, posts: seq<Reply>) returns (s: Step<Health>)
    ensures s == AwaitGreen(probes, posts)
  {
    var rest := probes;
    var log: seq<Action> := [];
    while true
      invariant AwaitGreen(probes, posts) == Prepend(log, AwaitGreen(rest, posts))
      decreases |rest|
    {
      if rest == [] {
        return Step(log, Stop(OutOfTrace), rest, posts);
      }
      var h := rest[0];
      ghost var before := rest;
      rest := rest[1..];
      if h == Green {
        return Step(log + [Probed(Green)], Advance, rest, posts);
      } else if h == ProbeError {
        return Step(log + [Probed(ProbeError)], Stop(Raised), rest, posts);
      }
      assert AwaitGreen(before, posts) == Prepend([Probed(NotGreen)], AwaitGreen(rest, posts));
      log := log + [Probed(NotGreen)];
    }
  }
}
