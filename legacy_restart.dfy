/** The older Elasticsearch rolling restart, `EsRollingRestart` (app/core_features/RollingRestart.py).
    Its constructor is the one of `Es` (`Es.Init`); what differs is the client it builds and the
    restart loop, which swallows an exception and tries the same agent again. */
module LegacyRestart {
  import opened Base
  import opened Restart
  import Es

  /** Whether `connector()` returns a client. There is no `try` around it: without credentials the
      attribute `auth` was never set and reading it raises; credentials without a ':' make
      `self.auth[1]` raise. */
  predicate Connects(auth: Option<seq<string>>)
  {
    auth.Some? && |auth.value| >= 2
  }

  function RestartUrl(agent: string): string
  {
    agent + "/command/restart"
  }

  /** One agent's `while True` loop (RollingRestart.py:33-58). A probe or POST that raises inside
      the `try` is caught and the loop starts over for the same agent. Otherwise the recovery wait
      runs, whose probes are outside the `try`. */
  function NodeStep(agent: string, probes: seq<Health>, posts: seq<Reply>): Step<Health>
    decreases |probes|
  {
    if probes == [] then Step([], Stop(OutOfTrace), probes, posts)
    else if probes[0] == ProbeError then Prepend([Probed(ProbeError)], NodeStep(agent, probes[1..], posts))
    else if probes[0] == NotGreen then Prepend([Probed(NotGreen)], AwaitGreen(probes[1..], posts))
    else if posts == [] then Step([Probed(Green)], Stop(OutOfTrace), probes[1..], posts)
    else
      var acted := [Probed(Green), Posted(RestartUrl(agent), None, posts[0])];
      if posts[0] == PostError then Prepend(acted, NodeStep(agent, probes[1..], posts[1..]))
      else Prepend(acted, AwaitGreen(probes[1..], posts[1..]))
  }

  /** What one agent's step may look like: any number of attempts that raised, each a probe that
      raised or a green probe whose POST raised, followed by one attempt that did not raise and its
      wait for green. */
  predicate NodeLog(agent: string, seg: seq<Action>, exit: Exit)
    decreases |seg|
  {
    || (seg == [] && exit == Stop(OutOfTrace))
    || (seg == [Probed(Green)] && exit == Stop(OutOfTrace))
    || (|seg| >= 1 && seg[0] == Probed(ProbeError) && NodeLog(agent, seg[1..], exit))
    || (&& |seg| >= 2 && seg[0] == Probed(Green) && seg[1] == Posted(RestartUrl(agent), None, PostError)
        && NodeLog(agent, seg[2..], exit))
    || (|seg| >= 1 && seg[0] == Probed(NotGreen) && IsWait(seg[1..], exit))
    || (&& |seg| >= 2 && seg[0] == Probed(Green)
        && seg[1].Posted? && seg[1].url == RestartUrl(agent) && seg[1].port == None && seg[1].reply.Status?
        && IsWait(seg[2..], exit))
  }

  lemma {:induction false} NodeStepShape(agent: string, probes: seq<Health>, posts: seq<Reply>)
    ensures var s := NodeStep(agent, probes, posts); NodeLog(agent, s.actions, s.exit)
    decreases |probes|
  {
    if probes != [] {
      var s := NodeStep(agent, probes, posts);
      if probes[0] == ProbeError {
        NodeStepShape(agent, probes[1..], posts);
        assert s.actions[1..] == NodeStep(agent, probes[1..], posts).actions;
      } else if probes[0] == NotGreen {
        assert s.actions[1..] == AwaitGreen(probes[1..], posts).actions;
      } else if posts != [] && posts[0] == PostError {
        NodeStepShape(agent, probes[1..], posts[1..]);
        assert s.actions[2..] == NodeStep(agent, probes[1..], posts[1..]).actions;
      } else if posts != [] {
        assert s.actions[2..] == AwaitGreen(probes[1..], posts[1..]).actions;
      }
    }
  }

  /** The facts each agent's step guarantees: every POST follows a green probe and goes to this
      agent's restart URL; the step never returns False, and it moves on only after a green probe. */
  lemma {:induction false} NodeLogFacts(agent: string, seg: seq<Action>, exit: Exit)
    requires NodeLog(agent, seg, exit)
    ensures PostsGated(seg)
    ensures forall j :: 0 <= j < |seg| && seg[j].Posted? ==> seg[j].url == RestartUrl(agent)
    ensures exit == Advance ==> EndsGreen(seg)
    ensures exit != Stop(Failed) && exit != Stop(Done)
    decreases |seg|
  {
    if |seg| >= 1 && seg[0] == Probed(ProbeError) && NodeLog(agent, seg[1..], exit) {
      var t := seg[1..];
      NodeLogFacts(agent, t, exit);
      assert seg == [seg[0]] + t;
      PostsGatedConcat([seg[0]], t);
      assert forall j :: 1 <= j < |seg| ==> seg[j] == t[j - 1];
      if exit == Advance {
        assert seg[|seg| - 1] == t[|t| - 1];
      }
    } else if |seg| >= 2 && seg[0] == Probed(Green) && seg[1] == Posted(RestartUrl(agent), None, PostError)
      && NodeLog(agent, seg[2..], exit) {
      var t := seg[2..];
      NodeLogFacts(agent, t, exit);
      assert seg == seg[..2] + t;
      PostsGatedConcat(seg[..2], t);
      assert forall j :: 2 <= j < |seg| ==> seg[j] == t[j - 2];
      if exit == Advance {
        assert seg[|seg| - 1] == t[|t| - 1];
      }
    } else if |seg| >= 1 && seg[0] == Probed(NotGreen) && IsWait(seg[1..], exit) {
      WaitHasNoPost(seg[1..], exit);
      assert forall j :: 1 <= j < |seg| ==> seg[j] == seg[1..][j - 1];
    } else if |seg| >= 2 && seg[0] == Probed(Green) && seg[1].Posted? && IsWait(seg[2..], exit) {
      WaitHasNoPost(seg[2..], exit);
      assert forall j :: 2 <= j < |seg| ==> seg[j] == seg[2..][j - 2];
    }
  }

  /** The `for node in self.agents` loop, from a given agent on; finishing it returns True. */
  function RunFrom(agents: seq<string>, probes: seq<Health>, posts: seq<Reply>): Run
    decreases |agents|
  {
    if agents == [] then Run([], Done)
    else
      var s := NodeStep(agents[0], probes, posts);
      if s.exit == Advance then Continue([s.actions], RunFrom(agents[1..], s.probes, s.posts))
      else Run([s.actions], s.exit.outcome)
  }

  /** `RollingRestart`: the client is built first, outside any `try`. */
  function RollingRestartRun(d: Es.Driver, probes: seq<Health>, posts: seq<Reply>): Run
  {
    if Connects(d.auth) then RunFrom(d.agents, probes, posts) else Run([], Raised)
  }

  lemma {:induction false} RunShape(agents: seq<string>, probes: seq<Health>, posts: seq<Reply>)
    ensures var r := RunFrom(agents, probes, posts);
      && |r.segments| <= |agents|
      && (r.outcome == Done ==> |r.segments| == |agents|)
      && (r.outcome != Done ==> |r.segments| >= 1)
      && forall i :: 0 <= i < |r.segments| ==> NodeLog(agents[i], r.segments[i], SegmentExit(r, i))
    decreases |agents|
  {
    if agents != [] {
      var s := NodeStep(agents[0], probes, posts);
      NodeStepShape(agents[0], probes, posts);
      NodeLogFacts(agents[0], s.actions, s.exit);
      var r := RunFrom(agents, probes, posts);
      if s.exit == Advance {
        var rest := RunFrom(agents[1..], s.probes, s.posts);
        RunShape(agents[1..], s.probes, s.posts);
        assert r == Continue([s.actions], rest);
        forall i | 0 <= i < |r.segments|
          ensures NodeLog(agents[i], r.segments[i], SegmentExit(r, i))
        {
          if i > 0 {
            assert r.segments[i] == rest.segments[i - 1];
            assert agents[i] == agents[1..][i - 1];
            assert SegmentExit(r, i) == SegmentExit(rest, i - 1);
          }
        }
      }
    }
  }

  /** The promises of RollingRestart.py:30-60. Every restart POST comes right after a green probe
      and goes to the agent whose turn it is; agents are taken in order, and the next one is not
      touched before a probe returned green; the run never returns False, and it returns True only
      after every agent was passed. */
  lemma RollingRestartSafety(d: Es.Driver, probes: seq<Health>, posts: seq<Reply>)
    ensures var r := RollingRestartRun(d, probes, posts);
      && PostsGated(Flatten(r.segments))
      && |r.segments| <= |d.agents|
      && (forall i, j :: 0 <= i < |r.segments| && 0 <= j < |r.segments[i]| && r.segments[i][j].Posted? ==>
            r.segments[i][j].url == RestartUrl(d.agents[i]))
      && (forall i :: 0 <= i < |r.segments| - 1 ==> EndsGreen(r.segments[i]))
      && (r.outcome == Done ==> |r.segments| == |d.agents| && forall i :: 0 <= i < |r.segments| ==> EndsGreen(r.segments[i]))
      && r.outcome != Failed
  {
    var r := RollingRestartRun(d, probes, posts);
    if Connects(d.auth) {
      RunShape(d.agents, probes, posts);
      forall i | 0 <= i < |r.segments|
        ensures PostsGated(r.segments[i])
        ensures forall j :: 0 <= j < |r.segments[i]| && r.segments[i][j].Posted? ==>
          r.segments[i][j].url == RestartUrl(d.agents[i])
        ensures SegmentExit(r, i) == Advance ==> EndsGreen(r.segments[i])
        ensures SegmentExit(r, i) != Stop(Failed)
      {
        NodeLogFacts(d.agents[i], r.segments[i], SegmentExit(r, i));
      }
      PostsGatedFlatten(r.segments);
      if r.outcome != Done {
        assert SegmentExit(r, |r.segments| - 1) == Stop(r.outcome);
      }
    }
  }

  /** One agent's `while True` loop, as RollingRestart.py:33-58 runs it. */
  method RestartNode(agent: string, probes: seq<Health>, posts: seq<Reply>) returns (s: Step<Health>)
    ensures s == NodeStep(agent, probes, posts)
  {
    var restProbes, restPosts := probes, posts;
    var log: seq<Action> := [];
    while true
      invariant NodeStep(agent, probes, posts) == Prepend(log, NodeStep(agent, restProbes, restPosts))
      decreases |restProbes|
    {
      if restProbes == [] {
        return Step(log, Stop(OutOfTrace), restProbes, restPosts);
      }
      var health := restProbes[0];
      ghost var before, beforePosts := restProbes, restPosts;
      restProbes := restProbes[1..];
      if health == ProbeError {
        // Caught by the `except` clause; the same agent is tried again.
        assert NodeStep(agent, before, beforePosts) == Prepend([Probed(ProbeError)], NodeStep(agent, restProbes, restPosts));
        PrependTwice(log, [Probed(ProbeError)], NodeStep(agent, restProbes, restPosts));
        log := log + [Probed(ProbeError)];
      } else if health == NotGreen {
        var w := WaitForGreen(restProbes, restPosts);
        assert NodeStep(agent, before, beforePosts) == Prepend([Probed(NotGreen)], w);
        PrependTwice(log, [Probed(NotGreen)], w);
        return Prepend(log + [Probed(NotGreen)], w);
      } else {
        if restPosts == [] {
          return Step(log + [Probed(Green)], Stop(OutOfTrace), restProbes, restPosts);
        }
        var reply := restPosts[0];
        restPosts := restPosts[1..];
        var acted := [Probed(Green), Posted(RestartUrl(agent), None, reply)];
        if reply != PostError {
          // Any status is accepted: the recovery wait follows.
          var w := WaitForGreen(restProbes, restPosts);
          assert NodeStep(agent, before, beforePosts) == Prepend(acted, w);
          PrependTwice(log, acted, w);
          return Prepend(log + acted, w);
        }
        assert NodeStep(agent, before, beforePosts) == Prepend(acted, NodeStep(agent, restProbes, restPosts));
        PrependTwice(log, acted, NodeStep(agent, restProbes, restPosts));
        log := log + acted;
      }
    }
  }

  /** `EsRollingRestart.RollingRestart` (RollingRestart.py:30-60). */
  method RollingRestart(d: Es.Driver, probes: seq<Health>, posts: seq<Reply>) returns (run: Run)
    ensures run == RollingRestartRun(d, probes, posts)
  {
    if !Connects(d.auth) {
      return Run([], Raised);
    }
    var restProbes, restPosts := probes, posts;
    var segments: seq<seq<Action>> := [];
    var i := 0;
    while i < |d.agents|
      invariant 0 <= i <= |d.agents|
      invariant RunFrom(d.agents, probes, posts) == Continue(segments, RunFrom(d.agents[i..], restProbes, restPosts))
    {
      assert d.agents[i..][1..] == d.agents[i + 1..];
      var s := RestartNode(d.agents[i], restProbes, restPosts);
      segments := segments + [s.actions];
      if s.exit != Advance {
        return Run(segments, s.exit.outcome);
      }
      restProbes, restPosts := s.probes, s.posts;
      i := i + 1;
    }
    run := Run(segments, Done);
  }
}
