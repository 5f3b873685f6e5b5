/** The Elasticsearch driver (app/core_features/ES.py): the agent address of each node, the
    rolling restart gated on cluster health, and the configuration fan-out. The cluster client and
    the agents are not contacted: each health probe and each POST reads the next entry of a trace. */
module Es {
  import opened Base
  import opened Text
  import opened Restart
  import opened Fanout

  /** The driver after `__init__`: the nodes as given, one agent address per node, and the
      credentials split at ':' when they were given. */
  datatype Driver = Driver(nodes: seq<string>, agents: seq<string>, auth: Option<seq<string>>)

  /** The agent of a node: every "https" becomes "http", the text from the last ':' on is dropped,
      and ":5000" is appended. */
  function AgentAddress(node: string): (agent: string)
    ensures |agent| >= 5 && agent[|agent| - 5..] == ":5000"
  {
    BeforeLast(ReplaceAll(node, "https", "http"), ':') + ":5000"
  }

  /** A node URL `scheme://host:port` has its agent at `http://host:5000`, whether the node itself
      speaks http or https. */
  lemma AgentOfNodeUrl(scheme: string, host: string, port: string)
    requires scheme == "http" || scheme == "https"
    requires ':' !in host && ':' !in port && !Occurs(host + ":" + port, "https")
    ensures AgentAddress(scheme + "://" + host + ":" + port) == "http://" + host + ":5000"
  {
    var rest := host + ":" + port;
    var u := "http://" + rest;
    RewritesScheme(scheme, rest);
    assert scheme + "://" + host + ":" + port == scheme + "://" + rest;
    var p := 7 + |host|;
    assert u[p] == ':' && u[p + 1..] == port && u[..p] == "http://" + host;
    BeforeLastAt(u, ':', p);
  }

  /** A node URL without a port loses its host: the last ':' is the one after the scheme. */
  lemma AgentOfPortlessUrl(host: string)
    requires ':' !in host && !Occurs(host, "https")
    ensures AgentAddress("https://" + host) == "http:5000"
  {
    var u := "http://" + host;
    RewritesScheme("https", host);
    assert "https" + "://" + host == "https://" + host;
    assert ReplaceAll("https://" + host, "https", "http") == u;
    assert u[4] == ':' && u[..4] == "http";
    assert u[5..] == "//" + host;
    assert ':' !in u[5..];
    BeforeLastAt(u, ':', 4);
  }

  /** Replacing "https" by "http" turns either scheme into "http" and leaves a remainder without
      "https" alone. */
  lemma RewritesScheme(scheme: string, rest: string)
    requires scheme == "http" || scheme == "https"
    requires !Occurs(rest, "https")
    ensures ReplaceAll(scheme + "://" + rest, "https", "http") == "http://" + rest
  {
    ReplaceAllAbsent(rest, "https", "http");
    ReplaceAllSkip("://", rest, "https", "http");
    if scheme == "https" {
      assert scheme + "://" + rest == "https" + ("://" + rest);
      ReplaceAllHead("https", "://" + rest, "http");
    } else {
      var s := "http://" + rest;
      assert s[..5][4] == ':' && s[1..] == "ttp://" + rest && s[0] == 'h';
      ReplaceAllSkip("ttp://", rest, "https", "http");
      assert ReplaceAll(s, "https", "http") == ['h'] + ReplaceAll("ttp://" + rest, "https", "http");
      assert ['h'] + ("ttp://" + rest) == s;
      assert scheme + "://" + rest == s;
    }
  }

  /** `Es.__init__`: one agent per node, in node order; credentials "<id>:<password>" are kept
      split at ':' when given. */
  method Init(nodes: seq<string>, auth: Option<string>) returns (d: Driver)
    ensures d.nodes == nodes
    ensures |d.agents| == |nodes|
    ensures forall i :: 0 <= i < |nodes| ==> d.agents[i] == AgentAddress(nodes[i])
    ensures d.auth == if Given(auth) then Some(Split(auth.value, ':')) else None
  {
    var agents: seq<string> := [];
    for i := 0 to |nodes|
      invariant |agents| == i
      invariant forall j :: 0 <= j < i ==> agents[j] == AgentAddress(nodes[j])
    {
      agents := agents + [AgentAddress(nodes[i])];
    }
    var split := if Given(auth) then Some(Split(auth.value, ':')) else None;
    d := Driver(nodes, agents, split);
  }

  /** Whether `connector()` returns a client. Without credentials the AttributeError from
      `self.auth[0]` is caught and a client without credentials is built; credentials without a
      ':' make `self.auth[1]` raise an IndexError, which is not caught. */
  predicate Connects(auth: Option<seq<string>>)
  {
    auth.None? || |auth.value| >= 2
  }

  function RestartUrl(agent: string): string
  {
    agent + "/es/command/restart"
  }

  /** What one agent's step may look like. A first probe that raises, or a restart POST that
      raises, ends the run with False. A first probe that is not green skips the restart; a green
      one is followed by the restart POST, whatever its status. Either way the loop then waits for
      green (`IsWait`). */
  predicate NodeLog(agent: string, seg: seq<Action>, exit: Exit)
  {
    || (seg == [] && exit == Stop(OutOfTrace))
    || (seg == [Probed(ProbeError)] && exit == Stop(Failed))
    || (seg == [Probed(Green)] && exit == Stop(OutOfTrace))
    || (seg == [Probed(Green), Posted(RestartUrl(agent), None, PostError)] && exit == Stop(Failed))
    || (|seg| >= 1 && seg[0] == Probed(NotGreen) && IsWait(seg[1..], exit))
    || (&& |seg| >= 2 && seg[0] == Probed(Green)
        && seg[1].Posted? && seg[1].url == RestartUrl(agent) && seg[1].port == None && seg[1].reply.Status?
        && IsWait(seg[2..], exit))
  }

  /** One pass of the `while True` body for one agent (ES.py:45-72). */
  function NodeStep(agent: string, probes: seq<Health>, posts: seq<Reply>): (s: Step<Health>)
    ensures NodeLog(agent, s.actions, s.exit)
  {
    if probes == [] then Step([], Stop(OutOfTrace), probes, posts)
    else if probes[0] == ProbeError then Step([Probed(ProbeError)], Stop(Failed), probes[1..], posts)
    else if probes[0] == NotGreen then
      var w := AwaitGreen(probes[1..], posts);
      assert ([Probed(NotGreen)] + w.actions)[1..] == w.actions;
      Prepend([Probed(NotGreen)], w)
    else if posts == [] then Step([Probed(Green)], Stop(OutOfTrace), probes[1..], posts)
    else
      var post := Posted(RestartUrl(agent), None, posts[0]);
      if posts[0] == PostError then Step([Probed(Green), post], Stop(Failed), probes[1..], posts[1..])
      else
        var w := AwaitGreen(probes[1..], posts[1..]);
        assert ([Probed(Green), post] + w.actions)[2..] == w.actions;
        Prepend([Probed(Green), post], w)
  }

  /** The `for node in self.agents` loop, from a given agent on. */
  function RunFrom(agents: seq<string>, probes: seq<Health>, posts: seq<Reply>): Run
    decreases |agents|
  {
    if agents == [] then Run([], Done)
    else
      var s := NodeStep(agents[0], probes, posts);
      if s.exit == Advance then Continue([s.actions], RunFrom(agents[1..], s.probes, s.posts))
      else Run([s.actions], s.exit.outcome)
  }

  /** `RollingRestart`: the client is built first, outside the `try`. */
  function RollingRestartRun(d: Driver, probes: seq<Health>, posts: seq<Reply>): Run
  {
    if Connects(d.auth) then RunFrom(d.agents, probes, posts) else Run([], Raised)
  }

  /** The facts each agent's step guarantees. */
  lemma NodeLogFacts(agent: string, seg: seq<Action>, exit: Exit)
    requires NodeLog(agent, seg, exit)
    ensures PostsGated(seg)
    ensures forall j :: 0 <= j < |seg| && seg[j].Posted? ==> j == 1 && seg[j].url == RestartUrl(agent)
    ensures |seg| >= 1 && seg[0] != Probed(Green) ==> forall j :: 0 <= j < |seg| ==> !seg[j].Posted?
    ensures exit == Advance ==> EndsGreen(seg)
    ensures exit == Stop(Failed) <==>
      seg == [Probed(ProbeError)] || seg == [Probed(Green), Posted(RestartUrl(agent), None, PostError)]
    ensures exit != Stop(Done)
  {
    if |seg| >= 1 && seg[0] == Probed(NotGreen) && IsWait(seg[1..], exit) {
      WaitHasNoPost(seg[1..], exit);
      forall j | 0 <= j < |seg| ensures !seg[j].Posted? {
        if j > 0 {
          assert seg[j] == seg[1..][j - 1];
        }
      }
    } else if |seg| >= 2 && seg[0] == Probed(Green) && seg[1].Posted? && seg[1].reply.Status? && IsWait(seg[2..], exit) {
      WaitHasNoPost(seg[2..], exit);
    }
  }

  /** Every agent reached has a step of the shape `NodeLog` describes, in agent order; every step
      but the last moved on, and all of them did when the run returned True. */
  lemma {:induction false} RunShape(agents: seq<string>, probes: seq<Health>, posts: seq<Reply>)
    ensures var r := RunFrom(agents, probes, posts);
      && |r.segments| <= |agents|
      && (r.outcome == Done ==> |r.segments| == |agents|)
      && (r.outcome != Done ==> |r.segments| >= 1)
      && forall i :: 0 <= i < |r.segments| ==> NodeLog(agents[i], r.segments[i], SegmentExit(r, i))
    decreases |agents|
  {
    if agents != [] {
      var s := NodeStep(agents[0], probes, posts);
      var r := RunFrom(agents, probes, posts);
      if s.exit == Advance {
        var rest := RunFrom(agents[1..], s.probes, s.posts);
        RunShape(agents[1..], s.probes, s.posts);
        assert r == Continue([s.actions], rest);
        forall i | 0 <= i < |r.segments|
          ensures NodeLog(agents[i], r.segments[i], SegmentExit(r, i))
        {
          if i > 0 {
            assert r.segments[i] == rest.segments[i - 1];
            assert agents[i] == agents[1..][i - 1];
            assert SegmentExit(r, i) == SegmentExit(rest, i - 1);
          }
        }
      }
    }
  }

  /** The promises of ES.py:42-74. Every restart POST comes right after a green probe; agents are
      taken in order and each receives at most one POST, at its own restart URL; a later agent is
      not touched before a probe returned green after the earlier agent's step; the run returns
      False exactly when the guarded first probe or the restart POST raised; and it returns True
      only after every agent was passed. */
  lemma RollingRestartSafety(d: Driver, probes: seq<Health>, posts: seq<Reply>)
    ensures var r := RollingRestartRun(d, probes, posts);
      && PostsGated(Flatten(r.segments))
      && |r.segments| <= |d.agents|
      && (forall i, j :: 0 <= i < |r.segments| && 0 <= j < |r.segments[i]| && r.segments[i][j].Posted? ==>
            j == 1 && r.segments[i][j].url == RestartUrl(d.agents[i]))
      && (forall i :: 0 <= i < |r.segments| - 1 ==> EndsGreen(r.segments[i]))
      && (r.outcome == Done ==> |r.segments| == |d.agents| && forall i :: 0 <= i < |r.segments| ==> EndsGreen(r.segments[i]))
      && (r.outcome == Failed <==>
            |r.segments| >= 1 &&
            var last := r.segments[|r.segments| - 1];
            last == [Probed(ProbeError)] ||
            last == [Probed(Green), Posted(RestartUrl(d.agents[|r.segments| - 1]), None, PostError)])
  {
    var r := RollingRestartRun(d, probes, posts);
    if Connects(d.auth) {
      RunShape(d.agents, probes, posts);
      forall i | 0 <= i < |r.segments|
        ensures PostsGated(r.segments[i])
        ensures forall j :: 0 <= j < |r.segments[i]| && r.segments[i][j].Posted? ==>
          j == 1 && r.segments[i][j].url == RestartUrl(d.agents[i])
        ensures SegmentExit(r, i) == Advance ==> EndsGreen(r.segments[i])
        ensures SegmentExit(r, i) == Stop(Failed) <==>
          r.segments[i] == [Probed(ProbeError)] ||
          r.segments[i] == [Probed(Green), Posted(RestartUrl(d.agents[i]), None, PostError)]
      {
        NodeLogFacts(d.agents[i], r.segments[i], SegmentExit(r, i));
      }
      PostsGatedFlatten(r.segments);
    }
  }

  /** One agent's step, as ES.py:45-72 runs it. */
  method RestartNode(agent: string, probes: seq<Health>, posts: seq<Reply>) returns (s: Step<Health>)
    ensures s == NodeStep(agent, probes, posts)
  {
    if probes == [] {
      return Step([], Stop(OutOfTrace), probes, posts);
    }
    var health := probes[0];
    var log := [Probed(health)];
    var restPosts := posts;
    if health == ProbeError {
      // The exception is caught by the `except` clause, which returns False.
      return Step(log, Stop(Failed), probes[1..], posts);
    } else if health == Green {
      if restPosts == [] {
        return Step(log, Stop(OutOfTrace), probes[1..], posts);
      }
      var reply := restPosts[0];
      restPosts := restPosts[1..];
      log := log + [Posted(RestartUrl(agent), None, reply)];
      if reply == PostError {
        return Step(log, Stop(Failed), probes[1..], restPosts);
      }
      // A status other than 200 is only printed; the loop goes on to wait for green.
    }
    var w := WaitForGreen(probes[1..], restPosts);
    s := Prepend(log, w);
  }

  /** `Es.RollingRestart` (ES.py:42-74). */
  method RollingRestart(d: Driver, probes: seq<Health>, posts: seq<Reply>) returns (run: Run)
    ensures run == RollingRestartRun(d, probes, posts)
  {
    if !Connects(d.auth) {
      return Run([], Raised);
    }
    var restProbes, restPosts := probes, posts;
    var segments: seq<seq<Action>> := [];
    var i := 0;
    while i < |d.agents|
      invariant 0 <= i <= |d.agents|
      invariant RunFrom(d.agents, probes, posts) == Continue(segments, RunFrom(d.agents[i..], restProbes, restPosts))
    {
      assert d.agents[i..][1..] == d.agents[i + 1..];
      var s := RestartNode(d.agents[i], restProbes, restPosts);
      segments := segments + [s.actions];
      if s.exit != Advance {
        return Run(segments, s.exit.outcome);
      }
      restProbes, restPosts := s.probes, s.posts;
      i := i + 1;
    }
    run := Run(segments, Done);
  }

  /** `Es.SetConfiguration` (ES.py:101-121): the same configuration goes to every agent, and the
      result is `(True, 0)` exactly when every agent answered 200 without raising; otherwise the
      reports hold one entry per failing agent, in agent order. */
  method SetConfiguration<D>(d: Driver, data: D, replies: seq<Reply>)
    returns (verdict: Verdict<string>, sent: seq<ConfigPost<D>>)
    requires |replies| == |d.agents|
    ensures |sent| == |d.agents|
    ensures forall i :: 0 <= i < |sent| ==> sent[i] == ConfigPost(d.agents[i] + "/es/command/configuration", None, data)
    ensures verdict == VerdictOf(Reports(d.agents, replies))
    ensures verdict == Applied <==> forall i :: 0 <= i < |replies| ==> replies[i] == Status(200)
  {
    var reports: seq<Report<string>> := [];
    sent := [];
    for i := 0 to |d.agents|
      invariant |sent| == i
      invariant forall j :: 0 <= j < i ==> sent[j] == ConfigPost(d.agents[j] + "/es/command/configuration", None, data)
      invariant reports == Reports(d.agents[..i], replies[..i])
    {
      sent := sent + [ConfigPost(d.agents[i] + "/es/command/configuration", None, data)];
      var reply := replies[i];
      ReportsSnoc(d.agents[..i], replies[..i], d.agents[i], reply);
      assert d.agents[..i + 1] == d.agents[..i] + [d.agents[i]];
      assert replies[..i + 1] == replies[..i] + [reply];
      if reply == PostError {
        reports := reports + [Report(d.agents[i], Unreachable)];
      } else if reply != Status(200) {
        reports := reports + [Report(d.agents[i], Rejected)];
      }
    }
    assert d.agents[..|d.agents|] == d.agents && replies[..|replies|] == replies;
    ReportsEmpty(d.agents, replies);
    verdict := if reports == [] then Applied else NotApplied(reports);
  }
}
