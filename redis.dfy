/** The Redis driver (app/core_features/REDIS.py): node parsing, the ping-based health check, the
    rolling restart with its bounded recovery wait, the configuration fetch that falls back from
    agent to agent, and the configuration fan-out. Sockets and HTTP are not modelled: what each node
    answers and what each POST yields are inputs. */
module Redis {
  import opened Base
  import opened Text
  import opened Restart
  import opened Fanout

  /** A data-store node as the driver addresses it: its host and its port. */
  type Agent = (string, int)

  datatype Driver = Driver(nodes: seq<string>, auth: Option<string>, agents: seq<Agent>)

  /** `node.split(":")` followed by `(agent[0], int(agent[1]))`: None where Python raises, that
      is, when there is no ':' (IndexError) or the second field is not an integer (ValueError). */
  function ParseNode(node: string): (a: Option<Agent>)
    ensures a.Some? <==> |Split(node, ':')| >= 2 && ParseInt(Split(node, ':')[1]).Some?
  {
    var fields := Split(node, ':');
    if |fields| < 2 then None
    else match ParseInt(fields[1])
      case None => None
      case Some(port) => Some((fields[0], port))
  }

  /** `host:port` parses back to the pair, and so does `host:port:rest`. */
  lemma ParseNodeOfAddress(host: string, port: nat, rest: Option<string>)
    requires ':' !in host
    ensures var node := host + ":" + NatToString(port) + (if rest.Some? then ":" + rest.value else "");
      ParseNode(node) == Some((host, port))
  {
    var digits := NatToString(port);
    assert ':' !in digits by {
      forall i | 0 <= i < |digits| ensures digits[i] != ':' {
        assert IsDigit(digits[i]);
      }
    }
    ParseIntOfDecimal(port);
    if rest.Some? {
      assert host + ":" + digits + (":" + rest.value) == host + [':'] + (digits + [':'] + rest.value);
      SplitCons(host, digits + [':'] + rest.value, ':');
      SplitCons(digits, rest.value, ':');
    } else {
      assert host + ":" + digits + "" == host + [':'] + digits;
      SplitCons(host, digits, ':');
      SplitNone(digits, ':');
    }
  }

  /** How `Redis.__init__` ends: with the driver, or with the exception raised by the node at the
      given index. */
  datatype InitResult = Built(driver: Driver) | BadNode(index: nat)

  /** `Redis.__init__`: one `(host, port)` pair per node, in node order; the first node that does
      not parse raises. */
  method Init(nodes: seq<string>, auth: Option<string>) returns (r: InitResult)
    ensures r.Built? <==> forall i :: 0 <= i < |nodes| ==> ParseNode(nodes[i]).Some?
    ensures r.Built? ==> (&& r.driver.nodes == nodes && r.driver.auth == auth && |r.driver.agents| == |nodes|
                          && forall i :: 0 <= i < |nodes| ==> Some(r.driver.agents[i]) == ParseNode(nodes[i]))
    ensures r.BadNode? ==> (&& r.index < |nodes| && ParseNode(nodes[r.index]).None?
                           && forall i :: 0 <= i < r.index ==> ParseNode(nodes[i]).Some?)
  {
    var agents: seq<Agent> := [];
    for i := 0 to |nodes|
      invariant |agents| == i
      invariant forall j :: 0 <= j < i ==> Some(agents[j]) == ParseNode(nodes[j])
    {
      var fields := Split(nodes[i], ':');
      if |fields| < 2 {
        return BadNode(i);
      }
      var port := ParseInt(fields[1]);
      if port.None? {
        return BadNode(i);
      }
      agents := agents + [(fields[0], port.value)];
    }
    r := Built(Driver(nodes, auth, agents));
  }

  /** How one node's exchange in the health check (REDIS.py:20-33) ends. `ConnectFailed`: `connect`,
      `setsockopt` or the first `sendall` raises, and no command went out. `FailedAfterAuth`: the
      `auth` command went out, then reading its reply or sending the ping raises. `FailedAfterPing`:
      the ping went out, then reading the answer raises. `Answered`: the node answered the ping with
      the given bytes. Without credentials there is no `auth` exchange, and `FailedAfterAuth` has
      sent nothing, like `ConnectFailed`. */
  datatype Answer = ConnectFailed | FailedAfterAuth | FailedAfterPing | Answered(reply: string)

  const Pong: string := "+PONG\r\n"

  /** The `auth` command, sent only when credentials are set. */
  function AuthCommands(auth: Option<string>): seq<string>
  {
    if Given(auth) then ["auth " + auth.value + "\r\n"] else []
  }

  /** Everything a node receives when nothing raises: the `auth` command when credentials are set,
      then the ping. */
  function FullCommands(auth: Option<string>): seq<string>
  {
    AuthCommands(auth) + ["ping\r\n"]
  }

  /** The commands a node has received when its exchange ends. */
  function Commands(auth: Option<string>, a: Answer): seq<string>
  {
    match a
    case ConnectFailed => []
    case FailedAfterAuth => AuthCommands(auth)
    case _ => FullCommands(auth)
  }

  /** What a node receives is a prefix of the full exchange: the ping reached it exactly when the
      exchange got past the `auth` step, and with credentials set the `auth` command reached it
      exactly when the connection was made. */
  lemma CommandsPrefix(auth: Option<string>, a: Answer)
    ensures |Commands(auth, a)| <= |FullCommands(auth)|
    ensures Commands(auth, a) == FullCommands(auth)[..|Commands(auth, a)|]
    ensures "ping\r\n" in Commands(auth, a) <==> a.FailedAfterPing? || a.Answered?
    ensures Given(auth) ==> ("auth " + auth.value + "\r\n" in Commands(auth, a) <==> !a.ConnectFailed?)
  {
    var ping := "ping\r\n";
    if Given(auth) {
      var cmd := "auth " + auth.value + "\r\n";
      assert cmd[0] == 'a' && ping[0] == 'p';
      assert ping !in AuthCommands(auth);
      assert FullCommands(auth) == [cmd, ping];
    } else {
      assert FullCommands(auth) == [ping];
    }
  }

  /** Python's `all(...)`. */
  predicate All(bs: seq<bool>)
  {
    forall i :: 0 <= i < |bs| ==> bs[i]
  }

  /** `Redis.ClusterHealthCheck` (REDIS.py:16-39): every node is pinged, in order, and the cluster
      is healthy exactly when every node answered `+PONG\r\n`; no node at all is healthy. */
  method ClusterHealthCheck(d: Driver, answers: seq<Answer>) returns (healthy: bool, sent: seq<seq<string>>)
    requires |answers| == |d.agents|
    ensures healthy <==> forall i :: 0 <= i < |answers| ==> answers[i] == Answered(Pong)
    ensures |sent| == |answers| && forall i :: 0 <= i < |answers| ==> sent[i] == Commands(d.auth, answers[i])
  {
    var success: seq<bool> := [];
    sent := [];
    for i := 0 to |d.agents|
      invariant |success| == i && |sent| == i
      invariant forall j :: 0 <= j < i ==> (success[j] <==> answers[j] == Answered(Pong))
      invariant forall j :: 0 <= j < i ==> sent[j] == Commands(d.auth, answers[j])
    {
      var commands: seq<string> := [];
      var ok := false;
      if !answers[i].ConnectFailed? {
        if Given(d.auth) {
          commands := commands + ["auth " + d.auth.value + "\r\n"];
        }
        if !answers[i].FailedAfterAuth? {
          commands := commands + ["ping\r\n"];
          ok := answers[i].Answered? && answers[i].reply == Pong;
        }
      }
      success := success + [ok];
      sent := sent + [commands];
    }
    healthy := All(success);
  }

  /** `MAXTRIAL`. */
  const MaxTrial: nat := 5

  function RestartUrl(a: Agent): string
  {
    "http://" + a.0 + ":5000/redis/command/restart"
  }

  function HealthOf(healthy: bool): Health
  {
    if healthy then Green else NotGreen
  }

  /** The recovery wait `while not self.ClusterHealthCheck() and cnt < MAXTRIAL`, entered with
      `cnt` failed probes behind it. The health check is made before the counter is compared, so the
      probe after the last counted one still runs, and its answer is ignored. */
  function Recover(probes: seq<bool>, posts: seq<Reply>, cnt: nat): (s: Step<bool>)
    requires cnt <= MaxTrial
    ensures s.posts == posts && |s.actions| <= |probes|
    decreases MaxTrial - cnt
  {
    if probes == [] then Step([], Stop(OutOfTrace), probes, posts)
    else
      var acted := [Probed(HealthOf(probes[0]))];
      if probes[0] || cnt == MaxTrial then
        Step(acted, if cnt < MaxTrial then Advance else Stop(Failed), probes[1..], posts)
      else Prepend(acted, Recover(probes[1..], posts, cnt + 1))
  }

  /** The shape of a recovery wait entered after `cnt` failed probes: unhealthy probes, then either a
      healthy one within the bound (the loop moves on), or one probe past the bound (the run returns
      False), or the end of the trace. */
  predicate IsRecovery(w: seq<Action>, exit: Exit, cnt: nat)
  {
    && (forall i :: 0 <= i < |w| ==> w[i] == Probed(Green) || w[i] == Probed(NotGreen))
    && (forall i :: 0 <= i < |w| - 1 ==> w[i] == Probed(NotGreen))
    && match exit
       case Advance => 1 <= |w| <= MaxTrial - cnt && w[|w| - 1] == Probed(Green)
       case Stop(o) =>
         || (o == Failed && |w| == MaxTrial - cnt + 1)
         || (o == OutOfTrace && |w| <= MaxTrial - cnt && forall i :: 0 <= i < |w| ==> w[i] == Probed(NotGreen))
  }

  /** The wait has the shape `IsRecovery` describes. */
  lemma {:induction false} RecoverShape(probes: seq<bool>, posts: seq<Reply>, cnt: nat)
    requires cnt <= MaxTrial
    ensures var s := Recover(probes, posts, cnt); IsRecovery(s.actions, s.exit, cnt)
    decreases MaxTrial - cnt
  {
    if probes != [] && !probes[0] && cnt < MaxTrial {
      var r := Recover(probes[1..], posts, cnt + 1);
      RecoverShape(probes[1..], posts, cnt + 1);
      var s := Recover(probes, posts, cnt);
      assert s.actions == [Probed(NotGreen)] + r.actions && s.exit == r.exit;
      assert forall i :: 0 < i < |s.actions| ==> s.actions[i] == r.actions[i - 1];
    }
  }

  /** The wait moves on exactly when one of the probes within the bound is healthy, and returns
      False exactly when that many probes all failed and one more probe was made. */
  lemma {:induction false} RecoverVerdict(probes: seq<bool>, posts: seq<Reply>, cnt: nat)
    requires cnt <= MaxTrial
    ensures var s := Recover(probes, posts, cnt);
      && (s.exit == Advance <==> exists i :: 0 <= i < MaxTrial - cnt && i < |probes| && probes[i])
      && (s.exit == Stop(Failed) <==> |probes| > MaxTrial - cnt && forall i :: 0 <= i < MaxTrial - cnt ==> !probes[i])
    decreases MaxTrial - cnt
  {
    if probes != [] && !probes[0] && cnt < MaxTrial {
      var tail := probes[1..];
      RecoverVerdict(tail, posts, cnt + 1);
      assert Recover(probes, posts, cnt).exit == Recover(tail, posts, cnt + 1).exit;
      assert (exists i :: 0 <= i < MaxTrial - cnt && i < |probes| && probes[i]) <==>
             (exists i :: 0 <= i < MaxTrial - cnt - 1 && i < |tail| && tail[i]) by {
        if exists i :: 0 <= i < MaxTrial - cnt && i < |probes| && probes[i] {
          var i :| 0 <= i < MaxTrial - cnt && i < |probes| && probes[i];
          assert tail[i - 1];
        }
        if exists i :: 0 <= i < MaxTrial - cnt - 1 && i < |tail| && tail[i] {
          var i :| 0 <= i < MaxTrial - cnt - 1 && i < |tail| && tail[i];
          assert probes[i + 1];
        }
      }
      assert (|probes| > MaxTrial - cnt && forall i :: 0 <= i < MaxTrial - cnt ==> !probes[i]) <==>
             (|tail| > MaxTrial - cnt - 1 && forall i :: 0 <= i < MaxTrial - cnt - 1 ==> !tail[i]) by {
        if |tail| > MaxTrial - cnt - 1 && forall i :: 0 <= i < MaxTrial - cnt - 1 ==> !tail[i] {
          forall i | 0 <= i < MaxTrial - cnt ensures !probes[i] {
            if i > 0 {
              assert probes[i] == tail[i - 1];
            }
          }
        }
        if |probes| > MaxTrial - cnt && forall i :: 0 <= i < MaxTrial - cnt ==> !probes[i] {
          forall i | 0 <= i < MaxTrial - cnt - 1 ensures !tail[i] {
            assert tail[i] == probes[i + 1];
          }
        }
      }
    }
  }

  /** The whole wait after a restart: at most `MaxTrial` + 1 probes; the run continues only when one
      of the first `MaxTrial` probes is healthy, and a healthy probe after them does not help. */
  lemma RecoveryBound(probes: seq<bool>, posts: seq<Reply>)
    ensures var s := Recover(probes, posts, 0);
      && |s.actions| <= MaxTrial + 1
      && (s.exit == Advance <==> exists i :: 0 <= i < MaxTrial && i < |probes| && probes[i])
      && (|probes| > MaxTrial && (forall i :: 0 <= i < MaxTrial ==> !probes[i]) ==> s.exit == Stop(Failed))
  {
    RecoverShape(probes, posts, 0);
    RecoverVerdict(probes, posts, 0);
  }

  /** The recovery wait as REDIS.py:65-77 runs it. */
  method WaitForRecovery(probes: seq<bool>, posts: seq<Reply>) returns (s: Step<bool>)
    ensures s == Recover(probes, posts, 0)
  {
    var rest := probes;
    var log: seq<Action> := [];
    var cnt := 0;
    while true
      invariant cnt <= MaxTrial
      invariant Recover(probes, posts, 0) == Prepend(log, Recover(rest, posts, cnt))
      decreases MaxTrial - cnt
    {
      if rest == [] {
        return Step(log, Stop(OutOfTrace), rest, posts);
      }
      var healthy := rest[0];
      ghost var before, logBefore := rest, log;
      rest := rest[1..];
      log := log + [Probed(HealthOf(healthy))];
      if healthy || !(cnt < MaxTrial) {
        // The loop condition is false: the probe was healthy, or the counter reached the bound.
        assert Recover(before, posts, cnt) == Step([Probed(HealthOf(healthy))], if cnt < MaxTrial then Advance else Stop(Failed), rest, posts);
        if !(cnt < MaxTrial) {
          return Step(log, Stop(Failed), rest, posts);
        }
        return Step(log, Advance, rest, posts);
      }
      assert Recover(before, posts, cnt) == Prepend([Probed(NotGreen)], Recover(rest, posts, cnt + 1));
      PrependTwice(logBefore, [Probed(NotGreen)], Recover(rest, posts, cnt + 1));
      cnt := cnt + 1;
    }
  }

  /** One pass of the `while True` body for one node (REDIS.py:48-77). A health check that fails
      raises inside the `try`, so the run returns False; so does a POST that raises. */
  function NodeStep(a: Agent, probes: seq<bool>, posts: seq<Reply>): Step<bool>
  {
    if probes == [] then Step([], Stop(OutOfTrace), probes, posts)
    else if !probes[0] then Step([Probed(NotGreen)], Stop(Failed), probes[1..], posts)
    else if posts == [] then Step([Probed(Green)], Stop(OutOfTrace), probes[1..], posts)
    else
      var post := Posted(RestartUrl(a), Some(a.1), posts[0]);
      if posts[0] == PostError then Step([Probed(Green), post], Stop(Failed), probes[1..], posts[1..])
      else Prepend([Probed(Green), post], Recover(probes[1..], posts[1..], 0))
  }

  /** What one node's step may look like. */
  predicate NodeLog(a: Agent, seg: seq<Action>, exit: Exit)
  {
    || (seg == [] && exit == Stop(OutOfTrace))
    || (seg == [Probed(NotGreen)] && exit == Stop(Failed))
    || (seg == [Probed(Green)] && exit == Stop(OutOfTrace))
    || (seg == [Probed(Green), Posted(RestartUrl(a), Some(a.1), PostError)] && exit == Stop(Failed))
    || (&& |seg| >= 2 && seg[0] == Probed(Green)
        && seg[1].Posted? && seg[1].url == RestartUrl(a) && seg[1].port == Some(a.1) && seg[1].reply.Status?
        && IsRecovery(seg[2..], exit, 0))
  }

  lemma NodeStepShape(a: Agent, probes: seq<bool>, posts: seq<Reply>)
    ensures var s := NodeStep(a, probes, posts); NodeLog(a, s.actions, s.exit)
  {
    if probes != [] && probes[0] && posts != [] && posts[0] != PostError {
      RecoverShape(probes[1..], posts[1..], 0);
      var s := NodeStep(a, probes, posts);
      var r := Recover(probes[1..], posts[1..], 0);
      assert s.actions[2..] == r.actions;
    }
  }

  /** The facts each node's step guarantees. */
  lemma NodeLogFacts(a: Agent, seg: seq<Action>, exit: Exit)
    requires NodeLog(a, seg, exit)
    ensures PostsGated(seg)
    ensures forall j :: 0 <= j < |seg| && seg[j].Posted? ==> j == 1 && seg[j].url == RestartUrl(a) && seg[j].port == Some(a.1)
    ensures |seg| >= 1 && seg[0] != Probed(Green) ==> seg == [Probed(NotGreen)] && exit == Stop(Failed)
    ensures exit == Advance ==> EndsGreen(seg) && |seg| <= MaxTrial + 2
    ensures exit != Stop(Done) && exit != Stop(Raised)
  {
    if |seg| >= 2 && seg[0] == Probed(Green) && seg[1].Posted? && IsRecovery(seg[2..], exit, 0) {
      assert forall j :: 2 <= j < |seg| ==> seg[j] == seg[2..][j - 2];
    }
  }

  /** The `for node in self.agents` loop, from a given node on. */
  function RunFrom(agents: seq<Agent>, probes: seq<bool>, posts: seq<Reply>): Run
    decreases |agents|
  {
    if agents == [] then Run([], Done)
    else
      var s := NodeStep(agents[0], probes, posts);
      if s.exit == Advance then Continue([s.actions], RunFrom(agents[1..], s.probes, s.posts))
      else Run([s.actions], s.exit.outcome)
  }

  lemma {:induction false} RunShape(agents: seq<Agent>, probes: seq<bool>, posts: seq<Reply>)
    ensures var r := RunFrom(agents, probes, posts);
      && |r.segments| <= |agents|
      && (r.outcome == Done ==> |r.segments| == |agents|)
      && (r.outcome != Done ==> |r.segments| >= 1)
      && forall i :: 0 <= i < |r.segments| ==> NodeLog(agents[i], r.segments[i], SegmentExit(r, i))
    decreases |agents|
  {
    if agents != [] {
      var s := NodeStep(agents[0], probes, posts);
      NodeStepShape(agents[0], probes, posts);
      var r := RunFrom(agents, probes, posts);
      if s.exit == Advance {
        var rest := RunFrom(agents[1..], s.probes, s.posts);
        RunShape(agents[1..], s.probes, s.posts);
        assert r == Continue([s.actions], rest);
        forall i | 0 <= i < |r.segments|
          ensures NodeLog(agents[i], r.segments[i], SegmentExit(r, i))
        {
          if i > 0 {
            assert r.segments[i] == rest.segments[i - 1];
            assert agents[i] == agents[1..][i - 1];
            assert SegmentExit(r, i) == SegmentExit(rest, i - 1);
          }
        }
      }
    }
  }

  /** The promises of REDIS.py:46-78. Every restart POST comes right after a healthy check and goes
      to the node's agent with the node's port; nodes are taken in order, one POST each; a node
      whose turn begins with an unhealthy cluster ends the run with False and gets no POST; every
      node passed got a healthy probe within `MaxTrial` probes of its recovery; and True means every
      node was passed. The run never raises. */
  lemma RollingRestartSafety(d: Driver, probes: seq<bool>, posts: seq<Reply>)
    ensures var r := RunFrom(d.agents, probes, posts);
      && PostsGated(Flatten(r.segments))
      && |r.segments| <= |d.agents|
      && (forall i, j :: 0 <= i < |r.segments| && 0 <= j < |r.segments[i]| && r.segments[i][j].Posted? ==>
            j == 1 && r.segments[i][j].url == RestartUrl(d.agents[i]) && r.segments[i][j].port == Some(d.agents[i].1))
      && (forall i :: 0 <= i < |r.segments| && |r.segments[i]| >= 1 && r.segments[i][0] != Probed(Green) ==>
            i == |r.segments| - 1 && r.segments[i] == [Probed(NotGreen)] && r.outcome == Failed)
      && (forall i :: 0 <= i < |r.segments| - 1 ==> EndsGreen(r.segments[i]) && |r.segments[i]| <= MaxTrial + 2)
      && (r.outcome == Done ==> |r.segments| == |d.agents|)
      && r.outcome != Raised
  {
    var r := RunFrom(d.agents, probes, posts);
    RunShape(d.agents, probes, posts);
    forall i | 0 <= i < |r.segments|
      ensures PostsGated(r.segments[i])
      ensures forall j :: 0 <= j < |r.segments[i]| && r.segments[i][j].Posted? ==>
        j == 1 && r.segments[i][j].url == RestartUrl(d.agents[i]) && r.segments[i][j].port == Some(d.agents[i].1)
      ensures |r.segments[i]| >= 1 && r.segments[i][0] != Probed(Green) ==>
        r.segments[i] == [Probed(NotGreen)] && SegmentExit(r, i) == Stop(Failed)
      ensures SegmentExit(r, i) == Advance ==> EndsGreen(r.segments[i]) && |r.segments[i]| <= MaxTrial + 2
      ensures SegmentExit(r, i) != Stop(Raised)
    {
      NodeLogFacts(d.agents[i], r.segments[i], SegmentExit(r, i));
    }
    PostsGatedFlatten(r.segments);
    if r.outcome != Done {
      assert SegmentExit(r, |r.segments| - 1) == Stop(r.outcome);
    }
  }

  /** One node's step, as REDIS.py:48-77 runs it. */
  method RestartNode(a: Agent, probes: seq<bool>, posts: seq<Reply>) returns (s: Step<bool>)
    ensures s == NodeStep(a, probes, posts)
  {
    if probes == [] {
      return Step([], Stop(OutOfTrace), probes, posts);
    }
    if !probes[0] {
      // The health check failed: the `raise` inside the `try` is caught and the run returns False.
      return Step([Probed(NotGreen)], Stop(Failed), probes[1..], posts);
    }
    if posts == [] {
      return Step([Probed(Green)], Stop(OutOfTrace), probes[1..], posts);
    }
    var reply := posts[0];
    var log := [Probed(Green), Posted(RestartUrl(a), Some(a.1), reply)];
    if reply == PostError {
      return Step(log, Stop(Failed), probes[1..], posts[1..]);
    }
    var w := WaitForRecovery(probes[1..], posts[1..]);
    s := Prepend(log, w);
  }

  /** `Redis.RollingRestart` (REDIS.py:46-78). */
  method RollingRestart(d: Driver, probes: seq<bool>, posts: seq<Reply>) returns (run: Run)
    ensures run == RunFrom(d.agents, probes, posts)
  {
    var restProbes, restPosts := probes, posts;
    var segments: seq<seq<Action>> := [];
    var i := 0;
    while i < |d.agents|
      invariant 0 <= i <= |d.agents|
      invariant RunFrom(d.agents, probes, posts) == Continue(segments, RunFrom(d.agents[i..], restProbes, restPosts))
    {
      assert d.agents[i..][1..] == d.agents[i + 1..];
      var s := RestartNode(d.agents[i], restProbes, restPosts);
      segments := segments + [s.actions];
      if s.exit != Advance {
        return Run(segments, s.exit.outcome);
      }
      restProbes, restPosts := s.probes, s.posts;
      i := i + 1;
    }
    run := Run(segments, Done);
  }

  /** What one agent's `get_config` request yields: the decoded JSON, or an exception from the POST
      or from decoding. */
  datatype Fetch<D> = Fetched(data: D) | FetchFailed(error: string)

  /** What the `Configuration` property evaluates to: the first decoded configuration, the last
      error when every agent failed, or the UnboundLocalError raised when there is no agent. */
  datatype ConfigResult<D> = Config(data: D) | LastError(error: string) | Unbound

  /** `Redis.Configuration` (REDIS.py:80-95): agents are asked in order until one answers; the
      first answer is returned, and the agents after it are not contacted. */
  method Configuration<D>(d: Driver, replies: seq<Fetch<D>>) returns (r: ConfigResult<D>, contacted: nat)
    requires |replies| == |d.agents|
    ensures contacted <= |replies|
    ensures forall j :: 0 <= j < contacted && (r.Config? ==> j < contacted - 1) ==> replies[j].FetchFailed?
    ensures r.Config? ==> contacted >= 1 && replies[contacted - 1] == Fetched(r.data)
    ensures !r.Config? ==> contacted == |replies|
    ensures r.Unbound? <==> replies == []
    ensures r.LastError? ==> r.error == replies[|replies| - 1].error
  {
    var error: Option<string> := None;
    contacted := 0;
    while contacted < |d.agents|
      invariant contacted <= |replies|
      invariant forall j :: 0 <= j < contacted ==> replies[j].FetchFailed?
      invariant error.None? <==> contacted == 0
      invariant error.Some? ==> error.value == replies[contacted - 1].error
    {
      var reply := replies[contacted];
      contacted := contacted + 1;
      match reply
      case Fetched(data) =>
        return Config(data), contacted;
      case FetchFailed(e) =>
        error := Some(e);
    }
    r := if error.Some? then LastError(error.value) else Unbound;
  }

  function SetConfigUrl(a: Agent): string
  {
    "http://" + a.0 + ":5000/redis/command/set_config"
  }

  /** `Redis.SetConfiguration` (REDIS.py:99-118): the configuration goes to every node's agent with
      that node's port, and the result is `(True, 0)` exactly when every agent answered 200 without
      raising; otherwise one report per failing node, in node order. */
  method SetConfiguration<D>(d: Driver, data: D, replies: seq<Reply>)
    returns (verdict: Verdict<Agent>, sent: seq<ConfigPost<D>>)
    requires |replies| == |d.agents|
    ensures |sent| == |d.agents|
    ensures forall i :: 0 <= i < |sent| ==> sent[i] == ConfigPost(SetConfigUrl(d.agents[i]), Some(d.agents[i].1), data)
    ensures verdict == VerdictOf(Reports(d.agents, replies))
    ensures verdict == Applied <==> forall i :: 0 <= i < |replies| ==> replies[i] == Status(200)
  {
    var reports: seq<Report<Agent>> := [];
    sent := [];
    for i := 0 to |d.agents|
      invariant |sent| == i
      invariant forall j :: 0 <= j < i ==> sent[j] == ConfigPost(SetConfigUrl(d.agents[j]), Some(d.agents[j].1), data)
      invariant reports == Reports(d.agents[..i], replies[..i])
    {
      var a := d.agents[i];
      sent := sent + [ConfigPost(SetConfigUrl(a), Some(a.1), data)];
      var reply := replies[i];
      ReportsSnoc(d.agents[..i], replies[..i], a, reply);
      assert d.agents[..i + 1] == d.agents[..i] + [a];
      assert replies[..i + 1] == replies[..i] + [reply];
      if reply == PostError {
        reports := reports + [Report(a, Unreachable)];
      } else if reply != Status(200) {
        reports := reports + [Report(a, Rejected)];
      }
    }
    assert d.agents[..|d.agents|] == d.agents && replies[..|replies|] == replies;
    ReportsEmpty(d.agents, replies);
    verdict := if reports == [] then Applied else NotApplied(reports);
  }
}
