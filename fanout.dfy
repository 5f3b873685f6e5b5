/** How both drivers' `SetConfiguration` fold the replies of one POST per agent into a verdict and
    a list of error reports. */
module Fanout {
  import opened Base
  import opened Restart

  /** Why an agent is reported: it answered with a status other than 200, or its POST raised. */
  datatype Failure = Rejected | Unreachable

  /** One entry of `error_reports`; the message text is rendered from the agent and the failure. */
  datatype Report<A> = Report(agent: A, failure: Failure)

  /** `(True, 0)` when nothing was reported, `(False, error_reports)` otherwise. */
  datatype Verdict<A> = Applied | NotApplied(reports: seq<Report<A>>)

  /** One configuration POST: the URL, the data-store port named in the body (if any) and the
      configuration sent. */
  datatype ConfigPost<D> = ConfigPost(url: string, port: Option<int>, data: D)

  /** The report an agent's reply contributes: none for 200, one otherwise. */
  function ReportFor<A>(agent: A, r: Reply): seq<Report<A>>
  {
    if r == Status(200) then []
    else if r == PostError then [Report(agent, Unreachable)]
    else [Report(agent, Rejected)]
  }

  /** The reports of a whole fan-out, in agent order. */
  function Reports<A>(agents: seq<A>, replies: seq<Reply>): seq<Report<A>>
    requires |agents| == |replies|
    decreases |agents|
  {
    if agents == [] then [] else ReportFor(agents[0], replies[0]) + Reports(agents[1..], replies[1..])
  }

  function VerdictOf<A>(reports: seq<Report<A>>): Verdict<A>
  {
    if reports == [] then Applied else NotApplied(reports)
  }

  /** Adding one more agent appends exactly that agent's report, if any: one report per failing
      agent, in agent order. */
  lemma {:induction false} ReportsSnoc<A>(agents: seq<A>, replies: seq<Reply>, a: A, r: Reply)
    requires |agents| == |replies|
    ensures Reports(agents + [a], replies + [r]) == Reports(agents, replies) + ReportFor(a, r)
    decreases |agents|
  {
    if agents == [] {
      assert agents + [a] == [a] && replies + [r] == [r];
    } else {
      ReportsSnoc(agents[1..], replies[1..], a, r);
      assert (agents + [a])[1..] == agents[1..] + [a];
      assert (replies + [r])[1..] == replies[1..] + [r];
    }
  }

  /** Nothing is reported exactly when every agent answered 200. */
  lemma {:induction false} ReportsEmpty<A>(agents: seq<A>, replies: seq<Reply>)
    requires |agents| == |replies|
    ensures Reports(agents, replies) == [] <==> forall i :: 0 <= i < |replies| ==> replies[i] == Status(200)
    decreases |agents|
  {
    if agents != [] {
      ReportsEmpty(agents[1..], replies[1..]);
      if forall i :: 0 <= i < |replies[1..]| ==> replies[1..][i] == Status(200) {
        forall i | 0 <= i < |replies| && replies[0] == Status(200) ensures replies[i] == Status(200) {
          if i > 0 {
            assert replies[i] == replies[1..][i - 1];
          }
        }
      }
    }
  }

  /** Every report names an agent of the fan-out whose reply was not 200, with the right failure. */
  lemma {:induction false} ReportsNameFailingAgents<A>(agents: seq<A>, replies: seq<Reply>)
    requires |agents| == |replies|
    ensures forall rep :: rep in Reports(agents, replies) ==>
      exists i :: 0 <= i < |agents| && agents[i] == rep.agent && ReportFor(agents[i], replies[i]) == [rep]
    decreases |agents|
  {
    if agents != [] {
      ReportsNameFailingAgents(agents[1..], replies[1..]);
      forall rep | rep in Reports(agents, replies)
        ensures exists i :: 0 <= i < |agents| && agents[i] == rep.agent && ReportFor(agents[i], replies[i]) == [rep]
      {
        if rep in ReportFor(agents[0], replies[0]) {
          assert agents[0] == rep.agent && ReportFor(agents[0], replies[0]) == [rep];
        } else {
          var i :| 0 <= i < |agents[1..]| && agents[1..][i] == rep.agent && ReportFor(agents[1..][i], replies[1..][i]) == [rep];
          assert agents[i + 1] == rep.agent && ReportFor(agents[i + 1], replies[i + 1]) == [rep];
        }
      }
    }
  }
}
