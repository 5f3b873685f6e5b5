/** The executable builder (app/execs.py): a fluent builder that records a solution name and the
    executables appended to it, and two directors that build the fixed products for Elasticsearch
    and Redis. */
module Execs {
  import opened Base
  import opened PyDict

  /** What `get_result` returns: `{"solution": ..., "execution": [...]}`. */
  datatype Product = Product(solution: string, execution: seq<string>)

  /** `get_result` before `set_solution_type` reads an attribute that was never set. */
  datatype BuildError = NoSolutionAttribute

  /** `enumerate(names, start)`: each name with its position, counted from `start`. */
  function Enumerate(names: seq<string>, start: int): (ps: seq<(string, int)>)
    ensures Keys(ps) == names
  {
    seq(|names|, i requires 0 <= i < |names| => (names[i], start + i))
  }

  /** The last position at which `x` occurs in `s`. */
  function LastIndexOf(s: seq<string>, x: string): (i: nat)
    requires x in s
    ensures i < |s| && s[i] == x && x !in s[i + 1..]
    decreases |s|
  {
    if s[|s| - 1] == x then |s| - 1
    else
      assert x in s[..|s| - 1] by {
        var j :| 0 <= j < |s| && s[j] == x;
        assert s[..|s| - 1][j] == x;
      }
      var i := LastIndexOf(s[..|s| - 1], x);
      assert s[i + 1..] == s[..|s| - 1][i + 1..] + [s[|s| - 1]];
      i
  }

  /** The last pair `enumerate` gives a name carries the name's last position, counted from
      `start`; a name not in the list has none. */
  lemma {:induction false} EnumerateLastValue(names: seq<string>, start: int, x: string)
    ensures x !in names ==> LastValue(Enumerate(names, start), x) == None
    ensures x in names ==> LastValue(Enumerate(names, start), x) == Some(start + LastIndexOf(names, x))
    decreases |names|
  {
    if names != [] {
      var front := names[..|names| - 1];
      assert Enumerate(names, start)[..|names| - 1] == Enumerate(front, start);
      EnumerateLastValue(front, start, x);
      if names[|names| - 1] != x {
        assert x in names <==> x in front;
      }
    }
  }

  /** The `__dict__` of an `Execution`: `setattr(self, exe, order)` for every executable in turn,
      so a repeated name keeps the place of its first assignment and the order of its last. */
  function Attributes(names: seq<string>): Dict<int>
  {
    FromPairs(Enumerate(names, 1))
  }

  /** The attribute names of an `Execution` are the executables with repeats dropped, each at its
      first occurrence. */
  lemma AttributeNames(names: seq<string>)
    ensures Keys(Attributes(names)) == Dedup(names)
  {
    var ps := Enumerate(names, 1);
    FromPairsKeys(ps);
    assert Keys(ps) == names;
  }

  /** What `get_result` promises about its list: every appended executable is in it and nothing
      else, no name is listed twice, and names are listed in order of first appending; each carries
      the order of its last appending. */
  lemma ExecutionList(names: seq<string>)
    ensures forall x :: x in Keys(Attributes(names)) <==> x in names
    ensures forall i, j :: 0 <= i < j < |Attributes(names)| ==> Keys(Attributes(names))[i] != Keys(Attributes(names))[j]
    ensures forall i, j :: 0 <= i < j < |Attributes(names)| ==>
              && Keys(Attributes(names))[i] in names && Keys(Attributes(names))[j] in names
              && FirstIndex(names, Keys(Attributes(names))[i]) < FirstIndex(names, Keys(Attributes(names))[j])
    ensures forall x :: Get(Attributes(names), x) == LastValue(Enumerate(names, 1), x)
  {
    AttributeNames(names);
    DedupSpec(names);
    forall x ensures Get(Attributes(names), x) == LastValue(Enumerate(names, 1), x) {
      FromPairsLaterWins(Enumerate(names, 1), x);
    }
  }

  /** Each attribute holds the order of the executable's last appending, counted from 1. */
  lemma AttributeValues(names: seq<string>, x: string)
    requires x in names
    ensures Get(Attributes(names), x) == Some(1 + LastIndexOf(names, x))
  {
    FromPairsLaterWins(Enumerate(names, 1), x);
    EnumerateLastValue(names, 1, x);
  }

  /** Names that are already distinct come back unchanged. */
  lemma {:induction false} DedupOfDistinct(s: seq<string>)
    requires forall i, j :: 0 <= i < j < |s| ==> s[i] != s[j]
    ensures Dedup(s) == s
    decreases |s|
  {
    if s != [] {
      var front := s[..|s| - 1];
      DedupOfDistinct(front);
      assert s[|s| - 1] !in front;
      assert front + [s[|s| - 1]] == s;
    }
  }

  /** `ExecutableBuilder.Execution`: an object whose attributes are the executables, valued by
      their order from 1. */
  class Execution {
    var attrs: Dict<int>

    /** `Execution.__init__` (execs.py:40-42): the `enumerate` loop of `setattr` calls. */
    constructor(builder: ExecutableBuilder)
      ensures attrs == Attributes(builder.execution)
    {
      var names := builder.execution;
      attrs := [];
      new;
      for i := 0 to |names|
        invariant attrs == FromPairs(Enumerate(names[..i], 1))
      {
        assert Enumerate(names[..i + 1], 1)[..i] == Enumerate(names[..i], 1);
        attrs := Insert(attrs, names[i], i + 1);
      }
      assert names[..|names|] == names;
    }
  }

  class ExecutableBuilder {
    /** None until `set_solution_type` sets the attribute. */
    var solution: Option<string>
    var execution: seq<string>

    /** `__init__` (execs.py:24-25): no executable yet, and no solution attribute. */
    constructor()
      ensures solution == None && execution == []
    {
      solution := None;
      execution := [];
    }

    /** `set_solution_type` (execs.py:27-29). */
    method SetSolutionType(s: string) returns (b: ExecutableBuilder)
      modifies this
      ensures solution == Some(s) && execution == old(execution)
      ensures b == this
    {
      solution := Some(s);
      b := this;
    }

    /** `set_executable` (execs.py:31-33): appends, keeping the earlier entries. */
    method SetExecutable(e: string) returns (b: ExecutableBuilder)
      modifies this
      ensures execution == old(execution) + [e] && solution == old(solution)
      ensures b == this
    {
      execution := execution + [e];
      b := this;
    }

    /** `get_result` (execs.py:35-37): the solution and the attribute names of a fresh `Execution`
        : the executables without repeats, in order of first appending; without a solution the
        attribute lookup raises. */
    method GetResult() returns (r: Result<Product, BuildError>)
      ensures solution.None? ==> r == Failure(NoSolutionAttribute)
      ensures solution.Some? ==> r == Success(Product(solution.value, Dedup(execution)))
    {
      var ex := new Execution(this);
      match solution
      case None =>
        r := Failure(NoSolutionAttribute);
      case Some(s) =>
        AttributeNames(execution);
        r := Success(Product(s, Keys(ex.attrs)));
    }
  }

  /** `ElasticDirector.construct` (execs.py:46-54). */
  method ElasticConstruct() returns (r: Result<Product, BuildError>)
    ensures r == Success(Product("ElasticSearch", ["RollingRestart", "FileTransfer", "ClusterHealthCheck"]))
  {
    var b := new ExecutableBuilder();
    b := b.SetSolutionType("ElasticSearch");
    b := b.SetExecutable("RollingRestart");
    b := b.SetExecutable("FileTransfer");
    b := b.SetExecutable("ClusterHealthCheck");
    assert b.execution == ["RollingRestart", "FileTransfer", "ClusterHealthCheck"];
    DedupOfDistinct(b.execution);
    r := b.GetResult();
  }

  /** `RedisDirector.construct` (execs.py:59-67). */
  method RedisConstruct() returns (r: Result<Product, BuildError>)
    ensures r == Success(Product("Redis", ["RollingRestart", "FileTransfer", "Ping"]))
  {
    var b := new ExecutableBuilder();
    b := b.SetSolutionType("Redis");
    b := b.SetExecutable("RollingRestart");
    b := b.SetExecutable("FileTransfer");
    b := b.SetExecutable("Ping");
    assert b.execution == ["RollingRestart", "FileTransfer", "Ping"];
    DedupOfDistinct(b.execution);
    r := b.GetResult();
  }
}
