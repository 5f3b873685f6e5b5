/** The agent helper (app/core_features/AGENT.py): the version check, the upload of files to every
    agent, and the numbering of the files of the agent directory. HTTP, the directory listing and
    the token are inputs. */
module Agent {
  import opened Base
  import opened Text
  import opened PyDict
  import opened Restart

  /** `requests`' `Response.ok`: the status is not a client or server error. */
  predicate Ok(code: int)
  {
    !(400 <= code < 600)
  }

  /** What `requests.get(node + "/")` yields: a response with its status and the "version" field
      of its JSON body (absent or not), or an exception. */
  datatype VersionReply = Response(code: int, version: Option<string>) | GetError

  /** How `status` ends: True, False, or an exception (the ConnectionError it raises itself, or
      the one from `requests.get`). */
  datatype StatusOutcome = Matches | Differs | Raises

  /** `Agent.status` (AGENT.py:29-39). `expected` is `os.getenv("AGENT_VERSION")`; an unset
      variable and a reply without a version are both None, and None equals None. */
  function Status(reply: VersionReply, expected: Option<string>): (r: StatusOutcome)
    ensures r == Matches <==> reply.Response? && Ok(reply.code) && reply.version == expected
    ensures r == Differs <==> reply.Response? && Ok(reply.code) && reply.version != expected
    ensures r == Raises <==> reply.GetError? || 400 <= reply.code < 600
  {
    match reply
    case GetError => Raises
    case Response(code, version) =>
      if Ok(code) then (if version == expected then Matches else Differs) else Raises
  }

  /** How `agent_sync` ends: with its verdict, or with the exception a POST raised (there is no
      `try`, so it propagates and the later nodes are not contacted). */
  datatype SyncOutcome = Synced(allOk: bool) | SyncRaised

  function UploadUrl(node: string): string
  {
    node + "/file_upload"
  }

  /** `Agent.agent_sync` (AGENT.py:41-56): the same dict is posted to every node in order, each
      POST recorded as its URL and the uploaded dict; a failed upload does not stop the others, and
      the verdict is True exactly when every response was ok; no node at all gives True. */
  method AgentSync(nodes: seq<string>, files: Dict<Upload>, replies: seq<Reply>) returns (outcome: SyncOutcome, posted: seq<(string, Dict<Upload>)>)
    requires |replies| == |nodes|
    ensures outcome.Synced? <==> forall i :: 0 <= i < |replies| ==> replies[i].Status?
    ensures outcome.Synced? ==> (outcome.allOk <==> forall i :: 0 <= i < |replies| ==> Ok(replies[i].code))
    ensures outcome.Synced? ==> |posted| == |nodes|
    ensures outcome.SyncRaised? ==> (&& 1 <= |posted| <= |nodes| && replies[|posted| - 1] == PostError
                                    && forall i :: 0 <= i < |posted| - 1 ==> replies[i].Status?)
    ensures forall i :: 0 <= i < |posted| ==> posted[i] == (UploadUrl(nodes[i]), files)
  {
    var success: seq<bool> := [];
    posted := [];
    for i := 0 to |nodes|
      invariant |success| == i && |posted| == i
      invariant forall j :: 0 <= j < i ==> replies[j].Status? && (success[j] <==> Ok(replies[j].code))
      invariant forall j :: 0 <= j < i ==> posted[j] == (UploadUrl(nodes[j]), files)
    {
      posted := posted + [(UploadUrl(nodes[i]), files)];
      if replies[i] == PostError {
        return SyncRaised, posted;
      }
      success := success + [Ok(replies[i].code)];
    }
    outcome := Synced(forall j :: 0 <= j < |success| ==> success[j]);
  }

  /** At most this many directory entries are looked at. */
  const MaxFiles: nat := 10000

  /** `_file_list` over a part of the listing whose first entry has position `start`: every regular
      file yields its position, as decimal text, and its name. */
  function Numbered(names: seq<string>, isFile: set<string>, start: nat): seq<(string, string)>
    decreases |names|
  {
    if names == [] then []
    else
      (if names[0] in isFile then [(NatToString(start), names[0])] else [])
      + Numbered(names[1..], isFile, start + 1)
  }

  /** `Agent._file_list` (AGENT.py:17-21): `zip(range(10000), listing)` stops at the shorter, and
      only regular files are yielded. */
  function FileList(listing: seq<string>, isFile: set<string>): seq<(string, string)>
  {
    Numbered(listing[..if |listing| < MaxFiles then |listing| else MaxFiles], isFile, 0)
  }

  /** The position a key stands for: the number its decimal text denotes, or -1 for a key that is
      not decimal text. */
  function Position(key: string): int
  {
    match ParseInt(key)
    case Some(n) => n
    case None => -1
  }

  lemma PositionOfDecimal(n: nat)
    ensures Position(NatToString(n)) == n
  {
    ParseIntOfDecimal(n);
  }

  /** A yielded pair: its key is the decimal text of a position among `names` (which start at
      position `start`), and its value is the regular file at that position. */
  predicate NumberedEntry(e: (string, string), names: seq<string>, isFile: set<string>, start: nat)
  {
    && start <= Position(e.0) < start + |names|
    && e.0 == NatToString(Position(e.0))
    && e.1 == names[Position(e.0) - start] && e.1 in isFile
  }

  /** Every pair yielded names a regular file by the decimal text of its position. */
  lemma {:induction false} NumberedEntries(names: seq<string>, isFile: set<string>, start: nat)
    ensures forall j :: 0 <= j < |Numbered(names, isFile, start)| ==> NumberedEntry(Numbered(names, isFile, start)[j], names, isFile, start)
    decreases |names|
  {
    if names != [] {
      var r := Numbered(names, isFile, start);
      var head := if names[0] in isFile then [(NatToString(start), names[0])] else [];
      var t := Numbered(names[1..], isFile, start + 1);
      NumberedEntries(names[1..], isFile, start + 1);
      assert r == head + t;
      PositionOfDecimal(start);
      forall j | 0 <= j < |r| ensures NumberedEntry(r[j], names, isFile, start) {
        if j >= |head| {
          var jj := j - |head|;
          assert 0 <= jj < |t| && r[j] == t[jj];
          assert NumberedEntry(t[jj], names[1..], isFile, start + 1);
          var p := Position(t[jj].0);
          assert names[1..][p - (start + 1)] == names[p - start];
        }
      }
    }
  }

  /** Every regular file among `names` is yielded, keyed by the decimal text of its position. */
  lemma {:induction false} NumberedComplete(names: seq<string>, isFile: set<string>, start: nat)
    ensures forall i :: 0 <= i < |names| && names[i] in isFile ==> (NatToString(start + i), names[i]) in Numbered(names, isFile, start)
    decreases |names|
  {
    if names != [] {
      var r := Numbered(names, isFile, start);
      var head := if names[0] in isFile then [(NatToString(start), names[0])] else [];
      var t := Numbered(names[1..], isFile, start + 1);
      NumberedComplete(names[1..], isFile, start + 1);
      assert r == head + t;
      forall i | 0 <= i < |names| && names[i] in isFile ensures (NatToString(start + i), names[i]) in r {
        if i > 0 {
          assert names[1..][i - 1] == names[i];
          assert (NatToString(start + 1 + (i - 1)), names[1..][i - 1]) in t;
        }
      }
    }
  }

  /** The positions of the yielded pairs strictly increase, so no key repeats. */
  lemma {:induction false} NumberedOrdered(names: seq<string>, isFile: set<string>, start: nat)
    ensures forall j, k :: 0 <= j < k < |Numbered(names, isFile, start)| ==>
              Position(Numbered(names, isFile, start)[j].0) < Position(Numbered(names, isFile, start)[k].0)
    decreases |names|
  {
    if names != [] {
      var r := Numbered(names, isFile, start);
      var head := if names[0] in isFile then [(NatToString(start), names[0])] else [];
      var t := Numbered(names[1..], isFile, start + 1);
      NumberedOrdered(names[1..], isFile, start + 1);
      NumberedEntries(names[1..], isFile, start + 1);
      assert r == head + t;
      PositionOfDecimal(start);
      forall j, k | 0 <= j < k < |r| ensures Position(r[j].0) < Position(r[k].0) {
        if j >= |head| {
          assert r[j] == t[j - |head|] && r[k] == t[k - |head|];
        } else {
          assert r[k] == t[k - |head|];
          assert NumberedEntry(t[k - |head|], names[1..], isFile, start + 1);
        }
      }
    }
  }

  lemma {:induction false} NumberedLength(names: seq<string>, isFile: set<string>, start: nat)
    ensures |Numbered(names, isFile, start)| <= |names|
    decreases |names|
  {
    if names != [] {
      NumberedLength(names[1..], isFile, start + 1);
    }
  }

  /** What `_file_list` promises: every key is the decimal text of the position of a regular file
      among the first `MaxFiles` entries and its value is that file, every such file is listed, and
      no key repeats. */
  lemma FileListSpec(listing: seq<string>, isFile: set<string>)
    ensures |FileList(listing, isFile)| <= MaxFiles
    ensures forall j :: 0 <= j < |FileList(listing, isFile)| ==>
              && 0 <= Position(FileList(listing, isFile)[j].0) < |listing|
              && Position(FileList(listing, isFile)[j].0) < MaxFiles
              && FileList(listing, isFile)[j]
                 == (NatToString(Position(FileList(listing, isFile)[j].0)), listing[Position(FileList(listing, isFile)[j].0)])
              && listing[Position(FileList(listing, isFile)[j].0)] in isFile
    ensures forall i :: 0 <= i < |listing| && i < MaxFiles && listing[i] in isFile ==> (NatToString(i), listing[i]) in FileList(listing, isFile)
    ensures UniqueKeys(FileList(listing, isFile))
  {
    var n := if |listing| < MaxFiles then |listing| else MaxFiles;
    var names := listing[..n];
    var r := FileList(listing, isFile);
    NumberedEntries(names, isFile, 0);
    NumberedComplete(names, isFile, 0);
    NumberedOrdered(names, isFile, 0);
    NumberedLength(names, isFile, 0);
    assert r == Numbered(names, isFile, 0);
    forall j | 0 <= j < |r|
      ensures 0 <= Position(r[j].0) < |listing| && Position(r[j].0) < MaxFiles
      ensures r[j] == (NatToString(Position(r[j].0)), listing[Position(r[j].0)])
      ensures listing[Position(r[j].0)] in isFile
    {
      assert NumberedEntry(r[j], names, isFile, 0);
      assert names[Position(r[j].0) - 0] == listing[Position(r[j].0)];
    }
    forall i | 0 <= i < |listing| && i < MaxFiles && listing[i] in isFile ensures (NatToString(i), listing[i]) in r {
      assert names[i] == listing[i];
      assert (NatToString(0 + i), names[i]) in r;
    }
    forall j, k | 0 <= j < k < |r| ensures r[j].0 != r[k].0 {
      assert Position(r[j].0) < Position(r[k].0);
    }
  }

  /** A value of `Agent.files`: an opened file of the agent directory, or the token. */
  datatype Upload = Opened(name: string) | Token(token: string)

  /** The dict comprehension over `_file_list`: each file opened under its own key. */
  function AsUploads(ps: seq<(string, string)>): (r: Dict<Upload>)
    ensures Keys(r) == Keys(ps)
  {
    seq(|ps|, i requires 0 <= i < |ps| => (ps[i].0, Opened(ps[i].1)))
  }

  /** Looking a key up among the uploads gives the file listed under it, opened. */
  lemma {:induction false} AsUploadsGet(ps: seq<(string, string)>, k: string)
    ensures Get(ps, k).None? ==> Get(AsUploads(ps), k) == None
    ensures Get(ps, k).Some? ==> Get(AsUploads(ps), k) == Some(Opened(Get(ps, k).value))
    decreases |ps|
  {
    if ps != [] {
      assert AsUploads(ps)[1..] == AsUploads(ps[1..]);
      AsUploadsGet(ps[1..], k);
    }
  }

  /** The numbered files followed by the token. */
  function Loaded(listing: seq<string>, isFile: set<string>, token: string): Dict<Upload>
  {
    AsUploads(FileList(listing, isFile)) + [("token", Token(token))]
  }

  /** No numbered file has the key "token": a number's decimal text starts with a digit. */
  lemma DecimalIsNotToken(n: nat)
    ensures NatToString(n) != "token"
  {
    assert IsDigit(NatToString(n)[0]);
  }

  /** After `file_load` the files are the numbered regular files, each key once, and the token last
      under "token", a key no numbered file can have. */
  lemma LoadedSpec(listing: seq<string>, isFile: set<string>, token: string)
    ensures UniqueKeys(Loaded(listing, isFile, token))
    ensures |Loaded(listing, isFile, token)| == |FileList(listing, isFile)| + 1
    ensures Get(Loaded(listing, isFile, token), "token") == Some(Token(token))
    ensures forall j :: 0 <= j < |Loaded(listing, isFile, token)| - 1 ==>
              && Loaded(listing, isFile, token)[j].1.Opened?
              && 0 <= Position(Loaded(listing, isFile, token)[j].0) < MaxFiles
  {
    var r := FileList(listing, isFile);
    var u := AsUploads(r);
    var d := Loaded(listing, isFile, token);
    FileListSpec(listing, isFile);
    assert d == u + [("token", Token(token))];
    forall j | 0 <= j < |u| ensures d[j] == u[j] && u[j].0 == r[j].0 && u[j].0 != "token" {
      DecimalIsNotToken(Position(r[j].0));
    }
    GetLast(u, "token", Token(token));
  }

  /** Looking up a key that the dict does not have before its last entry finds the last entry. */
  lemma {:induction false} GetLast<V>(d: Dict<V>, k: string, v: V)
    requires forall j :: 0 <= j < |d| ==> d[j].0 != k
    ensures Get(d + [(k, v)], k) == Some(v)
    decreases |d|
  {
    if d != [] {
      assert (d + [(k, v)])[1..] == d[1..] + [(k, v)];
      GetLast(d[1..], k, v);
    }
  }

  /** Reading `Agent.files` before any `file_load` raises AttributeError. */
  datatype FilesError = NoFilesAttribute

  /** An object of this class stands for the class `Agent` itself: `Agent()` returns the class, so
      every instance is this one object, and `files` is a class attribute that is absent (None)
      until `file_load` sets it. */
  class Agent {
    var files: Option<Dict<Upload>>

    /** The class statement (AGENT.py:6-7): the class has no `files` attribute yet. */
    constructor()
      ensures files == None
    {
      files := None;
    }

    /** `Agent()` (AGENT.py:9-10): `__new__` returns the class itself, so the new instance is this
        very object and shares whatever an earlier `file_load` stored. */
    method Instance() returns (a: Agent)
      ensures a == this && a.files == files
    {
      a := this;
    }

    /** Reading `Agent.files`: the loaded files, or AttributeError while nothing was loaded. */
    method Files() returns (r: Result<Dict<Upload>, FilesError>)
      ensures files.None? ==> r == Failure(NoFilesAttribute)
      ensures files.Some? ==> r == Success(files.value)
    {
      match files
      case None => r := Failure(NoFilesAttribute);
      case Some(d) => r := Success(d);
    }

    /** `Agent.file_load` (AGENT.py:23-27): the dict comprehension over `_file_list`, then the
        token under "token". */
    method FileLoad(listing: seq<string>, isFile: set<string>, token: string)
      modifies this
      ensures files == Some(Loaded(listing, isFile, token))
    {
      var pairs := FileList(listing, isFile);
      FileListSpec(listing, isFile);
      var loaded: Dict<Upload> := [];
      for i := 0 to |pairs|
        invariant |loaded| == i
        invariant forall j :: 0 <= j < i ==> loaded[j] == (pairs[j].0, Opened(pairs[j].1))
      {
        assert pairs[i].0 !in Keys(loaded) by {
          forall j | 0 <= j < i ensures Keys(loaded)[j] != pairs[i].0 {
            assert pairs[j].0 != pairs[i].0;
          }
        }
        loaded := Insert(loaded, pairs[i].0, Opened(pairs[i].1));
      }
      assert loaded == AsUploads(pairs);
      assert "token" !in Keys(loaded) by {
        forall j | 0 <= j < |loaded| ensures Keys(loaded)[j] != "token" {
          assert loaded[j].0 == pairs[j].0;
          DecimalIsNotToken(Position(pairs[j].0));
        }
      }
      files := Some(Insert(loaded, "token", Token(token)));
    }
  }

  /** Before any `file_load`, `Agent().files` raises. */
  method FilesBeforeLoad() returns (seen: Result<Dict<Upload>, FilesError>)
    ensures seen == Failure(NoFilesAttribute)
  {
    var cls := new Agent();
    var agent := cls.Instance();
    seen := agent.Files();
  }

  /** Files loaded through one `Agent()` are what every later `Agent()` sees. */
  method SharedFiles(listing: seq<string>, isFile: set<string>, token: string) returns (seen: Result<Dict<Upload>, FilesError>)
    ensures seen == Success(Loaded(listing, isFile, token))
  {
    var cls := new Agent();
    var first := cls.Instance();
    first.FileLoad(listing, isFile, token);
    var second := cls.Instance();
    seen := second.Files();
  }
}
