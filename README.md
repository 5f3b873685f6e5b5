# migo_server_management, modelled in Dafny

This project models the orchestration core of migo_server_management. It covers:

- the drivers for an Elasticsearch cluster and a Redis cluster;
- the older Elasticsearch rolling-restart driver;
- the agent helper that checks agent versions and uploads files to them;
- the executable builder;
- the validators of the registration form.

A driver works its cluster node by node. It waits until the cluster reports healthy, asks the node's agent (port 5000) to restart the node, and waits again. Configuration is fanned out to every agent.

Nothing here talks to a network. Each outcome the code would get from outside is read from the next entry of an input trace:

- a cluster-health probe: green, not green, or an exception;
- a POST: a status code or an exception;
- a socket answer.

A rolling restart yields a `Restart.Run`: the actions taken for each agent reached, and how the run ended. The outcome is one of:

- `Done`: it returned True;
- `Failed`: it returned False;
- `Raised`: an exception escaped;
- `OutOfTrace`: the trace ran out before the loop would have returned.

The rolling-restart loops are `method`s with loop invariants, proved equal to recursive specification functions (`NodeStep`, `RunFrom`, `AwaitGreen`, `Recover`). Lemmas then prove about those functions what the code guarantees. The other loops are `method`s whose `ensures` state their result outright or tie it to a function (`Reports`, `Loaded`, `FromPairs`) whose properties are proved as lemmas. Above all, no restart is posted unless the probe just before it was green. Every agent but the last one reached ends on a green probe before the next agent is touched.

Modules:

- `Base`: the Option and Result types.
- `Text`: the string operations applied to node addresses: `re.sub` with a literal pattern, `rsplit`, `split`, `str(int)` and `int(str)`.
- `PyDict`: Python's insertion-ordered dict as an association list.
- `Restart`: the traces, runs and the wait-for-green loop shared by the restart loops.
- `Fanout`: the per-agent error reports of `SetConfiguration`.
- `Es` and `EsFlatten`: `app/core_features/ES.py`.
- `Redis`: `app/core_features/REDIS.py`.
- `LegacyRestart`: `app/core_features/RollingRestart.py`.
- `Agent`: `app/core_features/AGENT.py`.
- `Execs`: `app/execs.py`.
- `AuthForms`: `app/auth/forms.py`.

Behaviour of the code worth noting:

- `SetConfiguration` sends the dict unchanged. No "true"/"false" or comma-list coercion happens.
- The Elasticsearch restart POST carries no port.
- Some exceptions escape:
  - the Elasticsearch recovery probes sit outside the `try`;
  - `agent_sync` has no `try` at all;
  - `status` raises `ConnectionError` itself.
- Redis treats an unhealthy first probe as a failure of the whole run rather than a wait.
- The upload path is `/file_upload`, and the legacy restart path is `/command/restart`.

## Model

| member | source | states |
|---|---|---|
| Text.ReplaceAllAbsent | app/core_features/ES.py:18 | `re.sub("https", "http", s)` leaves a string without "https" unchanged |
| Text.ReplaceAllCons | app/core_features/ES.py:18 | a first character that cannot start "https" is kept and the rest is rewritten |
| Text.ReplaceAllHead | app/core_features/ES.py:18 | a leading "https" becomes "http" and the rest is rewritten |
| Text.ReplaceAllSkip | app/core_features/ES.py:18 | a prefix without the pattern's first character passes through unchanged |
| Text.LastIndex | app/core_features/ES.py:18 | the index of the last ':' (no ':' after it), or -1 exactly when there is none |
| Text.BeforeLast | app/core_features/ES.py:18 | `rsplit(":", 1)[0]`: the whole string without ':', otherwise the prefix before the last ':' |
| Text.BeforeLastAt | app/core_features/ES.py:18 | the prefix before a ':' after which no ':' follows is what `rsplit` keeps |
| Text.IndexOf | app/core_features/REDIS.py:13 | the first occurrence of the separator, or the length when it is absent |
| Text.Split | app/core_features/REDIS.py:13 | `split(":")`: at least one field, no field holds ':', and joining them with ':' gives the input back |
| Text.SplitCons | app/core_features/REDIS.py:13 | a field followed by ':' is split off as the first field |
| Text.SplitNone | app/core_features/REDIS.py:13 | text without ':' is one field |
| Text.DigitChar | app/core_features/AGENT.py:21 | a digit below ten becomes the digit character of that value |
| Text.NatToString | app/core_features/AGENT.py:21 | `str(n)` is a non-empty run of decimal digits with no leading zero; it starts with '0' exactly for 0 |
| Text.DecimalRoundTrip | app/core_features/AGENT.py:21 | reading back the digits of `str(n)` gives n |
| Text.ParseIntOfDecimal | app/core_features/REDIS.py:14 | `int(str(n)) == n` |
| Text.NatToStringInjective | app/core_features/AGENT.py:19-21 | different positions have different decimal keys |
| PyDict.GetPresent | app/core_features/AGENT.py:33 | `d.get(k)` finds a value exactly when k is a key |
| PyDict.Insert | app/core_features/AGENT.py:27 | `d[k] = v`: an existing key keeps its place, a new key goes last, and k now maps to v |
| PyDict.InsertOther | app/core_features/AGENT.py:27 | assigning to one key leaves every other key's value unchanged |
| PyDict.InsertEntries | app/core_features/AGENT.py:27 | after an assignment every entry was there before or is the new one |
| PyDict.InsertUnique | app/core_features/AGENT.py:27 | assignment never creates a repeated key |
| PyDict.LastValueAbsent | app/core_features/ES.py:135 | a key no pair carries has no last value |
| PyDict.LastValueConcat | app/core_features/ES.py:135 | the last value for a key in two pair lists joined comes from the second list when it carries the key, otherwise from the first |
| PyDict.FromPairsLaterWins | app/core_features/ES.py:135 | `dict(pairs)` maps each key to the value of its last pair |
| PyDict.FromPairsWellFormed | app/core_features/ES.py:135 | `dict(pairs)` has no repeated key and holds only given pairs |
| PyDict.FromPairsOfUnique | app/core_features/ES.py:135 | pairs with distinct keys make a dict equal to themselves |
| PyDict.FirstIndex | app/execs.py:41-42 | the first position holding a value |
| PyDict.DedupMembers | app/execs.py:35-42 | deduplication keeps exactly the elements of the list |
| PyDict.DedupDistinct | app/execs.py:35-42 | deduplication lists every element once |
| PyDict.DedupOrder | app/execs.py:35-42 | deduplication lists elements in order of first occurrence |
| PyDict.DedupSpec | app/execs.py:35-42 | deduplication keeps every element and nothing else, each once, in order of first occurrence |
| PyDict.FromPairsKeys | app/execs.py:36-42 | the keys of `dict(pairs)` are the pairs' keys deduplicated, first occurrence kept |
| Restart.PostsGatedConcat | app/core_features/ES.py:44-72 | joining logs in which every POST follows a green probe keeps that property |
| Restart.PostsGatedFlatten | app/core_features/ES.py:44-72 | the whole run keeps the property when every agent's log does |
| Restart.WaitHasNoPost | app/core_features/ES.py:64-72 | the wait for green issues no POST |
| Restart.AwaitGreen | app/core_features/ES.py:64-72 | the wait reads probes up to the first green or exception and reads no POST reply; its log is exactly the probes read |
| Restart.WaitForGreen | app/core_features/ES.py:64-72 | the `while status != "green"` loop does what `AwaitGreen` specifies |
| Fanout.ReportsSnoc | app/core_features/ES.py:105-117 | handling one more agent appends exactly that agent's report, if any |
| Fanout.ReportsEmpty | app/core_features/ES.py:118-121 | no report is made exactly when every agent answered 200 |
| Fanout.ReportsNameFailingAgents | app/core_features/ES.py:105-117 | every report names an agent whose reply was not 200, with that reply's failure |
| Es.AgentAddress | app/core_features/ES.py:17-18 | every agent address ends in ":5000" |
| Es.AgentOfNodeUrl | app/core_features/ES.py:18 | `http(s)://host:port` gives the agent `http://host:5000` |
| Es.AgentOfPortlessUrl | app/core_features/ES.py:18 | `https://host` without a port gives "http:5000": `rsplit` cuts at the scheme's ':' |
| Es.RewritesScheme | app/core_features/ES.py:18 | the only "https" rewritten is the scheme |
| Es.Init | app/core_features/ES.py:13-20 | one agent per node, in order, each the node's agent address; credentials split at ':' exactly when given non-empty; the legacy `__init__` (app/core_features/RollingRestart.py:8-15) is the same code and is modelled by this method |
| Es.NodeStep | app/core_features/ES.py:45-72 | one agent's step always has a shape the agent-log predicate allows |
| Es.NodeLogFacts | app/core_features/ES.py:45-72 | the only POST is the restart of this agent, right after a green probe; it ends in False exactly on a raising first probe or a raising POST; it moves on only after a green probe; it never returns True by itself |
| Es.RunShape | app/core_features/ES.py:44-74 | a run reaches agents in order, at most all of them and all of them when it returns True, and each agent's log is one the agent-log predicate allows |
| Es.RollingRestartSafety | app/core_features/ES.py:22-74 | every POST follows a green probe and goes to the restart URL of its own agent; every agent but the last reached ends on green; True means every agent was passed and ended on a green probe (an agent whose first probe is not green is passed without a restart POST, and one whose restart reply is not 200 is passed all the same); False exactly when the last agent's first probe or restart POST raised |
| Es.RestartNode | app/core_features/ES.py:45-72 | the nested loops for one agent do what `NodeStep` specifies |
| Es.RollingRestart | app/core_features/ES.py:42-74 | the restart loop does what `RollingRestartRun` specifies, and a client that cannot be built raises |
| Es.SetConfiguration | app/core_features/ES.py:101-121 | one configuration POST per agent to its configuration URL with the data; the verdict is success exactly when every reply is 200, otherwise it lists a report per failing agent |
| EsFlatten.ChildKey | app/core_features/ES.py:127 | a top-level key is kept; a nested key starts with the parent path and the separator, and is as long as those and the key together |
| EsFlatten.Gen | app/core_features/ES.py:125-131 | every yielded value is a scalar, and under a parent path every key extends that path and the separator |
| EsFlatten.Flatten | app/core_features/ES.py:133-135 | the result is flat, has no repeated key, and keeps the parent prefix |
| EsFlatten.KeyOfPairs | app/core_features/ES.py:135 | every yielded key is a key of the built dict |
| EsFlatten.LeafKept | app/core_features/ES.py:126-131 | a scalar entry keeps its (prefixed) key in the result |
| EsFlatten.GenHasLeaf | app/core_features/ES.py:126-131 | a scalar entry is yielded with its prefixed key |
| EsFlatten.NestedKept | app/core_features/ES.py:128-129 | every key of a nested mapping's flattening is a key of the whole flattening |
| EsFlatten.GenHasNested | app/core_features/ES.py:128-129 | every key of a nested mapping's flattening is yielded |
| EsFlatten.GenKeysFrom | app/core_features/ES.py:125-131 | every yielded key is a scalar's path or a key of a nested mapping's flattening under its path |
| EsFlatten.FlattenKeys | app/core_features/ES.py:124-135 | a key is in the result exactly when some item yields it: a scalar at that path, or a nested mapping whose flattening has that key |
| EsFlatten.GenLeafValue | app/core_features/ES.py:125-131 | the last value yielded for a scalar's path is that scalar when no later item yields the path |
| EsFlatten.LeafValue | app/core_features/ES.py:124-135 | a scalar is found under its path with its own value unless a later item yields the same path |
| EsFlatten.FlattenLaterWins | app/core_features/ES.py:135 | a key yielded twice takes the value yielded last |
| EsFlatten.GenOfFlat | app/core_features/ES.py:125-131 | flat items at the top level yield themselves |
| EsFlatten.FlattenOfFlat | app/core_features/ES.py:133-135 | a dict that is already flat is returned unchanged |
| EsFlatten.FlattenIdempotent | app/core_features/ES.py:133-135 | flattening twice is flattening once |
| Redis.ParseNode | app/core_features/REDIS.py:13-14 | a node parses exactly when it has a ':' and its second field is an integer |
| Redis.ParseNodeOfAddress | app/core_features/REDIS.py:13-14 | `host:port`, and `host:port:rest`, parse to `(host, port)` |
| Redis.Init | app/core_features/REDIS.py:8-14 | the driver is built exactly when every node parses, with one agent per node in order; otherwise the first bad node raises |
| Redis.CommandsPrefix | app/core_features/REDIS.py:22-28 | a node receives a prefix of "auth" (with credentials) then "ping": the ping exactly when the exchange got past the auth step, the auth command exactly when the connection was made |
| Redis.ClusterHealthCheck | app/core_features/REDIS.py:16-39 | healthy exactly when every node answered "+PONG\r\n"; each node is recorded with the commands it received before its exchange ended |
| Redis.Recover | app/core_features/REDIS.py:65-77 | the recovery wait reads no POST reply and logs no more probes than it read |
| Redis.RecoverShape | app/core_features/REDIS.py:67-73 | the wait logs unhealthy probes, at most five, and then a healthy one or a sixth probe |
| Redis.RecoverVerdict | app/core_features/REDIS.py:67-77 | it moves on exactly when one of the first five probes is healthy, and fails exactly when those five are all unhealthy |
| Redis.RecoveryBound | app/core_features/REDIS.py:65-77 | the wait makes at most six probes; moving on needs a healthy one among the first five |
| Redis.WaitForRecovery | app/core_features/REDIS.py:65-77 | the `while not healthy and cnt < MAXTRIAL` loop does what `Recover` specifies |
| Redis.NodeStepShape | app/core_features/REDIS.py:48-77 | one agent's step has a shape the agent-log predicate allows |
| Redis.NodeLogFacts | app/core_features/REDIS.py:48-77 | the only POST is this agent's restart with its port, right after a healthy check; an unhealthy first check fails at once; moving on needs a healthy check within at most seven actions; nothing escapes |
| Redis.RunShape | app/core_features/REDIS.py:47-78 | a run reaches agents in order, all of them when it returns True, each with an allowed log |
| Redis.RollingRestartSafety | app/core_features/REDIS.py:46-78 | every POST follows a healthy check and goes to its own agent with that agent's port; an unhealthy first check can only end the run with False; every agent but the last reached recovered within the bound; no exception escapes |
| Redis.RestartNode | app/core_features/REDIS.py:48-77 | the loops for one agent do what `NodeStep` specifies |
| Redis.RollingRestart | app/core_features/REDIS.py:46-78 | the restart loop does what `RunFrom` specifies |
| Redis.Configuration | app/core_features/REDIS.py:80-95 | agents are asked in order until one answers; the first answer is returned; if none answers, the last error is returned; with no agent it raises |
| Redis.SetConfiguration | app/core_features/REDIS.py:99-118 | one set-config POST per agent with its port and the data; success exactly when every reply is 200, otherwise one report per failing agent |
| LegacyRestart.NodeStepShape | app/core_features/RollingRestart.py:33-58 | one agent's step has a shape the legacy agent-log predicate allows |
| LegacyRestart.NodeLogFacts | app/core_features/RollingRestart.py:33-58 | every POST follows a green probe and goes to this agent's restart URL; moving on needs a green probe; a failure is retried, never returned |
| LegacyRestart.RunShape | app/core_features/RollingRestart.py:32-60 | a run reaches agents in order, all of them when it returns True, each with an allowed log |
| LegacyRestart.RollingRestartSafety | app/core_features/RollingRestart.py:17-60 | every POST follows a green probe and goes to its own agent; every agent but the last reached ends green; the run never returns False |
| LegacyRestart.RestartNode | app/core_features/RollingRestart.py:33-58 | the retrying loop for one agent does what `NodeStep` specifies |
| LegacyRestart.RollingRestart | app/core_features/RollingRestart.py:30-60 | the restart loop does what `RollingRestartRun` specifies, and a client that cannot be built raises |
| Agent.Status | app/core_features/AGENT.py:29-39 | True exactly when the reply is ok and its version equals the expected one (both possibly absent); False when ok with another version; an exception otherwise |
| Agent.AgentSync | app/core_features/AGENT.py:41-56 | every node is posted the same dict in order at its upload URL; a raising POST ends the call at that node; otherwise the verdict is True exactly when every reply was ok |
| Agent.PositionOfDecimal | app/core_features/AGENT.py:21 | the key `str(n)` stands for position n |
| Agent.NumberedEntries | app/core_features/AGENT.py:18-21 | every yielded pair is the decimal position of a regular file in the listing and that file |
| Agent.NumberedComplete | app/core_features/AGENT.py:18-21 | every regular file in the part looked at is yielded |
| Agent.NumberedOrdered | app/core_features/AGENT.py:18-21 | positions of yielded pairs strictly increase |
| Agent.NumberedLength | app/core_features/AGENT.py:18-21 | no more pairs than entries |
| Agent.FileListSpec | app/core_features/AGENT.py:17-21 | at most 10000 files; exactly the regular files among the first 10000 entries, keyed by their position; no key repeats |
| Agent.AsUploads | app/core_features/AGENT.py:25 | the uploads have exactly the listed keys, in the listed order |
| Agent.AsUploadsGet | app/core_features/AGENT.py:25 | looking a key up among the uploads gives the file listed under it, opened, and nothing for an unlisted key |
| Agent.DecimalIsNotToken | app/core_features/AGENT.py:25-27 | no file key is "token" |
| Agent.LoadedSpec | app/core_features/AGENT.py:23-27 | after loading, keys are unique, there is one entry per listed file plus the token, "token" maps to the token, and every other entry is an opened file under a position below 10000 |
| Agent.GetLast | app/core_features/AGENT.py:27 | a key added last and absent before is found with its value |
| Agent.Agent.constructor | app/core_features/AGENT.py:6-7 | the class starts without a `files` attribute |
| Agent.Agent.Instance | app/core_features/AGENT.py:9-10 | `Agent()` is the class object itself, with the same `files` |
| Agent.Agent.Files | app/core_features/AGENT.py:26-27 | reading `files` gives the loaded files, or AttributeError before any load |
| Agent.Agent.FileLoad | app/core_features/AGENT.py:23-27 | `files` becomes the numbered regular files followed by the token |
| Agent.FilesBeforeLoad | app/core_features/AGENT.py:6-10 | before any `file_load`, reading `Agent().files` raises |
| Agent.SharedFiles | app/core_features/AGENT.py:9-27 | files loaded through one `Agent()` are exactly what a later `Agent()` sees |
| Execs.Enumerate | app/execs.py:41 | the names `enumerate` pairs with positions are the executables, in order |
| Execs.LastIndexOf | app/execs.py:41-42 | the position of a name's last occurrence: it holds the name, and no later position does |
| Execs.EnumerateLastValue | app/execs.py:41 | the last pair `enumerate(names, start)` gives a name carries start plus its last position; an absent name has none |
| Execs.AttributeNames | app/execs.py:36-42 | the attribute names of an `Execution` are the executables deduplicated, first occurrence kept |
| Execs.ExecutionList | app/execs.py:35-42 | `get_result`'s list holds every appended executable and nothing else, each once, in order of first appending; each attribute holds the value of the last pair `enumerate` gave that name |
| Execs.AttributeValues | app/execs.py:40-42 | each attribute holds the order of the executable's last appending, counted from 1 |
| Execs.DedupOfDistinct | app/execs.py:49-54 | distinct executables come back unchanged |
| Execs.Execution.constructor | app/execs.py:40-42 | the `setattr` loop builds the attributes `Attributes` specifies |
| Execs.ExecutableBuilder.constructor | app/execs.py:24-25 | a fresh builder has no executable and no solution |
| Execs.ExecutableBuilder.SetSolutionType | app/execs.py:27-29 | sets the solution, keeps the executables, returns the same builder |
| Execs.ExecutableBuilder.SetExecutable | app/execs.py:31-33 | appends the executable, keeps the earlier ones and the solution, returns the same builder |
| Execs.ExecutableBuilder.GetResult | app/execs.py:35-37 | the solution with the deduplicated executables; without a solution, an attribute error |
| Execs.ElasticConstruct | app/execs.py:44-54 | "ElasticSearch" with RollingRestart, FileTransfer, ClusterHealthCheck |
| Execs.RedisConstruct | app/execs.py:57-67 | "Redis" with RollingRestart, FileTransfer, Ping |
| AuthForms.StarToEndSpec | app/auth/forms.py:35 | the character class matches the whole rest exactly when every character is in the class |
| AuthForms.StarThenDollarSpec | app/auth/forms.py:35 | with `$`, the rest may also be class characters followed by one newline |
| AuthForms.UsernameMatchSpec | app/auth/forms.py:34-37 | the intended check accepts exactly a letter followed by letters, digits, '_' and '.' |
| AuthForms.UsernameAsWrittenSpec | app/auth/forms.py:34-37 | the check as written accepts exactly those names, and those names followed by one newline |
| AuthForms.UsernameTrailingNewline | app/auth/forms.py:35 | "alice\n" passes the check as written but is not a valid username |
| AuthForms.DomainText | app/auth/forms.py:26 | an unset DOMAIN is spliced in as "None" |
| AuthForms.DotStarThenSpec | app/auth/forms.py:26 | `.*` then a literal then `$` matches exactly the texts ending in the literal, or in the literal and a newline, with no newline before |
| AuthForms.EndsBareStep | app/auth/forms.py:26 | text longer than the literal ends in it with no newline before exactly when its first character is not a newline and the rest does the same |
| AuthForms.EndsNewlineStep | app/auth/forms.py:26 | the same for the literal followed by one newline |
| AuthForms.ShortStep | app/auth/forms.py:26 | text no longer than the literal matches exactly when it is the literal |
| AuthForms.NewlineStep | app/auth/forms.py:26 | text one longer than the literal matches exactly when it is the literal and a newline, or a non-newline and the literal |
| AuthForms.LongStep | app/auth/forms.py:26 | longer text matches exactly when it starts with a non-newline and the rest matches |
| AuthForms.EmailMatchSpec | app/auth/forms.py:26-28 | an address passes exactly when it ends in "@" and the domain, optionally followed by one newline, with no newline before |
| AuthForms.RegistrationSpec | app/auth/forms.py:16-45 | a registration passes exactly when the address is new, at most 64 long, accepted by `Email()` and ends in the domain, the username is valid and at most 64 long, and the passwords are equal and not blank |
| AuthForms.ErrorsPerField | app/auth/forms.py:16-45 | each field is reported exactly when its own validators fail |

## Left out

- Network I/O is not modelled: HTTP requests, the Elasticsearch client and Redis sockets. Each outcome is an entry of an input trace, and the RESP exchange is only the list of commands sent.
- `time.sleep` is not modelled, nor are the printed and flashed messages. Only the number of probes is counted.
- The signed tokens (`token_generator`, `token_loader`) are left out, because they are made by a foreign signing library. Requests are recorded without their token. In `Agent.FileLoad` the token is an input.
- `Es.connector` is modelled only as whether building the client raises. Sniffing, TLS and timeouts are not modelled.
- `Es.ClusterHealthCheck` is left out: it only passes on what the client reports.
- `Es.Configuration` is left out: it reads a version-specific YAML file and asks the cluster for its version. Only its `flatten_dict` step is modelled.
- `EsFlatten.Flatten`: keys are strings and scalars are text. A non-string YAML key, which would make the concatenation raise, is not modelled.
- INTERFACE.py holds only abstract signatures and a token helper. It has no behaviour of its own and is not modelled.
- Redis.ParseNode: `int()` also accepts surrounding whitespace, underscores between digits and non-ASCII digits. The model accepts only an optionally signed run of ASCII digits.
- Agent.Agent.constructor: the class object is an object the caller creates once and reaches again through `Instance`. Python's global binding of the name `Agent` is not modelled.
- Redis.ClusterHealthCheck: a `sendall` that raises partway is counted as sending nothing. The bytes of the `auth` reply are not modelled, because the source reads and discards them.
- Agent.AgentSync: each upload is recorded as the dict that was passed in. The file values are open handles (AGENT.py:21), and a POST that encodes them reads them to the end without rewinding. So only the first node, and only the first `agent_sync` over the same loaded files, would receive the file contents. Later POSTs carry empty file parts. Handle positions are not modelled.
- Agent.Status: a reply body that is not a JSON object would make `res.json().get` raise. The model's reply always carries a version field or its absence.
- Agent.FileListSpec: the directory listing and the set of names `os.path.isfile` accepts are inputs. That set is checked relative to the working directory, as in the source. Opened file handles are represented by the file name.
- `Execs.Attributes` treats every executable name as a plain instance attribute. A name that Python reserves (a data descriptor such as `__class__`) is not modelled.
- The abstract builder interface in app/execs.py:9-20 declares only signatures and is not modelled.
- AuthForms.EmailMatch: the domain is spliced into the pattern unescaped, so in the source its dots match any character. The model compares it literally.
- `Email()` (WTForms' address syntax check) is left out; its verdict is an input. The stored users are also an input, as a set of addresses.
- `LoginForm` is left out.
- AuthForms.Errors: the username is checked with the corrected full match (see Findings), not the one as written.
- The web layer is left out: views, the main forms, error pages, mail, models and configuration.

## Findings

| source | as written | input that shows it | evidently intended | confidence | as-written member | corrected member |
|---|---|---|---|---|---|---|
| app/auth/forms.py:35 | `re.match('^[a-zA-Z][A-Za-z0-9_.]*$', data)`: Python's `$` also matches before a final newline | "alice\n" is accepted (AuthForms.UsernameTrailingNewline) | only a letter followed by letters, digits, '_' and '.' (a full match) | not executed; follows from the documented semantics of `$` | AuthForms.UsernameMatchAsWritten | AuthForms.UsernameMatch |
