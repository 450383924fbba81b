# Network-management backend: a verified model of its session and probe logic

The Flask backend in `net-man-backend/src/backend.py` drives a Mininet network
and an OpenDaylight controller on behalf of a web front end. Most of its work
is handed to those systems. This project models the logic that stays in the
backend itself:

- **Host locator** (`Locator`). It reads the last two characters of a path
  endpoint as a hexadecimal host id, exactly as Python 2.7's
  `int("0x" + name[-2:], 16)` does. It then names the Mininet host: `h<id>` in
  a tree topology, `h<host>s<switch>` in a linear one. The linear suffixes are
  computed as Python parses `h_src_int -1 // gswitch_num`, which is
  `id - (1 // switchNum)`, and `h_src_int -1 % gnodes_per_switch`, which is
  `id - (1 % nodesPerSwitch)`. Both use Python's floor division and modulo, and
  a computed 0 is coerced to 1.
- **Ping-report extraction** (`PingReport`). It takes the fifth
  `/`-separated field after the first `"ping statistics"`.
- **Flow URLs** (`Flows`). These are the RESTCONF URL of a flow, the rule
  document sent in the PUT, and the per-switch URLs and requests that
  `create_flows` issues.
- **Session state** (`Backend.Session`). This is one object holding the
  module's globals. Its fields are: network up or down, the recorded topology,
  `gshortest_path`, `gflows_list`, `gstats_list`, and the flow list last
  written to `../flowsLog.json`. Each request handler that changes them is a
  method. The invariant `Valid()` states two things. First, the flow log
  always reloads to the current flow list. Second, without a running network
  there is neither a stored path nor a latency sample.

Text helpers (`Text`) and integer helpers (`Numerals`) give Python's string
search, `split`, `str()` of an integer, hex digits and floor division. Each
comes with a partner: join for split, a decimal reader for `str()`, a URL
parser for the URL builder.

The backend is Python 2 code (it uses `print` statements). `len(gstats_list)
is not 2` compares identities; with CPython's small-integer cache it behaves as
`!= 2`, and is modelled that way.

The linear suffixes are not a quotient and remainder of `id - 1`: because of
Python's precedence, the code subtracts `1 // switchNum` and `1 % nodesPerSwitch`
from the id. `Locator.LinearSuffixValues` gives their exact values. The code
reads only `path[0]` and `path[-1]`, so a one-node path probes a host against
itself.

The node names come from the request's JSON, so they are unicode strings.
Python 2.7's `int()` of a unicode string first turns every
`Py_UNICODE_ISSPACE` character into a space and then strips trailing spaces.
`Text.IsSpace` is that set: C's six `isspace` characters, U+001C..U+001F, and
the Unicode 5.2 separators.

## Model

| member | source | states |
|---|---|---|
| `Text.FindFirst` | net-man-backend/src/backend.py:434 | the split point of `split(marker, 1)` is the leftmost occurrence; none means the marker occurs nowhere |
| `Text.Split` | net-man-backend/src/backend.py:438 | `split("/")` yields at least one field and no field contains the separator |
| `Text.JoinSplit` | net-man-backend/src/backend.py:438 | joining the fields of a split with the separator gives back the text |
| `Text.SplitJoin` | net-man-backend/src/backend.py:438 | splitting a join of separator-free fields gives back the fields |
| `Text.SplitLength` | net-man-backend/src/backend.py:438-440 | a split has one more field than the text has separators |
| `Text.TrimRight` | net-man-backend/src/backend.py:394 | `int()`'s whitespace stripping of unicode text: a prefix that ends in a non-space, and only `Py_UNICODE_ISSPACE` characters are removed |
| `Numerals.Decimal` | net-man-backend/src/backend.py:400-401 | `str(n)` is a non-empty digit string; it starts with '0' only for 0, and is one digit exactly below 10 |
| `Numerals.DecimalRoundTrip` | net-man-backend/src/backend.py:400-401 | reading `str(n)` back as decimal gives n |
| `Numerals.IntStringShape` | net-man-backend/src/backend.py:423-425 | `str(i)` starts with '-' exactly when i is negative, followed by the digits of its magnitude |
| `Numerals.IntStringInjective` | net-man-backend/src/backend.py:423-425 | `str()` of different integers, negative ones included, differ |
| `Numerals.HexNumber` | net-man-backend/src/backend.py:394 | a string of k hex digits denotes a number below 16^k |
| `Numerals.FloorDiv` | net-man-backend/src/backend.py:407 | Python's `//` rounds toward minus infinity, for either sign of divisor |
| `Numerals.FloorMod` | net-man-backend/src/backend.py:408 | Python's `%` takes the divisor's sign and lies strictly within the divisor; for a positive divisor it is the Euclidean remainder, for a negative one the negated remainder of the negated operands |
| `Locator.LastTwo` | net-man-backend/src/backend.py:392 | `name[-2:]` is the last min(2, len) characters of the name |
| `Locator.HexInt` | net-man-backend/src/backend.py:394 | Python 2.7's `int("0x" + s, 16)`: hex digits then optional trailing whitespace, anything else a ValueError; the value fits in as many hex places as the text has characters |
| `Locator.HexIntOneChar` | net-man-backend/src/backend.py:394 | one character parses exactly when it is a hex digit, to its value |
| `Locator.HexIntTwoChars` | net-man-backend/src/backend.py:394 | two characters parse as the first alone when the second is whitespace, else as a two-digit hex number when both are hex digits, else not at all |
| `Locator.HostId` | net-man-backend/src/backend.py:392-394 | a parsed host id lies in 0..255; a rejected one is a ValueError |
| `Locator.HostIdIsHexInt` | net-man-backend/src/backend.py:392-394 | the host id, written out for the at most two characters it reads, is exactly Python's hex parse of `name[-2:]` |
| `Locator.HostIdOfByte` | net-man-backend/src/backend.py:392-394 | a name ending in the two hex digits of a byte (a MAC address) reads back as that byte |
| `Locator.TreeHostName` | net-man-backend/src/backend.py:400-401 | `'h' + str(id)`: an 'h' followed by the decimal digits of the id |
| `Locator.TreeHostNameReadsBack` | net-man-backend/src/backend.py:396-401 | after the 'h', the tree host name is all decimal digits and reads back as the id |
| `Locator.TreeHostNameInjective` | net-man-backend/src/backend.py:396-401 | different ids never share a tree host name |
| `Locator.OneIfZero` | net-man-backend/src/backend.py:410-421 | a computed 0 becomes exactly 1; any other value is kept |
| `Locator.LinearSuffixes` | net-man-backend/src/backend.py:407-421 | a zero switch or host count is a ZeroDivisionError, and otherwise no suffix is 0 |
| `Locator.OneDividedBy` | net-man-backend/src/backend.py:407-408 | the values of `1 // b` and `1 % b` for every nonzero b |
| `Locator.LinearSuffixValues` | net-man-backend/src/backend.py:407-421 | the exact suffixes for every divisor sign: with two or more switches and hosts they are (id, id - 1) with a computed 0 coerced to 1 (id 0 gets switch suffix 1, id 1 gets host suffix 1), not a quotient and remainder of id - 1; id 0 with one switch gives switch suffix -1 |
| `Locator.LinearSuffixesPositive` | net-man-backend/src/backend.py:410-421 | for any id of 1 or more, both suffixes are at least 1 |
| `Locator.LinearHostName` | net-man-backend/src/backend.py:423-425 | `'h' + str(host) + 's' + str(switch)` starts with 'h' |
| `Locator.LinearHostNameInjective` | net-man-backend/src/backend.py:423-425 | different (host, switch) suffix pairs, negative ones included, never share a linear host name |
| `Locator.HostIds` | net-man-backend/src/backend.py:388-394 | both ends parse iff the path is non-empty and both end names are host ids; an empty path is an IndexError |
| `Locator.Endpoints` | net-man-backend/src/backend.py:386-425 | a probe pair exists iff the network runs, a topology is recorded, both ends parse, and the topology is a tree or has nonzero switch and host counts; an unparsable end gives its parse error; in a running tree network with parsable ends the pair is the two `h<id>` names |
| `Locator.EndpointsAsWritten` | net-man-backend/src/backend.py:386-425 | as written: a probe pair exists iff the network runs, the recorded topology is a tree and both ends parse, and it is the two `h<id>` names; an unparsable end gives its parse error |
| `Locator.LinearProbeNeverLocated` | net-man-backend/src/backend.py:423-425 | as written, no linear-topology probe is ever located |
| `Locator.LinearProbeCounterexample` | net-man-backend/src/backend.py:425 | a running 2x2 linear network with ends ...:01 and ...:02 raises UnboundLocalError as written; the corrected lookup gives h1s1 and h1s2 |
| `Locator.DestinationLocatedLikeSource` | net-man-backend/src/backend.py:396-425 | with the corrected lookup, the destination is named by the rule that names the source |
| `Locator.LinearEndpointsLocated` | net-man-backend/src/backend.py:404-425 | with the corrected lookup, a running linear network with nonzero counts locates every path whose ends are host ids |
| `PingReport.ExtractAverage` | net-man-backend/src/backend.py:434-440 | the extracted field has no '/'; a report without the marker is an IndexError |
| `PingReport.FirstMarkerAt` | net-man-backend/src/backend.py:434 | the split happens at the first marker |
| `PingReport.ExtractFromFields` | net-man-backend/src/backend.py:434-440 | when five or more '/'-separated fields follow the first marker, the fifth is returned |
| `PingReport.ExtractNeedsFourSlashes` | net-man-backend/src/backend.py:438-440 | fewer than four '/' after the first marker is an IndexError |
| `Flows.RuleFor` | net-man-backend/src/backend.py:331-340 | the PUT body: the given flow and table ids, a match on the source and destination MACs with EtherType 0x800, output to the given port, not installed in hardware |
| `Flows.FlowUrl` | net-man-backend/src/backend.py:346-347 | every flow URL starts with the controller's RESTCONF prefix |
| `Flows.FlowUrlRoundTrip` | net-man-backend/src/backend.py:346-347 | switch, table and flow id read back out of the URL, when the table and flow ids hold no '/' |
| `Flows.ParseFlowUrlSound` | net-man-backend/src/backend.py:346-347 | every URL that parses is the URL of the ids it parses to |
| `Flows.FlowUrlInjective` | net-man-backend/src/backend.py:346-347 | two URLs with the same flow id are equal iff their switch and table ids are |
| `Flows.RequestsMatchUrls` | net-man-backend/src/backend.py:306-313 | one PUT per switch entry, in order, each sent to the URL recorded for that entry and forwarding out of that entry's port in its table |
| `Flows.FlowsOneMore` | net-man-backend/src/backend.py:306-313 | handling one more switch entry appends exactly its URL to the recorded URLs and its request to the requests |
| `Flows.FlowUrlsDistinct` | net-man-backend/src/backend.py:306-313 | two switch entries record the same URL iff they name the same switch and table |
| `Backend.Measure` | net-man-backend/src/backend.py:386-442 | once both ends are located, the sample is the average extracted from the ping report; otherwise it fails with the locator's error. A sample exists only with a running network, a recorded topology and a non-empty path, and holds no '/' |
| `Backend.Session.constructor` | net-man-backend/src/backend.py:55-68 | start-up: network down, no topology, path or samples; the flow list is what the log held, or empty if malformed |
| `Backend.Session.Status` | net-man-backend/src/backend.py:200-206 | "up" exactly when a network is running, "down" otherwise |
| `Backend.Session.CleanUpEverything` | net-man-backend/src/backend.py:159-180 | DELETEs every recorded flow in order; then the path, flow list and samples are empty and the log holds an empty list |
| `Backend.Session.DeleteFlows` | net-man-backend/src/backend.py:250-260 | always reports success, since the clean-up empties every list |
| `Backend.Session.CreateNetwork` | net-man-backend/src/backend.py:112-153 | records the topology, clears the session like `delete_flows`, and leaves the network up |
| `Backend.Session.DeleteNetwork` | net-man-backend/src/backend.py:184-196 | when up: clears the session and marks it down; when down: "Network Already Stopped" and nothing changes |
| `Backend.Session.DeleteShortestPath` | net-man-backend/src/backend.py:210-213 | empties the stored path only, and reports success |
| `Backend.Session.FindShortestPath` | net-man-backend/src/backend.py:217-241 | stores the computed path only while a network is up, and otherwise changes nothing |
| `Backend.Session.Stats` | net-man-backend/src/backend.py:276-287 | `stats()` reports sample 0 as the time before and sample 1 as the time after |
| `Backend.Session.StatFlows` | net-man-backend/src/backend.py:269-273 | a report iff exactly two samples are recorded, holding samples 0 and 1 |
| `Backend.Session.FlowExists` | net-man-backend/src/backend.py:366-377 | true iff no recorded flow's GET response contains "errors"; GETs run in order and stop at the first such response |
| `Backend.Session.CreateFlow` | net-man-backend/src/backend.py:330-363 | appends exactly the composed URL to the end of the flow list, leaves earlier entries alone, PUTs the rule there, and reports `flow_exists` |
| `Backend.Session.AddSample` | net-man-backend/src/backend.py:294-296 | appends one sample and changes nothing else |
| `Backend.Session.PushFlows` | net-man-backend/src/backend.py:306-320 | appends one URL per switch entry and rewrites the log with the whole flow list |
| `Backend.Session.CreateFlows` | net-man-backend/src/backend.py:291-327 | if the first probe fails, nothing changes. Otherwise it appends the flows and one sample, rewrites the log, and after a second successful probe appends a second sample. It succeeds iff both probes succeed, and then reports samples 0 and 1, so `stat_flows` then succeeds iff no samples were recorded before |

## Left out

- Mininet is not part of this model: topology construction, `start`/`stop`, `pingAll`, the CLI, `getNodeByName` and `cmd` are emulator calls. The text `ping` prints is a parameter of `Backend.Measure`, and looking up a host name that does not exist (a KeyError) is not modelled.
- `nx.shortest_path` is a library call. The path it returns is the parameter of `Session.FindShortestPath`. When it raises at line 236 (no path, or an unknown node), the assignment at line 239 never runs, so the stored path stays as it was; the model has no member for that failed request.
- HTTP to OpenDaylight is reduced to values. PUTs and DELETEs are returned as the requests issued. GET responses are a function `fetch` from URL to response text. Connection errors and non-JSON responses, which raise in `requests`/`httplib2`, are not modelled.
- Flask routing, reading request fields, `int()` of the request's counts, and JSON encoding of replies are left out. The controller address, port, switch type and MAC option only reach Mininet and are ignored.
- `get_shortest_path` (lines 244-246) returns a field unchanged. `pingall` (lines 380-383) is an emulator call. Neither has a member.
- The floating-point part of `stats` (lines 279-281) is left out: the difference, and the percentage, which divides by a possibly zero "after" time. Samples are kept as the text `ping` printed, and the `float()` conversion (which can raise ValueError) is not modelled.
- `../flowsLog.json` is kept only as the `snapshot` field. At start-up a malformed file gives an empty list. A missing file (IOError) or a document without the `gflows_list` key (KeyError) stops the process and is not modelled.
- `Locator.HostId`: Python 2's `int()` on a unicode string also reads non-ASCII decimal digits (Arabic-Indic and the like) as 0-9. The model accepts only ASCII hex digits, so it rejects such names. Unicode whitespace is modelled in full.
- `Backend.Measure`: it uses the corrected destination lookup of `Locator.Endpoints`. As written, every probe in a linear topology that gets past the id parse raises UnboundLocalError at line 425; `Locator.EndpointsAsWritten` models that. So as written, `create_flows` in a linear topology always fails at its first probe and changes nothing.
- Calling `create_network` while a network runs replaces `global_net` without stopping the old network. The model only records that a network is up.
- Request handling is single-threaded and the model has no concurrency.

## Findings

| source | as written | input that shows it | evidently intended | confidence | as-written member | corrected member |
|---|---|---|---|---|---|---|
| net-man-backend/src/backend.py:425 | the linear destination lookup reads `h_dest_suffix`, a local assigned only in the tree branch, so it raises UnboundLocalError | a running linear network with 2 switches and 2 hosts per switch, path `["host:00:00:00:00:00:01", "host:00:00:00:00:00:02"]` | `host_dest_suffix`, the suffix computed at line 416 | high (not executed) | `Locator.EndpointsAsWritten`, `Locator.LinearProbeCounterexample` | `Locator.Endpoints`, `Locator.DestinationLocatedLikeSource` |

`Backend.Measure`, and through it `Session.CreateFlows`, use the corrected
`Locator.Endpoints`.
