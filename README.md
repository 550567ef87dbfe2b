# Rue desktop: bridge discovery and pairing, modelled in Dafny

Rue is a desktop client for Philips Hue bridges. Before it can talk to a
bridge it must find one and obtain a username (the credential) from it. The
bridge issues the credential only after someone presses its link button,
so the client keeps asking for a while. This project models the decisions
the Rust back end (`src-tauri/src/main.rs`) makes along the way:

- **mDNS discovery** (`discovery.dfy`). `to_ip_addr` keeps A and AAAA
  records and drops every other kind. `mdns_discovery` listens to a stream
  of answers. It keeps the first address of the first answer that has one
  and stops there. It also stops, without error, at the first receive error
  and at the end of the stream.
- **Directory discovery** (`discovery.dfy`). `find_bridges` turns an empty
  list into the error `"No bridges found"` and passes any other list
  through unchanged. A transport or decoding error comes back as its message.
- **One pairing attempt** (`pairing.dfy`, with `json.dfy` for the part of
  serde_json's `Value` that it reads). The attempt posts
  `{"devicetype": "rue_pc_app"}` to `http://<ip>/api` and reads
  `value[0].get("success")`. A string there is the username, and the
  credential names the bridge that was asked. A missing key is `Err(())`,
  and so is a failure to send or to read the body. A body that is not JSON,
  or a `success` value that is not a string, makes an `unwrap` panic.
- **The polling loop** (`polling.dfy`). `create_user` runs at most 24
  rounds. Each round asks every bridge once. Successful attempts are sent
  into a channel that holds at most four messages. Once all attempts have
  finished, the loop reads the channel. If it gets a message, that user is
  saved and the loop stops. The loop is meant to sleep five seconds after a
  round without a credential and try again, but as written it never gets
  there: the read waits for ever instead (see below). The run is modelled
  sequentially: the order in which a round's attempts finish is an input.
  `save` is recorded in the run's result, and the store's answer is an
  input.
- **Concrete runs** (`scenarios.dfy`): a button pressed in the fourth
  round, two bridges granting in the same round, and the reply shape the
  bridge documents.

The model keeps the loop's channel behaviour as the code has it. The
sender `tx` is still alive when `rx.recv()` runs. So on an empty channel
`recv` waits for ever instead of returning `None`. A fifth `send` in one
round also waits for ever, because nothing receives until every attempt of
the round has finished. A run that reaches either point ends as `Hung(r)`,
where `r` is the round it stopped in.

The model follows the code, also where it departs from what a Hue pairing
client is expected to do:

- When the budget runs out without a credential, the loop returns `Ok(())`.
  There is no "no credential" error.
- A transport failure gives the same `Err(())` as a refusal. A body that is
  not JSON is a panic, not a separate "malformed" outcome.
- The round does not end at the first success. The loop waits for every
  attempt of the round before it reads the channel.
- Only the first success of a round is saved. The second to fourth are
  buffered in the channel and dropped with it at the end of the round. A
  fifth success blocks its `send`.
- The Philips Hue developer documentation (Configuration API, "Create
  user") describes the grant as `[{"success": {"username": "..."}}]`. The
  code decodes the `success` value itself as a `String`, so that reply
  panics. The lemma `Scenarios.DocumentedGrantPanics` states this. The
  pairing loop keeps the code's reading; `Pairing.AuthorizeDocumented` is
  the reading of the documented shape (see "Findings").
- When the listener can start, `mdns_discovery` returns `Ok`, even with a
  list that is empty. It fails only when the listener cannot start.

## Model

| member | source | states |
|---|---|---|
| `Discovery.ToIpAddr` | src-tauri/src/main.rs:97-103 | a record yields an address exactly when it is an A or AAAA record, and the address is the record's own (V4 for A, V6 for AAAA) |
| `Discovery.FirstAddr` | src-tauri/src/main.rs:83 | no address exactly when no record is an A/AAAA record; otherwise the address of the first such record, all earlier records having none |
| `Discovery.Records` | src-tauri/src/main.rs:83 | `response.records()`: the answers, then the name servers, then the additional records, nothing added or lost |
| `Discovery.Discovered` | src-tauri/src/main.rs:80-95 | listening collects at most one bridge |
| `Discovery.MdnsDiscovery` | src-tauri/src/main.rs:74-96 | a listener that cannot start gives its error message; otherwise the result is `Ok` of what the loop collects over the stream |
| `Discovery.DiscoveredFindsFirstHit` | src-tauri/src/main.rs:81-94 | if answer k is the first with an address and all earlier ones were answers without an address, the result is exactly that address's bridge, whatever follows |
| `Discovery.DiscoveredHasHit` | src-tauri/src/main.rs:81-94 | a non-empty result always comes from such a first answer |
| `Discovery.DiscoveredEmptyIff` | src-tauri/src/main.rs:80-95 | the result is empty (still `Ok`) exactly when no answer before the first error or end of stream carries an address |
| `Discovery.DiscoveredStopsAtFailure` | src-tauri/src/main.rs:81 | a receive error ends listening: items after it never change the result |
| `Discovery.FindBridges` | src-tauri/src/main.rs:106-117 | an error exactly when fetching failed or the list is empty; the fetch error is passed on, an empty list gives "No bridges found", any other list is returned unchanged |
| `Json.At` | src-tauri/src/main.rs:167 | `value[0]`: the element when the value is an array long enough, otherwise `Null` (indexing never fails) |
| `Json.Get` | src-tauri/src/main.rs:167 | `.get(key)` finds a value exactly when the value is an object holding the key, and then it is that key's value |
| `Json.AsString` | src-tauri/src/main.rs:169 | decoding as `String` succeeds exactly on a JSON string and gives its text |
| `Pairing.ApiUrl` | src-tauri/src/main.rs:154 | the URL is `http://`, then the address unchanged, then `/api` |
| `Pairing.HostOfApiUrl` | src-tauri/src/main.rs:154 | the inverse of `ApiUrl`: a host read back rebuilds the same URL, and the URL built for any `ip` reads back as exactly `ip` |
| `Pairing.AuthRequest` | src-tauri/src/main.rs:154-160 | the pairing request is a POST to the URL whose host is `ip`, with body `{"devicetype": "rue_pc_app"}` and nothing else |
| `Pairing.SuccessField` | src-tauri/src/main.rs:167 | `value[0].get("success")` finds a value exactly when the first element of the reply array is an object with a `success` key, and then it is that key's value |
| `Pairing.Authorize` | src-tauri/src/main.rs:153-178 | the three outcomes, both directions each: success exactly when the reply is JSON whose first element has a string `success` value, and then the user is that string with `bridgeAddress == ip`; rejected exactly on a send or read failure or an absent key; panicked exactly on a non-JSON body or a non-string `success` value |
| `Pairing.AuthorizeDocumented` | src-tauri/src/main.rs:153-178 | the attempt reading the documented grant: success exactly when the `success` value is an object with a string `username`, and then that is the username; rejected in exactly the cases `Authorize` rejects; panicked exactly on a non-JSON body or a `success` value of another shape |
| `Polling.Outcomes` | src-tauri/src/main.rs:124-128 | one outcome per attempt of the round, in completion order |
| `Polling.Successes` | src-tauri/src/main.rs:131-140 | the attempt outcomes forwarded to the channel: exactly the users of successful outcomes, failures dropped |
| `Polling.SuccessesAppend` | src-tauri/src/main.rs:131-140 | outcomes are forwarded one after another in completion order |
| `Polling.FirstSuccess` | src-tauri/src/main.rs:143 | the first user in the channel is the first success in completion order |
| `Polling.EndOfRound` | src-tauri/src/main.rs:131-146 | a round ends with a user exactly when it had one to four successes, and the user is the first; it reports nothing exactly when it had none and the sender is closed; it blocks exactly on a fifth success or on an empty channel with the sender open |
| `Polling.SuccessesAt` | src-tauri/src/main.rs:124-141 | the credentials round `i` sends: at most one per bridge |
| `Polling.PollRound` | src-tauri/src/main.rs:123-146 | a round drained into a channel of capacity 4 and then read ends as its first success, or blocks on a fifth success, or (empty) blocks with an open sender and reports nothing with a closed one |
| `Polling.RoundEnds` | src-tauri/src/main.rs:122-146 | exactly one round end per budgeted round, 24 in all (each built by `EndOfRound` from that round's successes) |
| `Polling.RunFrom` | src-tauri/src/main.rs:122-149 | the loop from round `i` on, given how each round ends: a hang happens in a round after `i` and within the budget; a return has saved at most once, slept no more often than it ran rounds, run at most 24 rounds, and run at least one more when rounds were left |
| `Polling.Run` | src-tauri/src/main.rs:122-149 | the whole loop: a hang happens in one of rounds 1 to 24; a return has run 1 to 24 rounds, saved at most once, slept no more often than it ran rounds, so paused at most 120 seconds in all |
| `Polling.PairingLoop` | src-tauri/src/main.rs:122-149 | the loop, for either state of the sender at `recv`, ends as the run specification `Run` |
| `Polling.CreateUser` | src-tauri/src/main.rs:120-150 | the loop as written, with the sender open at `recv`, ends as the run specification `Run(..., true)` |
| `Polling.CreateUserDroppingSender` | src-tauri/src/main.rs:120-150 | the loop with `tx` dropped before `recv` ends as `Run(..., false)` |
| `Polling.RunFromHung` | src-tauri/src/main.rs:131-143 | a run waits for ever only in a round that blocked, after rounds that all came back empty |
| `Polling.RunFromSaved` | src-tauri/src/main.rs:143-146 | a run that saves does so once, with the user its deciding round found, returns the store's answer, and sleeps only after the earlier, empty rounds |
| `Polling.RunFromUnsaved` | src-tauri/src/main.rs:122-149 | a run that returns without saving ran all 24 rounds, all empty, slept after each, and returns `Ok(())` |
| `Polling.ErrorOnlyFromSave` | src-tauri/src/main.rs:131-149 | a run that saved returns exactly what the store answered; one that did not save returns `Ok(())`: failed attempts never surface as errors |
| `Polling.SavedIsFirstSuccess` | src-tauri/src/main.rs:131-146 | the saved user is the first success in completion order of the deciding round, which had 1 to 4 successes; earlier rounds had none; later successes of that round are not saved |
| `Polling.SuccessIsFromABridge` | src-tauri/src/main.rs:124-126 | every credential a round produces names one of the bridges asked |
| `Polling.SavedUserIsFromABridge` | src-tauri/src/main.rs:143-144 | the saved credential names one of the discovered bridges |
| `Polling.AsWrittenNeverRetries` | src-tauri/src/main.rs:123-147 | as written, the run hangs in round 1 exactly when that round has no success or more than four; otherwise it saves round 1's first success with no sleep |
| `Polling.DroppingSenderExhaustsBudget` | src-tauri/src/main.rs:122-149 | with the sender dropped, if no round has a success, the run ends `Ok(())` after 24 rounds and 24 sleeps, having saved nothing |
| `Polling.DroppingSenderSavesFirstSuccessfulRound` | src-tauri/src/main.rs:122-147 | with the sender dropped, empty rounds are retried and the first round with 1 to 4 successes saves its first one, after one sleep per earlier round |
| `Scenarios.ButtonPressedInFourthRound` | src-tauri/src/main.rs:122-147 | one bridge refusing three rounds and granting `abc123` in the fourth: as written the run hangs in round 1; with the sender dropped it saves `{abc123, 10.0.0.5}` after 4 rounds and 3 sleeps |
| `Scenarios.RaceSavesFirstCompleted` | src-tauri/src/main.rs:131-146 | two bridges granting in one round: only the credential that finished first is saved |
| `Scenarios.DocumentedGrantPanics` | src-tauri/src/main.rs:167-169 | a reply of the documented shape `[{"success": {"username": ...}}]` makes the attempt panic |
| `Scenarios.DocumentedGrantAccepted` | src-tauri/src/main.rs:167-174 | read as documented, the same reply gives the user with that username for the bridge asked |

## Left out

- `main`, the Tauri command registration and the runtime (src-tauri/src/main.rs:180-190): process bootstrap.
- `save`, `load` and `get_config_path` (src-tauri/src/main.rs:31-65): file-system effects and serde encoding. A save is recorded in the run's result; what the store answers is an input.
- The HTTP calls (reqwest) to the bridges and to the directory at `https://discovery.meethue.com/`, and the mDNS socket browsing `_hue._tcp.local` with its 10 ms query interval: network I/O. Their results are inputs: the decoded directory list or its error, the listener's stream or its start error, and each attempt's reply.
- The textual form of an IP address: A and AAAA records carry their address already as the text that `to_string` prints.
- An endless mDNS stream: the model's stream is finite. A real stream that never yields an address keeps the loop listening; the model sees only a finite prefix of it.
- Concurrency: `tokio::spawn` and `buffer_unordered` become one completion per bridge per round, in an order given as input. Tasks run to completion; nothing is cancelled.
- What `buffer_unordered(0)` does for an empty bridge list: library behaviour. The model gives such a round no completions.
- `thread::sleep`: counted in the run's result, not timed.
- `println!` output.
- JSON numbers are integers, and an object is a map, so duplicate keys are not modelled. Neither matters to how the reply is read.
- A run that blocks is reported as `Hung(round)`. The program itself simply never returns.
- The run takes a completion order for every one of the 24 rounds. Rounds after the deciding one are never looked at.

## Findings

| source | as written | input that shows it | evidently intended | confidence | as-written member | corrected member |
|---|---|---|---|---|---|---|
| src-tauri/src/main.rs:123-147 | `tx` is still alive when `rx.recv().await` runs, so on an empty channel `recv` waits for ever; the retry path (sleep, next round) can never run, and a run hangs unless round 1 has a success | one bridge whose first reply is "link button not pressed" (`Scenarios.ButtonPressedInFourthRound`) | drop `tx` before `recv`, so an empty round gets `None`, sleeps and retries | high; not executed | `Polling.AsWrittenNeverRetries` | `Polling.DroppingSenderSavesFirstSuccessfulRound` |
| src-tauri/src/main.rs:167-169 | the `success` value is decoded as a `String` | the documented grant `[{"success": {"username": "abc"}}]` (`Scenarios.DocumentedGrantPanics`) | read the `username` field of the `success` object | medium; not executed | `Pairing.Authorize` | `Pairing.AuthorizeDocumented` |
