# 1Cat Tunnel: verified model

This project models the parts of 1Cat Tunnel whose correctness is hard to see in the code, and proves properties of
them with Dafny 4.11. `dafny verify dfyconfig.toml` checks everything.

Code that races over locks is a step machine: each section under a lock, and each atomic counter operation, is one
step, and the theorems speak of every state of every run. Objects with fields are classes whose methods state their
whole effect; the step machines and the methods use the same functions of the state. Text and codec code is written as
functions over sequences, with the source's loops as methods proved equal to them. I/O that may fail is a parameter or
an arbitrary choice.

| file | content |
|---|---|
| `Basics.dfy`, `Text.dfy` | optional values, filtered lists; white space, splitting, joining, fields, case folding |
| `ClientProtocol.dfy`, `ClientLoop.dfy`, `ClientSections.dfy`, `ManagedClient.dfy` | the client's run loop against configuration replacement, server-list edits, reconnects and late credential replies; where the loop and each section get to; the client object |
| `ClientConfig.dfy`, `LoadedConfig.dfy` | the client's configuration: normalisation, validation, saving and loading, and each field of what is saved and loaded |
| `ManagedEdits.dfy`, `EditedSettings.dfy`, `ServerCatalog.dfy` | edits of the management page; what an accepted request leaves, read off the request; the catalog of hosted servers |
| `AttachRetry.dfy` | spacing of data-channel retries |
| `Registry.dfy`, `TunnelServer.dfy` | the server's tunnel registry and port allocator, as a step machine and as an object; reconciliation with a node's presets |
| `Connections.dfy`, `ConnectionRuns.dfy` | pending connections, transfers, UDP sessions and their counters in one tunnel |
| `Persistence.dfy`, `RestoredState.dfy` | snapshot and restore, and what any saved record is restored as |
| `SshdLayout.dfy`, `SshdConfig.dfy`, `SshdDirectives.dfy` | the `sshd_config` rewriter: layout over abstract line rules, then the real rules and the text, and the same in terms of the words of a line |
| `RotatingLog.dfy`, `LogReaders.dfy`, `LogLines.dfy`, `LogMonitor.dfy`, `LogHistory.dfy` | the rotating service log, the search for the SSH assignment, the log follower and connection monitor, and reading the history before following |
| `SupportSessions.dfy` | remote-support sessions and key slots |
| `Wire.dfy` | datagram frames and control-message lines |
| `UnitFile.dfy`, `UnitText.dfy` | the systemd unit's quoting, the search for its configuration path, and the unit's lines |

Some promised properties do not hold of the code in general. Each has a concrete run or input that breaks it, and the
condition under which it holds:

- The maps `tunnels` and `ports` of the registry are inverse exactly in the runs in which no tunnel is registered on
  the port of another (`Registry.MapsAreInverse`). A creation that requests a port, which only a restore does, does not look
  whether the port has a tunnel of the other protocol (`Registry.RestoredTwiceOnOnePort`).
- A support key slot authorizes only a session in the table exactly in the runs in which no failing start leaves its
  key in the slot (`SupportSessions.SlotsAreOwnedUnlessOrphaned`). It does so if protecting the slot fails and clearing it
  fails too, an error the source ignores (`SupportSessions.OrphanedKey`), or if the write stores the key and then the sync or
  close of the file reports an error, after which the source does not clear it (`SupportSessions.StoredKey`).
- A waiting or connected support session keeps its authorization exactly in the runs in which no start and no clearing
  touches a slot that a live session of another account has (`SupportSessions.LiveSessionsAreAuthorized`). Slots are named
  after the login name without its domain, so two accounts can share one (`SupportSessions.SharedSlot`); accounts with slots
  of their own are safe (`SupportSessions.SeparateSessionsAreAuthorized`).
- The configuration path is read back from a unit for every path exactly if the path of the binary does not itself
  contain the option with a value (`UnitFile.UnitRoundTripExactly`, `UnitFile.OptionInPathHides`).
- A monitor that reads the history and then follows the log ends up as if it had read every line once exactly in these
  cases. If no line is cut by the place of the follower, or the history finishes it: what is read too much, the unfinished
  end of the history and the lines read twice, must say nothing or what the history said last, wherever the lines finished
  later do not decide (`LogHistory.HistoryThenFollow`). If the history ends in the line the follower was placed in: the two
  pieces of that line must say, together, what the whole line says (`LogHistory.HistoryThenFollowInLine`). The line
  `TCP OPEN {}`, with the follower and the end of the history behind `TCP OP`, breaks it (`LogHistory.CutLineIsLost`); with
  the follower between two lines it holds for the lines the service writes (`LogHistory.MonitorReadsOnce`).

## Model

| member | source | states |
|---|---|---|
| `ClientProtocol.WaitingLoopIsWoken` | client/internal/client/client.go:105-207 | in every run, with the update lock free, a loop waiting to retry on a revision it read either read the current one or finds a signal in the restart channel |
| `ClientProtocol.LiveSessionIsCurrent` | client/internal/client/client.go:130-157 | in every run, with the update lock free, an installed uncancelled session has the current revision and the current settings |
| `ClientProtocol.StatusIsCurrent` | client/internal/client/client.go:219-225 | in every run, with the update lock free, a recorded connected time or assignment list came from a session of the current revision |
| `ClientProtocol.TokenProvenance` | client/internal/client/client.go:227-254 | in every run the token in memory is backed by a grant for the same server connection and node name |
| `ClientProtocol.FileProvenance` | client/internal/client/client.go:244-252 | in every state of every run, between saving and storing too, the file is the one found at the start or the saved form of a configuration whose token is so backed |
| `ClientProtocol.GrantOrigin` | client/internal/client/management_web.go:258-275 | every grant is the initial token, was entered in a settings request whose result was accepted and saved, or was issued to a running session |
| `ClientProtocol.ReplyKeepsEdits` | client/internal/client/client.go:233-253 | a credential reply, however late, replaces exactly the token its session started with and keeps every setting and server-list edit made meanwhile |
| `ClientProtocol.SettingsChangeByCommit` | client/internal/client/client.go:291-316 | only the commit of a settings request changes settings; only it or a list edit changes the server list |
| `ClientProtocol.NextKeeps` | client/internal/client/client.go:94-352 | every step of the loop, a section, a requester or the shutdown keeps the control and data invariants |
| `ClientLoop.SessionsAreValid` | client/internal/client/client.go:111-157 | in every run, every session the loop starts, runs or ends, and every installed one, works with a configuration the validator accepts |
| `ClientLoop.ValidConfigGetsSession` | client/internal/client/client.go:105-157 | with a valid configuration, no shutdown and the lock free, the loop alone gets to run a session of that configuration and revision, which is installed then |
| `ClientLoop.InvalidConfigWaits` | client/internal/client/client.go:114-120 | with an invalid one it gets to wait for a retry and installs nothing |
| `ClientLoop.SessionMakesWay` | client/internal/client/client.go:157-174 | a session that ends is uninstalled; then the loop starts over at once if it was cancelled, waits if it was not, and stops after a shutdown |
| `ClientLoop.SignalEndsWait` | client/internal/client/client.go:186-200 | a signal ends the wait and is taken |
| `ClientLoop.SessionReports` | client/internal/client/client.go:219-225 | what a session reports is shown only while its revision is the current one; the first connected time is kept |
| `ClientLoop.ShutdownStops` | client/internal/client/client.go:106-108 | after a shutdown a loop that waits or starts over stops |
| `ClientSections.RequestTakesEffect` | client/internal/client/client.go:291-316 | a request against the current revision with an acceptable edit leaves, field by field, the saved file, the reloaded configuration, a new revision, nothing reported, the installed session cancelled and a signal |
| `ClientSections.StaleRequestsAreRefused` | client/internal/client/management_web.go:241-244 | in every run a settings request is carried out only against the revision it names |
| `ClientSections.ReplyTakesEffect` | client/internal/client/client.go:227-254 | a reply that fits is saved and stored, and the session goes on |
| `ClientSections.ListEditTakesEffect` | client/internal/client/management_servers.go:46-77 | an accepted edit of the server list is saved and stored |
| `ClientSections.StaleSessionGivesWay` | client/internal/client/client.go:144-156 | a session whose configuration was replaced before it is installed is cancelled, and the loop starts over |
| `ClientSections.RefusedRequestEnds` | client/internal/client/management_web.go:240-284 | a refused settings request gives the lock back and changes nothing |
| `ClientSections.ReconnectTakesEffect` | client/internal/client/client.go:272-283 | a reconnect request clears what was reported, cancels the installed session and leaves a signal |
| `ManagedClient.ClientOpsAreLawful` | client/internal/client/management_web.go:476-515 | the real edit, save, load, list-edit and reply operations satisfy what the protocol assumes of them |
| `ManagedClient.StoredTokenHasOrigin` | client/internal/client/client.go:227-254 | in every run of the real client the token in use came with, was entered for or was issued by the server connection and node name it is stored with |
| `ManagedClient.FileHasOrigin` | client/internal/client/config.go:165-187 | so for the configuration saved in the file, which is also consistent with its bootstrap token and password |
| `ManagedClient.StartIsInitial` | client/internal/client/config.go:74-87 | whatever the file holds, what is loaded from it is a state the runs may start from |
| `ManagedClient.ReplaceIsSteps` | client/internal/client/client.go:301-316 | the protocol's steps of a replacement, run without interference, come to the method's effect |
| `ManagedClient.AcceptedRequestIsInForce` | client/internal/client/management_web.go:276-283 | after an accepted request the mappings in force are those of the request, with their names, protocols, hosts and ports |
| `ManagedClient.Client.ReplaceConfigLocked` | client/internal/client/client.go:291-316 | succeeds exactly for an accepted, saved and reloadable configuration; the new state is the reloaded one with a new revision, nothing reported, the session cancelled and the loop signalled; a refused or unsaved one changes nothing, and one that cannot be reloaded leaves the saved file and nothing else changed |
| `ManagedClient.Client.PersistSessionCredential` | client/internal/client/client.go:227-254 | stores the trimmed token and drops the other secrets, exactly when the reply still fits the stored connection, node and token |
| `ManagedClient.Client.HandleManagementConfig` | client/internal/client/management_web.go:240-297 | succeeds exactly for the current or no revision, an accepted edit and a replaceable result, and then the edit is in force at a new revision; otherwise nothing changes, except the file if the edit was saved and could not be reloaded |
| `ManagedClient.Client.HandleManagementServers` | client/internal/client/management_servers.go:46-77 | stores exactly the edited list, keeping revision and session |
| `ManagedClient.Client.RequestReconnect` | client/internal/client/client.go:272-283 | cancels the installed session and leaves a signal |
| `ManagedClient.Client.ClearSession` | client/internal/client/client.go:263-270 | removes the session only if it is the installed one |
| `ManagedClient.Client.MarkConnected` | client/internal/client/client.go:219-225 | a report of another revision is dropped; the first connected time is kept |
| `ManagedEdits.PresetsFromRequest` | client/internal/client/management_web.go:402-447 | accepts exactly the requests with 1 to 20 convertible mappings of different folded names, and returns their presets in order |
| `ManagedEdits.AcceptedPresetsAreValid` | client/internal/client/management_web.go:402-447 | what the request parser accepts always passes the preset checks of the validator |
| `ManagedEdits.EditKeepsIdentity` | client/internal/client/management_web.go:245-266 | without a new credential a request changes neither server, node name nor any secret |
| `ManagedEdits.EditIsLinked` | client/internal/client/management_web.go:476-504 | after any accepted edit a stored bootstrap token stands for the stored server, token and node name |
| `EditedSettings.EditHasMappings` | client/internal/client/management_web.go:402-447 | the new configuration has one mapping for each requested one, in order: its name or `port-` and its number, TCP or UDP as asked, the host without brackets, and a decimal text of the port |
| `EditedSettings.EditHasNode` | client/internal/client/management_web.go:253-259 | the node name is the requested one, unless the connect token names the node |
| `EditedSettings.EditHasCredential` | client/internal/client/management_web.go:476-504 | the credential is stored as bootstrap token and the token in it, or as token and password; without one the secrets stay |
| `EditedSettings.SelectionTakesEntry` | client/internal/client/hosted_servers.go:99-121 | the server is the first catalog entry with the ID asked for, or stays as stored if it was selected and used already |
| `EditedSettings.EditChangesOnly` | client/internal/client/management_web.go:245-283 | beyond that an edit changes nothing |
| `EditedSettings.EditIsAccepted` | client/internal/client/management_web.go:245-275 | a request is accepted exactly if its server is in the catalog, the node name has 1 to 128 characters, the credential fits, and 1 to 20 mappings can be served under different names |
| `EditedSettings.DecimalReads` | client/internal/client/management_web.go:443 | a decimal text has the value of its number |
| `EditedSettings.EditedMappingsAreLoaded` | client/internal/client/config.go:231-256 | the requested mappings come back from saving and loading |
| `ManagedEdits.LoadKeepsIdentity` | client/internal/client/config.go:165-187 | what is loaded after saving an accepted configuration has its identity and token, or no token |
| `ManagedEdits.LoadIsLinked` | client/internal/client/config.go:231-256 | whatever was in the file, a loaded bootstrap token stands for the loaded server, token and node name |
| `ManagedEdits.LoadKeepsPresets` | client/internal/client/config.go:231-256 | saving and loading keeps the presets up to normalisation |
| `ManagedEdits.IssuedTokenIsLinked` | client/internal/client/client.go:240-242 | storing an issued token keeps the identity and leaves no contradicting bootstrap token |
| `ManagedEdits.EditServersKeepsRest` | client/internal/client/management_servers.go:79-124 | an edit of the server list touches nothing else |
| `ServerCatalog.RemovalLeavesOthers` | client/internal/client/management_servers.go:79-90 | removing a stored server that is not selected takes out the first with its ID and leaves the others in order |
| `ServerCatalog.RemovalIsRefused` | client/internal/client/management_servers.go:82-91 | the selected server and one that is not stored cannot be removed |
| `ServerCatalog.AdditionComesLast` | client/internal/client/management_servers.go:96-123 | a server is added, last and with TLS, exactly under the listed conditions |
| `ServerCatalog.ReplyFitsUnchanged` | client/internal/client/client.go:236-239 | a reply fits as long as server, node name and token are those of its session |
| `ServerCatalog.ReplyToChangedIsDropped` | client/internal/client/client.go:236-239 | and does not if any of them differs |
| `ClientConfig.PrepareIdempotent` | client/internal/client/config.go:326-366 | normalising a configuration twice is normalising it once |
| `ClientConfig.NormalizePresetsIdempotent` | client/internal/client/config.go:376-389 | so for the preset list |
| `ClientConfig.NormalizeServersIdempotent` | client/internal/client/hosted_servers.go:58-72 | so for the server list |
| `ClientConfig.NormalizeProtocolIdempotent` | client/internal/common/protocol.go:195-204 | so for protocol names |
| `ClientConfig.SaveThenLoad` | client/internal/client/config.go:165-187 | saving a normal configuration and loading it gives it back in all three credential modes; only a password beside a bootstrap token is dropped |
| `ClientConfig.LoadSaveLoad` | client/internal/client/config.go:231-256 | for any record on disk: what was loaded, saved and loaded again is what was loaded, apart from that password |
| `LoadedConfig.SavedRecord` | client/internal/client/config.go:165-173 | what is left out of the record in each credential mode |
| `LoadedConfig.LoadedCredential` | client/internal/client/config.go:231-256 | for every record: where server, node name and token come from, that a placeholder counts as empty, and when a record cannot be loaded |
| `LoadedConfig.LoadedSettings` | client/internal/client/config.go:326-366 | the other fields of a loaded configuration and their defaults |
| `LoadedConfig.LoadedMapping` | client/internal/client/config.go:376-389 | a mapping with a name and an address is loaded behind those before it |
| `LoadedConfig.LoadedDefault` | client/internal/client/config.go:391-411 | without one the default mapping of the system is loaded |
| `LoadedConfig.LoadedServer` | client/internal/client/hosted_servers.go:58-72 | a stored server is loaded behind those before it, or dropped |
| `LoadedConfig.ValidExactly` | client/internal/client/config.go:279-324 | which configurations are valid, field by field |
| `ClientConfig.SelectThenAsk` | client/internal/client/hosted_servers.go:74-121 | after selecting a catalog server, that server is the selected one and its address is in use |
| `ServerCatalog.CatalogStarts` | client/internal/client/hosted_servers.go:19-28 | the catalog starts with the built-in server |
| `ServerCatalog.CatalogEntries` | client/internal/client/hosted_servers.go:30-56 | every other entry is a stored server that can be offered, or stands for an address in use that no other entry has |
| `ServerCatalog.CatalogOffers` | client/internal/client/hosted_servers.go:30-72 | a stored server that can be offered is an entry, unless an earlier one has its ID |
| `ServerCatalog.StoredSelectionCounts` | client/internal/client/hosted_servers.go:74-82 | the stored selection counts if it is an entry with the address in use |
| `ServerCatalog.SelectionByAddress` | client/internal/client/hosted_servers.go:83-97 | otherwise the first entry with the address is selected, or the first of all |
| `ClientConfig.KeepDistinct` | client/internal/client/hosted_servers.go:35-43 | the catalog loop keeps the first server of each ID, each ID once |
| `ClientConfig.HostedServerCatalog` | client/internal/client/hosted_servers.go:30-56 | the loops compute the catalog |
| `ClientConfig.ValidatePresets` | client/internal/client/config.go:279-324 | the loop accepts exactly lists of valid presets with different folded names |
| `ClientConfig.Validate` | client/internal/client/config.go:279-324 | the method decides validity |
| `Basics.NormalizeList` | client/internal/client/config.go:376-389 | the loop normalises each element and keeps the acceptable ones |
| `Basics.NormalizedIdempotent` | client/internal/client/config.go:376-389 | normalising a list twice is normalising it once when that holds of one element |
| `AttachRetry.RetriesAreSpaced` | client/internal/client/client.go:669-692 | however reservations interleave, no two retries of a session start within the spacing of each other, none before its own spacing is over |
| `AttachRetry.Session.WaitForAttachRetry` | client/internal/client/client.go:669-692 | the reserved start and the next free one |
| `Registry.ReassignmentSafety` | internal/server/server.go:420-511 | in every interleaving at most two tunnels per node and preset, and two only while one reassignment waits for the older to be closed |
| `Registry.QuietPairsAreSingle` | internal/server/server.go:496-511 | with no such reassignment every node and preset has at most one tunnel |
| `Registry.MapsAreInverse` | internal/server/server.go:485-488 | `tunnels` and `ports` are inverse throughout a run exactly if no tunnel was registered on the port of another |
| `Registry.CarefulRunsAreInverse` | internal/server/server.go:407-494 | automatic ports, and requested ports free when the creation starts, keep them inverse in every interleaving |
| `Registry.RestoredTwiceOnOnePort` | internal/server/state.go:100-117 | a run restoring a TCP and a UDP tunnel on one port number, after which they are not inverse |
| `Registry.RegisteredInverse` | internal/server/server.go:485-488 | one registration keeps the maps inverse exactly if the port is free |
| `Registry.UnregisteredInverse` | internal/server/server.go:685-696 | unregistering keeps them inverse |
| `Registry.AllocatedPortIsFree` | internal/server/server.go:441-483 | an automatic port is in the range and has no tunnel when it is registered |
| `Registry.ExhaustedOnlyIfAllRefused` | internal/server/server.go:597-620 | automatic allocation gives up only after every port that was free when the candidates were listed failed to bind in this creation |
| `Registry.StepIsSafe` | internal/server/server.go:407-511 | every step of a creation, close or reassignment keeps the invariants |
| `Registry.ScanDecides` | internal/server/server.go:420-427 | the scan of a creation ends it exactly if another tunnel than the allowed one has both its node and its preset |
| `Registry.CreationRegisters` | internal/server/server.go:407-494 | without interference a creation that no tunnel blocks registers its tunnel on any port that may be bound |
| `Registry.ReassignmentReplaces` | internal/server/server.go:496-511 | without interference a reassignment replaces a tunnel by one of the same node and preset on another port; tunnels of other nodes or presets do not matter |
| `TunnelServer.Server.PortCandidates` | internal/server/server.go:597-620 | the requested port, or exactly the free ports of the range in some order |
| `TunnelServer.Server.CreateTunnelInternal` | internal/server/server.go:407-494 | a tunnel is created exactly if the node has the preset, no other tunnel serves it and a port binds; the new maps and the unchanged ones on failure |
| `TunnelServer.Server.ReassignTunnel` | internal/server/server.go:496-511 | the replacement is registered on another port and the old tunnel removed; a failure changes nothing |
| `TunnelServer.Server.CloseTunnel` | internal/server/server.go:685-696 | leaves both maps once |
| `TunnelServer.Server.DeleteNode` | internal/server/server.go:772-805 | closes the node's tunnels and no others |
| `TunnelServer.Server.SyncNodeTunnels` | internal/server/server.go:513-562 | from at most one tunnel per preset: keeps wanted tunnels with ID and port, leaves other nodes alone, serves every wanted preset not reported, and reports only presets for which no free port binds |
| `TunnelServer.OutcomeKeeps` | internal/server/server.go:513-562 | a sync keeps every tunnel of another node, and those of the node whose preset and protocol are registered |
| `TunnelServer.OutcomeIsWanted` | internal/server/server.go:513-562 | afterwards every tunnel of the node has a registered preset and its protocol, and each preset at most one |
| `TunnelServer.OutcomeServes` | internal/server/server.go:546-562 | a registered preset is reported exactly if it has no tunnel then, and only if no free port of the range binds for it |
| `TunnelServer.SuccessIsSynced` | internal/server/server.go:513-562 | a sync without failures leaves exactly one tunnel of the right protocol per wanted preset and no others |
| `TunnelServer.SyncedStays` | internal/server/server.go:513-562 | a sync of a node in line changes nothing and reports nothing |
| `Connections.ActiveInEveryRun` | internal/server/tunnel.go:262-274 | in every run the active count is begun-not-ended transfers plus sessions not yet taken off, so no clamp to zero is ever reached |
| `Connections.TotalInEveryRun` | internal/server/tunnel.go:119-152 | the total of a new tunnel is all inserted connections and created sessions, less those about to be counted; that of a restored one is the saved total and what was counted after it was stored |
| `Connections.TotalGrows` | internal/server/tunnel.go:334-350 | between two stores of saved counters the total grows by exactly what was counted |
| `Connections.NoneEntersAfterDrain` | internal/server/tunnel.go:134-142 | after the close has drained the table it stays empty |
| `Connections.TakenByOneParty` | internal/server/tunnel.go:223-260 | an inserted connection that no longer waits was taken by a step of the party its fate names: attach, failure or close |
| `Connections.LeavesOnce` | internal/server/tunnel.go:223-237 | no connection leaves the table twice |
| `Connections.FateIsFinal` | internal/server/tunnel.go:223-237 | what was decided for a connection stays decided |
| `Connections.StepConserves` | internal/server/tunnel.go:119-274 | every step keeps table, transfers, sessions and both counters consistent |
| `Connections.TakingRemoves` | internal/server/tunnel.go:223-237 | in every run an attach, a failure or the drain that finds a connection in the table takes it out and decides its fate |
| `Connections.FoundOnce` | internal/server/tunnel.go:223-237 | at most one of all attempts to take a connection finds it in the table |
| `Connections.InsertWaits` | internal/server/tunnel.go:136-149 | a connection waits in the table exactly if it comes in while the tunnel serves |
| `ConnectionRuns.AttachedConnection` | internal/server/tunnel.go:136-274 | a connection that is counted, attached and transferred leaves nothing but a greater total |
| `ConnectionRuns.FailedConnection` | internal/server/tunnel.go:251-260 | so does one that fails |
| `ConnectionRuns.ClosedSession` | internal/server/tunnel.go:511-544 | a closed session leaves the table and the active count |
| `ConnectionRuns.ClosedTunnel` | internal/server/tunnel.go:352-390 | a close drains the waiting connections and empties both tables |
| `Connections.Tunnel.HandlePublicConn` | internal/server/tunnel.go:119-145 | a connection waits and is counted, unless the tunnel is closed |
| `Connections.Tunnel.TakePending` | internal/server/tunnel.go:223-237 | exactly one caller gets a waiting connection |
| `Connections.Tunnel.EndTransfer` | internal/server/tunnel.go:268-274 | the clamp changes nothing |
| `Connections.Tunnel.GetOrCreateUDPSession` | internal/server/tunnel.go:195-221 | one session per source in the table, created and counted if missing |
| `Connections.Tunnel.CloseSession` | internal/server/tunnel.go:511-544 | only the first close has an effect |
| `Connections.Tunnel.Close` | internal/server/tunnel.go:352-390 | drains all waiting connections and closes all sessions of the table; a second close does nothing |
| `Persistence.RestartRecovers` | internal/server/state.go:52-120 | restoring a snapshot of a settled state whose ports all bind gives its nodes, tokens, presets and, for each tunnel, node, preset, protocol, port and counters, up to IDs, live connections and parts of seconds |
| `Persistence.RestartKeepsPorts` | internal/server/state.go:94-117 | the mapping from node and preset to port is the same |
| `Persistence.DistinctPortsRestoreInverse` | internal/server/state.go:94-117 | restoring any list of different non-zero ports leaves `tunnels` and `ports` inverse, whatever else was saved and whatever fails |
| `Persistence.NodesAreRecovered` | internal/server/state.go:58-92 | the node part of it |
| `Persistence.SnapshotState` | internal/server/state.go:140-207 | the loops list every node with its presets and every tunnel with its counters, once |
| `Persistence.RestoreState` | internal/server/state.go:52-120 | the loops restore nodes, then one tunnel after the other; unknown ones are passed over, failures are noted with the node |
| `Persistence.RestoreTunnel` | internal/server/state.go:94-117 | one step of it |
| `RestoredState.RestoredNode` | internal/server/state.go:57-97 | for any saved record: a node with a name and a token is restored, trimmed and disconnected, with its times and presets |
| `RestoredState.RestoredPreset` | internal/server/state.go:87-95 | which saved presets are restored, and as what |
| `RestoredState.LastPresetCounts` | internal/server/state.go:87-95 | a preset replaces an earlier one of its name |
| `RestoredState.RestoredTunnel` | internal/server/state.go:100-119 | a tunnel is created on its saved port with all its counters if no tunnel has its node and preset and the port binds |
| `RestoredState.FailedTunnel` | internal/server/state.go:100-119 | otherwise nothing is created and its node keeps an error |
| `RestoredState.UnknownTunnel` | internal/server/state.go:101-107 | a tunnel of an unknown node or preset is passed over |
| `RestoredState.SavedNodeIs` | internal/server/state.go:141-190 | what is saved of a node and its presets |
| `Persistence.WholeSecondsIsFloor` | internal/server/state.go:257-262 | a saved time loses less than a second and nothing more the second time |
| `SshdConfig.AcceptedTexts` | client/internal/winclient/openssh_windows.go:421-464 | a text is accepted exactly if the executable is safe, its markers pair up and no directive outside the blocks needs a review |
| `SshdConfig.Idempotent` | client/internal/winclient/openssh_windows.go:421-506 | rebuilding an output succeeds and returns the same text |
| `SshdConfig.OutputHasOneBlock` | client/internal/winclient/openssh_windows.go:466-505 | the output has one begin and one end marker around the block, and no Match line before it |
| `SshdConfig.ForeignLinesKept` | client/internal/winclient/openssh_windows.go:428-505 | the non-blank lines outside the block are the input's in order, apart from legacy key paths and carriage returns at the end of the text |
| `SshdConfig.LegacyLineKeepsPaths` | client/internal/winclient/openssh_support_windows.go:9-36 | only legacy paths leave a line; a line that names no other becomes empty |
| `SshdConfig.LegacyLineSettles` | client/internal/winclient/openssh_support_windows.go:9-36 | a rewritten line is left alone the next time |
| `SshdConfig.LinesOfRender` | client/internal/winclient/openssh_windows.go:428-505 | reading the rendered text gives its lines back, without what the end of the text loses |
| `SshdConfig.RewriteLines` | client/internal/winclient/openssh_support_windows.go:9-36 | the loop over the array rewrites every line in place |
| `SshdConfig.CleanLines` | client/internal/winclient/openssh_windows.go:429-463 | the scanning loop with its errors |
| `SshdConfig.LayOut` | client/internal/winclient/openssh_windows.go:481-504 | the three loops place the block |
| `SshdConfig.BuildManagedConfig` | client/internal/winclient/openssh_windows.go:421-506 | the whole rewriter |
| `SshdDirectives.AcceptedByWords` | client/internal/winclient/openssh_windows.go:433-473 | a text is accepted exactly if the executable is safe, the markers pair up, and no line outside the blocks has one of the three reviewed directives as its first word, in any case; comments do not matter |
| `SshdDirectives.SafePaths` | client/internal/winclient/openssh_windows.go:421-425 | an executable is safe exactly if it is an absolute path, on a drive or a share, without quotes and line ends; any other is refused |
| `SshdDirectives.ForeignDirectiveIsRefused` | client/internal/winclient/openssh_windows.go:455-463 | a foreign line of indentation, one of these words and a value makes the rewriter refuse |
| `SshdDirectives.OutputByWords` | client/internal/winclient/openssh_windows.go:469-506 | the output holds the block once, with the listed directives, the loopback address and the executable, behind one empty line, and no line before it has `match` as its first word |
| `SshdDirectives.MatchStandsBehind` | client/internal/winclient/openssh_windows.go:483-506 | a foreign Match line, in any case and indentation, stands behind the block |
| `SshdDirectives.ForeignLineIsKept` | client/internal/winclient/openssh_windows.go:461-464 | a foreign line that is not blank is found in the output, outside the block |
| `SshdDirectives.OldPathGoes` | client/internal/winclient/openssh_support_windows.go:9-36 | from a line of key files exactly the old paths go, and an empty one is blank |
| `SshdDirectives.OtherLineStays` | client/internal/winclient/openssh_support_windows.go:9-36 | every other line stays as it is |
| `SshdLayout.CleanAccepts` | client/internal/winclient/openssh_windows.go:432-463 | over any line rules: accepted exactly if markers alternate and nothing outside is refused, and then the outside lines remain |
| `SshdLayout.RelayoutIsStable` | client/internal/winclient/openssh_windows.go:481-505 | laying out reread lines gives the same lines |
| `SshdLayout.RereadNonBlank` | client/internal/winclient/openssh_windows.go:481-505 | a rebuild keeps the non-blank lines in order |
| `RotatingLog.RotatingFileWriter.Write` | client/internal/winclient/log_writer_windows.go:50-64 | under any failures the retained log stays a suffix of the initial one plus all bytes written; what was written, when it rotates, and that no file outgrows the limit or one payload; after a close that failed nothing is written any more |
| `RotatingLog.RotatingFileWriter.RotateLocked` | client/internal/winclient/log_writer_windows.go:92-131 | drops the oldest backup and nothing else, or fails losing at most that; a failed close leaves a dead handle |
| `RotatingLog.RotatingFileWriter.ShiftBackups` | client/internal/winclient/log_writer_windows.go:105-117 | the descending renames overwrite nothing, wherever they stop |
| `RotatingLog.RotatingFileWriter.OpenAppend` | client/internal/winclient/log_writer_windows.go:77-90 | the size is the file's size whenever the log is open |
| `RotatingLog.RotatingFileWriter.Start` | client/internal/winclient/log_writer_windows.go:27-48 | a ready writer has room; a failing one is closed |
| `RotatingLog.RenameKeepsRetained` | client/internal/winclient/log_writer_windows.go:105-124 | moving a file to the next unused number keeps the retained log |
| `LogReaders.LatestSSHAssignment` | client/internal/winclient/service_windows.go:484-516 | the newest-first search with its early exits finds what a fold over all retained lines finds, and when it fails |
| `LogReaders.ScanAssignmentLog` | client/internal/winclient/service_windows.go:518-535 | the scan of one file is the fold with a reset at each service start |
| `LogReaders.LatestDecides` | client/internal/winclient/service_windows.go:504-509 | a file with an assignment or a start makes older files irrelevant; another leaves them to decide |
| `LogMonitor.PollingIsIndependent` | client/internal/winclient/monitor_windows.go:285-337 | however appended bytes are split over polls, the lines returned are the non-empty lines up to the last newline |
| `LogMonitor.ConsumedTwice` | client/internal/winclient/monitor_windows.go:187-241 | reading the last lines twice leaves connections and assignment as reading them once |
| `LogHistory.HistoryThenFollow` | client/internal/winclient/monitor_windows.go:56-104 | the follower fixed first, the history read next and then polls, with no line cut by the follower or one the history finishes: whatever was known before, the monitor ends as if it had read each line once, exactly if the unfinished end of the history and the lines read twice say nothing or what the history said last, wherever later lines do not decide |
| `LogHistory.HistoryThenFollowInLine` | client/internal/winclient/monitor_windows.go:56-104 | the same where nothing appended before the history ends has a newline: exactly if the front of the line in the history and its end in the polls say, together, what the whole line says, wherever later lines do not decide |
| `LogHistory.EffectIsLastWords` | client/internal/winclient/monitor_windows.go:187-241 | two lists of lines leave every state of the monitor alike exactly if they have the same last word on every connection and on the assignment |
| `LogHistory.MonitorReadsOnce` | client/internal/winclient/monitor_windows.go:56-104 | for the lines the service writes: with the follower between two lines each line counts once wherever the history ends, once its last line is finished |
| `LogHistory.CutLineIsLost` | client/internal/winclient/monitor_windows.go:265-283 | the real line reader with the follower and the end of the history behind `TCP OP`: the poll that finds `TCP OPEN {}` complete shows no connection, while reading the line once shows it |
| `LogReaders.FrontOfLine` | client/internal/winclient/service_windows.go:537-550 | a line says at least the start and the assignment its front says |
| `LogLines.OpenIsRead` | client/internal/winclient/monitor_windows.go:243-263 | an opening event is read from the record behind its first marker |
| `LogLines.CloseIsRead` | client/internal/winclient/monitor_windows.go:243-263 | so is a closing event, on a line without an opening marker |
| `LogLines.AssignmentIsRead` | client/internal/winclient/service_windows.go:537-550 | the assignment is the word behind the first `public=` on a line of the SSH preset |
| `LogMonitor.LinesOfConcat` | client/internal/winclient/monitor_windows.go:320-336 | what is left of one part goes in front of the next |
| `LogMonitor.LogFollower.ReadAvailable` | client/internal/winclient/monitor_windows.go:285-337 | a poll, with the file replaced, truncated, unreadable or grown too much |
| `LogMonitor.ConnectionMonitor.ConsumeLine` | client/internal/winclient/monitor_windows.go:187-241 | the effect of one line |
| `LogMonitor.ConnectionMonitor.LoadHistory` | client/internal/winclient/monitor_windows.go:151-185 | all retained lines, oldest file first; fails at a broken file or without any readable one |
| `SupportSessions.SlotsAreOwnedUnlessOrphaned` | client/internal/winclient/support_windows.go:577-646 | in every run a slot authorizes only a session of the table that has this slot, exactly if no failing start left its key in the slot |
| `SupportSessions.OrphanedKey` | client/internal/winclient/support_windows.go:623-627 | a run after which a key is authorized without a session, because the ignored clear failed |
| `SupportSessions.StoredKey` | client/internal/winclient/support_windows.go:247-264 | another one, because the write reported an error after it had stored the key |
| `SupportSessions.LiveSessionsAreAuthorized` | client/internal/winclient/support_windows.go:715-749 | in every run waiting and connected sessions keep their authorization, exactly if no start and no clearing touched the slot of a live session of another account |
| `SupportSessions.SeparateSessionsAreAuthorized` | client/internal/winclient/support_windows.go:771-786 | they keep it whatever cleanups and failures there are, if no start uses the slot of another account's session |
| `SupportSessions.SharedSlot` | client/internal/winclient/support_windows.go:771-786 | a run in which the second of two accounts with one slot takes it from the first |
| `SupportSessions.OneShellPerSession` | client/internal/winclient/support_windows.go:668-693 | at most one shell ever takes a session from waiting to connected |
| `SupportSessions.OldSessionsAreIgnored` | client/internal/winclient/support_windows.go:668-725 | connect, stop and finish messages with another ID change nothing |
| `SupportSessions.CleanupIsForItsSession` | client/internal/winclient/support_windows.go:715-749 | a cleanup clears the slot of its own, stopping session only |
| `SupportSessions.CleanupEnds` | client/internal/winclient/support_windows.go:734-749 | a cleanup takes its session out of the table exactly if its clear succeeded, and else leaves it in cleanup error |
| `SupportSessions.ClearEmpties` | client/internal/winclient/support_windows.go:247-268 | a clear succeeds exactly on an existing slot without an error, and then the slot is empty |
| `SupportSessions.SessionsCome` | client/internal/winclient/support_windows.go:577-646 | only a start without a failure adds a session, and only a connect to a waiting one gives it a shell |
| `SupportSessions.SupportController.WriteSlot` | client/internal/winclient/support_windows.go:247-264 | what a write leaves that succeeds, or reports an error before, in or after the write |
| `SupportSessions.SupportController.Start` | client/internal/winclient/support_windows.go:577-646 | the outcome of every failure of a start, with what it leaves in the slot |
| `SupportSessions.SupportController.CleanupSession` | client/internal/winclient/support_windows.go:715-749 | ends the session, or leaves it to be tried again if clearing its slot reports an error, even one that came after the clearing, or finds no slot |
| `SupportSessions.SupportController.Stop` | client/internal/winclient/support_windows.go:648-666 | only the current session can be stopped |
| `SupportSessions.SupportController.Connect` | client/internal/winclient/support_windows.go:668-693 | exactly a waiting session without a shell can be connected to |
| `Wire.FramesRoundTrip` | client/internal/common/datagram.go:14-50 | repeated reading of written frames gives exactly the payloads; of a truncated stream their first ones and then an error |
| `Wire.LengthRoundTrip` | client/internal/common/datagram.go:19-20 | the big-endian length is read back |
| `Wire.LengthBytes` | client/internal/common/datagram.go:19-20 | the header is the length in network byte order |
| `Wire.WriteFrame` | client/internal/common/datagram.go:14-28 | under every schedule of short writes the whole frame or a first part and an error |
| `Wire.WriteAll` | client/internal/common/protocol.go:165-179 | so for the writing loop |
| `Wire.ReadFull` | client/internal/common/datagram.go:30-50 | under every schedule of short reads exactly the bytes asked for, or an error at the end |
| `Wire.ReadFrame` | client/internal/common/datagram.go:30-50 | the same frame for every schedule |
| `Wire.ReadMessageLineLimit` | client/internal/common/protocol.go:123-153 | for every fragmentation the first line, trimmed, exactly if it is within the limit and not blank, leaving what follows unread; the loop never keeps more than the limit |
| `Wire.MessageIsRead` | client/internal/common/protocol.go:123-153 | a line within the limit that is not blank is the message, trimmed, whatever follows it |
| `Wire.LongLineIsRefused` | client/internal/common/protocol.go:123-153 | a longer line, or one without an end, is no message |
| `UnitFile.RoundTripExactly` | client/packaging/npm/scripts/service.js:163-170 | every absolute path is read back from the ExecStart line exactly if the binary does not hide it |
| `UnitFile.UnitRoundTrip` | client/packaging/npm/scripts/service.js:85-117 | the unit gives back the configuration path whatever it contains, if no white space of the binary path is followed by the option name, or if no option with a value is found there |
| `UnitFile.UnitRoundTripExactly` | client/packaging/npm/scripts/service.js:85-117 | for a client whose unit can be built, every absolute path a unit can hold is read back from its unit, exactly if the binary does not hide it |
| `UnitFile.UnitLine` | client/packaging/npm/scripts/service.js:163-170 | the reader takes the path from the unit's ExecStart line |
| `UnitFile.OptionInPathHides` | client/packaging/npm/scripts/service.js:166 | a binary path that contains the option with a value hides the configuration |
| `UnitFile.HiddenConfig` | client/packaging/npm/scripts/service.js:166-169 | then the same is read whatever the configuration is |
| `UnitFile.UnescapedEscaped` | client/packaging/npm/scripts/service.js:71-76 | unquoting undoes quoting for every text |
| `UnitFile.EscapedIsPerChar` | client/packaging/npm/scripts/service.js:71-76 | the replacements one after the other do the same as one pass over the characters |
| `UnitFile.BuildServiceUnit` | client/packaging/npm/scripts/service.js:85-117 | the pushed lines are the unit, or an error for a refused value |
| `UnitText.UnitSays` | client/packaging/npm/scripts/service.js:85-117 | the lines of the unit, and that directory, home, binary and configuration are read back from their quoted texts |
| `UnitText.RefusedUnits` | client/packaging/npm/scripts/service.js:71-83 | a unit is refused exactly for a value that does not fit on a line, or a directory that is not absolute or not trimmed |

## Left out

- Sockets, TLS, dialing, HTTP handlers, templates and pages, Windows APIs, systemctl, installers, file permissions, wizard prompts, localisation and printing: I/O and foreign calls.
- AES-GCM, base64 and SHA-256: a bootstrap token decodes by a partial function that returns trimmed, non-empty fields; the digest in a server ID is any function.
- The copies of the client and the codec at the root of the repository: they add no harder property than those under `client/`.
- Full Unicode: white space and case folding are ASCII; in particular a JavaScript white-space character outside ASCII in a binary path is not seen by `UnitFile`.
- JSON: writing a record and reading it back is the identity. A saved configuration is one record; the atomic replacement of the file is one step.
- The missing-file default of LoadManagedConfig, and filepath.Clean: the executable path of the rewriter is taken as clean.
- Revisions, counters, ports and sizes are unbounded integers: wrap-around of a 64-bit revision or counter is not modelled.
- The Run method itself is not a Dafny method, because it does not terminate: its loop is the step machine of `ClientProtocol`.
- The table of block-IP requests of a session: the same shape as the table of pending connections, and simpler.
- A node's connection state and control connection, so that no connection is turned away because its node is gone, and the order in which listings are sorted: results hold for every order.
- That every tunnel's node exists under interleaving, that a closed UDP session has a closed stream, and that a closed UDP tunnel has no sessions: the code does not promise it.
- Saving during a restore or a shutdown, and the texts of provisioning errors: a sync returns the set of presets that failed.
- Datagram payloads inside a UDP session, their order and its timers: a session is created, attached and closed.
- LogHistory.MonitorReadsOnce: takes an event record cut at its end to be no record or the same record; the exact condition without that is LogHistory.HistoryThenFollow. A line longer than the scanner's buffer is a broken file.
- A poll of a log that grew by more than the limit: it fails, and the theorem on polls asks for less growth.
- Repair and installation of support key slots while the service runs, except that a slot may disappear; reading the operator key before a start. A key that is cut off by a partial write counts as an empty slot, unless only its final newline is missing: it still authorizes then, and counts as stored.
- The checks on account names and the forming of the slot path from them: a start names its slot.
