# Bivrost: a verified model

Bivrost opens a managed shell or command with tunnels to private Azure
resources. Several such sessions run side by side as separate processes, share
files in a runtime directory, publish kubeconfig descriptors for other tools,
and reconnect when a switch of environment is accepted. This project
models the parts of that behaviour whose correctness depends on more than one
function at a time, and proves what they guarantee.

| module | part of the program |
|---|---|
| `SessionRegistry`, `RegistryProtocol` | the session records, their limits and the claim on registry access; processes that scan, create, update, close and crash |
| `Controller`, `PublicationProtocol` | the controller of one session: publish, unpublish, switch, enable, close; its interleavings |
| `Cleanup`, `CleanupProtocol` | the cleaner of published descriptors, beside publishers, crashes and reused ports |
| `StopRequests` | signals against the start of a command |
| `Routes`, `RoutesProtocol` | routers and their replacement under live traffic |
| `Lifecycle` | one session from registration to its last release, and chains of switched sessions |
| `Kubeconfig` | the two kubeconfig transformations |
| `Heimdal`, `HeimdalCreate`, `HostLists` | metadata documents: creation, strict decoding, validity, size |
| `HostNames`, `Routing` | which names the proxy accepts, tunnels and allows as routes; its decision on a request |
| `PodmanArgs` | the argument scan of the Podman wrapper |
| `Socks` | the SOCKS handshake |
| `JsonValues`, `Decimal`, `Wrappers` | JSON values, numerals and optional values the others share |

Objects that the program updates in place are classes whose methods are proved
against specification functions. Protocols between processes or goroutines are
state machines: a state, a `Next` predicate with one case for each atomic step,
an invariant kept by every step, and results about every run
(`IsRun(states, steps)`). A mutex-protected section is one step unless other
actors can act inside it; the lock of a publish, for example, is held over
several steps, because the session's context can end meanwhile.

## What the code does not guarantee

Some expectations fail. Each has a concrete run or input, and the exact
condition under which the expectation is met.

- A publish that an unpublish overtakes between its two locked phases need not
  fail: if another publish has installed a publication since, it answers with
  that one (`OvertakenPublishCanSucceed`). `OvertakenPublishAnswer` says for
  every publish what its second lock leads to; a wrap-around of the 64-bit
  withdrawal counter is one of its branches.
- The session context can end while a publish holds the lock, so that the
  publication is installed in an ended session (`InstallAfterEndCanHappen`).
  `InstallAfterEndWasChecked`: it is so exactly when the context ended after
  the publish took its second lock. `NoneLiveAfterClose` shows that closing the
  activation removes such a publication.
- Ctrl+C sent to a foreground command during setup, and taken up only when the
  command counts as running, is left to a command that never received it
  (`ForegroundInterruptCanBeLost`). `LostExactlyWhen` says when a command runs
  on after an interrupt as if there had been none; `ArrivalIsServed` and
  `OwnGroupNeverLoses` say when that cannot happen.
- The component that replaces routes would allow a replacement beside a
  concurrent close of the proxy to return with a tunnel of the old router open
  (`ReplacementBesideClose`). The program makes no such run, since the one
  replacement of a session and the close of its proxy are calls of the same
  goroutine; for a replacement that returns before any close
  `ReplacementClosesOldTunnels` holds without a proviso. `OldTunnelsAreClosed`
  is the exact condition in general.
- The publication gateway takes connections off its list before closing them
  on its early returns, so its close can return with such a connection open
  (`GatewayCloseMissesEarlyReturn`). The condition is again that of
  `OldTunnelsAreClosed`; `LeftRouterMeansClosed` shows that routers are different.
- The rewriting of CONNECT hosts applied twice differs from once exactly for
  names ending in two dots (`NormaliseTwice`), which `connectTarget` refuses.
- The fallback for a live record that cannot be read forgets its limit and
  claim. The registry results assume that a registered session's record writes
  succeed.

## Model

| member | source | states |
|---|---|---|
| SessionRegistry.SessionLimitOf | internal/session/active_sessions.go:338-346 | the result is the lowest positive limit among the active records, 0 exactly when there is none |
| SessionRegistry.BelowLimits | internal/session/active_sessions.go:101-110 | the test at registration passes exactly when the new session and every active session with a limit tolerate one session more |
| SessionRegistry.Directory.ScanSessions | internal/session/active_sessions.go:264-304 | records whose owner is gone are removed and nothing else; every live record is listed once, an unreadable one with no limit and no claim |
| SessionRegistry.Directory.RegisterSession | internal/session/active_sessions.go:93-135 | a session is refused exactly when a limit is reached or its file exists; otherwise its locked, written record is added, and in every case the dead records are gone |
| SessionRegistry.ActiveSession.Update | internal/session/active_sessions.go:146-190 | a claim fails exactly when another live session holds it; recording ports sets exactly the two ports, claiming and releasing set exactly the claim, and name, environment and limit always stay; a refused change leaves record and file as they were, an accepted one is in both |
| SessionRegistry.ActiveSession.Close | internal/session/active_sessions.go:194-212 | closing removes exactly this session's record, once |
| SessionRegistry.AdmittedBelowLowest | internal/session/active_sessions.go:101-110 | counting against the lowest limit is the same as asking every session |
| SessionRegistry.AdmittedInOrderIffWithinLimits | internal/session/active_sessions.go:93-135 | from an empty directory a list of registrations succeeds, one after another, exactly when their number is within every member's limit |
| SessionRegistry.AdmissionIgnoresOrder | internal/session/active_sessions.go:93-135 | whether a list of registrations all succeed does not depend on their order |
| RegistryProtocol.NextKeepsInv | internal/session/active_sessions.go:93-212 | every step of every process, crashes and closes without the lock included, keeps the registry invariant |
| RegistryProtocol.SessionLimitHolds | internal/session/active_sessions.go:93-135 | in every reachable state the number of live sessions is within the limit with which each of them took the lock to register |
| RegistryProtocol.RegisteredWith | internal/session/active_sessions.go:93-191 | a live session was written by the registration of its owner, and has been live with the limit of that registration ever since |
| RegistryProtocol.SinglePodmanOwner | internal/session/activation.go:87-123 | at most one process is between a successful start of the Podman session and its close |
| RegistryProtocol.PodmanOwnerHoldsClaim | internal/session/activation.go:87-123 | while a process has a Podman session, its own record and no other live record holds the claim |
| RegistryProtocol.ScanBegan | internal/session/active_sessions.go:264-304 | a scan reports against the live records at the moment the registry lock was taken |
| RegistryProtocol.RefusalIsJustified | internal/session/active_sessions.go:101-110 | when the scan of a refused session began, one session more would have been above its own limit or above the positive limit of a live session, although sessions may close meanwhile |
| RegistryProtocol.ClaimRefusalIsJustified | internal/session/active_sessions.go:146-160 | a refused claim was held by another live session when the scan began |
| Controller.PublicationState | internal/session/publication.go:155-166 | a publish goes on only in a session that has not ended, has no accepted switch, no publication and an available Kubernetes target |
| Controller.Activation.PublishEnds | internal/session/publication.go:91-151 | the second locked phase installs only over none and only if no withdrawal was counted since the first; otherwise nothing changes and no gateway stays live |
| Controller.Activation.Unpublish | internal/session/publication.go:347-371 | an accepted unpublish closes and forgets the publication, ends the request for one and counts a withdrawal; it is refused only after the end |
| Controller.Activation.AcceptSwitch | internal/session/activation.go:205-241 | a switch is accepted exactly in a live session without a pending one; an existing target stays and nothing else changes |
| Controller.Activation.Publish | internal/session/publication.go:72-151 | a publish that nothing comes between installs exactly when the session admits it and it can be prepared, and otherwise changes nothing |
| Controller.Activation.NextSession | internal/session/platform.go:382-388 | a switching shell is followed by the accepted target with the sharing intent of that moment |
| Controller.Activation.Enable | internal/session/activation.go:70-134 | enabling succeeds exactly when it had already, or all operations succeed under a fresh claim; a failed attempt leaves neither Podman session nor claim |
| Controller.Activation.StartUnderClaim | internal/session/activation.go:87-123 | the deferred undo steps close a started Podman session before its claim is released |
| Controller.DisciplineMeans | internal/session/activation.go:87-123 | the rule kept by enabling and closing: every Podman start lies behind a recorded claim not released since, and a close lies between a start and a later release |
| Controller.Activation.Close | internal/session/activation.go:292-307 | closing ends the session, and leaves no publication and no Podman session |
| PublicationProtocol.NextKeepsInv | internal/session/publication.go:72-166 | every step of requests, context and close keeps the controller invariant |
| PublicationProtocol.NoPublicationLeaks | internal/session/publication.go:72-151 | every live gateway is the installed one, whose sharing is requested, or the one being prepared under the lock over none |
| PublicationProtocol.NoneLiveAfterClose | internal/session/activation.go:292-307 | after close no publication is ever live again |
| PublicationProtocol.SwitchTargetIsFinal | internal/session/activation.go:205-241 | an accepted switch was accepted over none in a live session, and its target never changes |
| PublicationProtocol.InstallsOnlyOverNone | internal/session/publication.go:114-151 | an installation replaces no publication and happens only if no switch was ever accepted before it |
| PublicationProtocol.InstallAfterEndWasChecked | internal/session/publication.go:87-98 | an installing publish found the session alive when it took the lock and has held it since; the session has ended by the installation exactly when the context ended in between |
| PublicationProtocol.InstallAfterEndCanHappen | internal/session/publication.go:87-151 | a run in which the context ends inside the locked phase and the publication is installed |
| PublicationProtocol.InstallSawNoWithdrawal | internal/session/publication.go:94-98 | between the first lock of an installing publish and its installation the number of accepted unpublishes is a multiple of the counter's modulus |
| PublicationProtocol.OvertakenPublishAnswer | internal/session/publication.go:91-98 | the second lock lets a publish go on exactly when the withdrawals since the first are a multiple of the modulus and nothing else stands in the way; otherwise it installs nothing, and reports a publication exactly when one stands and no switch or end intervened |
| PublicationProtocol.OvertakenPublishCanSucceed | internal/session/publication.go:91-98 | a run in which an overtaken publish reports the publication of another request |
| PublicationProtocol.RequestedIsIntent | internal/session/publication.go:336-371 | sharing is requested exactly as the last installation or accepted unpublish left it |
| Cleanup.Directory.CollectProbes | internal/session/publication.go:434-491 | the first pass removes exactly the stale temporary files and probes exactly the readable descriptors |
| Cleanup.Directory.Clean | internal/session/publication.go:434-533 | a cleaning removes exactly the stale temporary files and the readable descriptors whose probe was refused or answered 403 or 410; fresh temporary files, unreadable descriptors and other files stay |
| CleanupProtocol.NextKeepsInv | internal/session/publication.go:434-533 | every step of publishers, cleaners and strangers on the ports keeps the invariant |
| CleanupProtocol.PlacedDescriptorStays | internal/session/publication.go:114-148 | the descriptor of a placed publication is on disk, as written, for as long as its gateway is alive |
| CleanupProtocol.OnlyDeadDescriptorsGo | internal/session/publication.go:493-515 | what a cleaner removes is a stale temporary file, or a descriptor whose capability no gateway on any port accepts |
| CleanupProtocol.ConclusiveProbeRemoves | internal/session/publication.go:493-533 | a descriptor whose probe was conclusive is gone when that cleaner has finished, unless the cleaner crashes |
| CleanupProtocol.ProbeOutcomes | internal/session/publication.go:520-533 | a probe is refused exactly at an unbound port, and a gateway answers 403 to another capability, 410 after its close and 204 otherwise; the descriptor's own live gateway is never taken for dead |
| StopRequests.NextKeepsInv | internal/session/run.go:76-117 | every step of the signal goroutine, the command and the main path keeps the handshake invariant |
| StopRequests.TerminateClosedOnce | internal/session/run.go:84-108 | the terminate channel is closed at most once |
| StopRequests.AcceptedInTimeNeverStarts | internal/session/run.go:161-172 | a request accepted before the last check keeps the command from ever starting |
| StopRequests.AcceptedLateIsTold | internal/session/run.go:184-209 | three steps of the main path after a request was accepted, the command has been told or does not run |
| StopRequests.AcceptedIsServedOnLeaving | internal/session/run.go:184-209 | whenever the main path leaves after an accepted request the command has ended or never started, and it never started if the request came before the last check |
| StopRequests.TerminationIsNeverLost | internal/session/run.go:84-108 | until a termination signal is accepted or the run is over the signal goroutine is never blocked, and it needs at most five steps and two more for every interrupt |
| StopRequests.InterruptFate | internal/session/run.go:88-100 | an interrupt taken up is treated as a termination exactly when no foreground command counts as running; an ignored one that is not dropped has reached the command, or the command has ended |
| StopRequests.ArrivalIsServed | internal/session/run.go:88-116 | every interrupt that arrives is from then on under way, accepted, known to the command or too late for it, unless it arrived in the foreground before the command and one was dropped after it |
| StopRequests.LostExactlyWhen | internal/session/run.go:88-116 | after an interrupt a command runs untold, with nothing accepted or under way, exactly when nothing has told it, and an interrupt from before its start was dropped since with no request after that |
| StopRequests.OwnGroupNeverLoses | internal/session/run.go:88-100 | with a command outside the terminal's foreground group every interrupt is served |
| StopRequests.ForegroundInterruptCanBeLost | internal/session/run.go:84-116 | a run in which Ctrl+C during setup is lost: the command starts and runs untold |
| StopRequests.TunnelsOutliveCommand | internal/session/run.go:100-108 | the handshake never cancels the session of a command that has started and not ended |
| Routes.Router.Track | internal/proxy/proxy.go:154-167 | connections are accepted exactly while the router is open, and then recorded |
| Routes.Router.Finish | internal/proxy/proxy.go:117-124 | a finished tunnel is closed and forgotten |
| Routes.Router.Close | internal/proxy/proxy.go:139-152 | closing closes every connection still tracked, so that all ever tracked are closed |
| Routes.RunningProxy.ReplaceRoutes | internal/session/proxy.go:66-81 | routes are replaced exactly when they are valid and belong to the same proxy; the previous router is then closed with all its tunnels, and no installed router ever routes a public control-plane name |
| RoutesProtocol.NextKeepsInv | internal/proxy/proxy.go:139-175 | every step of requests and closers keeps the invariant of routers and gateways |
| RoutesProtocol.OldRouterRefuses | internal/session/proxy.go:66-81 | once a replacement has returned, a request that fetched the old router before is refused by it |
| RoutesProtocol.ReplacementClosesOldTunnels | internal/session/proxy.go:66-81 | when a replacement has returned before any close of the proxy, every connection the old router ever accepted is closed, then and from then on |
| RoutesProtocol.OldTunnelsAreClosed | internal/proxy/proxy.go:139-152 | when any closing has returned, all connections ever accepted are closed exactly if what other closings and early returns hold is closed, and then stay so |
| RoutesProtocol.ReplacementBesideClose | internal/proxy/proxy.go:139-152 | a run of the component, not of the program: a closing returns while another still has a connection to close |
| RoutesProtocol.LeftRouterMeansClosed | internal/proxy/proxy.go:117-124 | while a router is open every connection that has left its list is closed |
| RoutesProtocol.GatewayCloseMissesEarlyReturn | internal/session/publication.go:260-335 | a run in which a gateway's close returns with a connection of an early return still open |
| Lifecycle.Host.PlatformSession | internal/session/platform.go:136-418 | for all outcomes of all operations the session's log is lawful and ends with nothing held; it acquired exactly the resources, reserved the ports and settled the metadata that the outcomes let it; the result is that of the shell's or command's ending exactly when one started |
| Lifecycle.Host.RunStages | internal/session/platform.go:136-418 | how far a session gets, in resources and marks, before its deferred calls |
| Lifecycle.Host.Unwind | internal/session/platform.go:158-307 | the deferred calls empty the stack of resources and the ports, last first |
| Lifecycle.Host.PlatformConnectLoop | internal/session/platform.go:104-123 | every visit is a session that ran and left its log; the loop goes on for as long as sessions end in accepted switches and the context lasts, and its result is that of the last session |
| Lifecycle.SessionReleasesInReverse | internal/session/platform.go:136-418 | a session acquires registration, proxy, Bastion, SSH, activations, shell in this order as far as it gets, and releases exactly these in reverse |
| Lifecycle.SessionStartsWhenReached | internal/session/platform.go:355-418 | a shell or command is in the log exactly when all stages before it succeeded |
| Lifecycle.SessionEndsUserFirst | internal/session/platform.go:355-418 | nothing is released before the shell or command has started and ended |
| Lifecycle.NothingElseReleased | internal/session/platform.go:355-418 | while a shell or command runs nothing else is released |
| Lifecycle.SessionForwardsFirst | internal/session/platform.go:238-253 | no shell or command starts before the SOCKS forward is ready, and the API forward where there is a Kubernetes target |
| Lifecycle.SessionMetadataFirst | internal/session/platform.go:261-289 | where Heimdal metadata is configured it has been demanded and then installed, or done without by an allowed fallback when it could not be fetched, before the shell or command starts |
| Lifecycle.SessionFreesPortsForSsh | internal/session/platform.go:161-235 | each port of the profile has been reserved and then given up before SSH starts |
| Lifecycle.RegistrationOutlivesPodman | internal/session/platform.go:158-307 | when a registration is given up nothing else is held and no Podman session of it is left, as the registry protocol demands |
| Lifecycle.ChainLogIsLawful | internal/session/platform.go:104-123 | the sessions of a chain make one lawful log with one beginning each |
| Lifecycle.ChainRegistrationsDoNotOverlap | internal/session/platform.go:104-123 | in a chain the registration of one session is released before the next session begins |
| Lifecycle.SwitchTargetSetOnce | internal/session/activation.go:227-239 | the first admitted switch is the target of the reconnection, and no publication or switch is admitted after it |
| Lifecycle.IntentIsLastDecision | internal/session/publication.go:336-371 | the sharing intent is the last admitted installation or unpublish |
| Lifecycle.IntentIsKept | internal/session/platform.go:304-304 | without such a decision a session hands on the intent it was given |
| Lifecycle.IntentSurvivesWithoutKubernetes | internal/session/platform.go:304-304 | a session without Kubernetes hands on the intent unless an unpublish ends it |
| Lifecycle.ChainFollowsAcceptedSwitches | internal/session/platform.go:382-388 | of the sessions that ran each after the first connects to the profile of the one switch admitted in the session before, which had started its shell and ended by its switch code, with the sharing intent left then |
| Lifecycle.SessionResultExactly | internal/session/platform.go:376-393 | a session reconnects to a profile exactly when its shell started, exited with the switch code and the first admitted switch named that profile, with the intent of the last admitted decision; it finishes exactly when the user otherwise ended well, and fails in all other cases |
| Lifecycle.ChainGoesOnAfterSwitch | internal/session/platform.go:104-123 | a session that ended by a switch is followed by a session on that target, with that intent, for as long as the context lasts |
| Kubeconfig.NamedObject | internal/session/kubeconfig.go:313-343 | an entry is found exactly when all entries are readable and it is the only one of its name |
| Kubeconfig.FindsOne | internal/session/kubeconfig.go:313-343 | what is found is unique |
| Kubeconfig.LoginMode | internal/session/kubeconfig.go:415-442 | the argument loop finds the Azure CLI login exactly when no flag lacks its value and exactly one position, behind an unconsumed "-l" or "--login" or beginning with "-l=" or "--login=", sets a non-empty mode, and that mode is azurecli |
| Kubeconfig.ValidateAzureCLIExec | internal/session/kubeconfig.go:393-443 | a user is accepted exactly when it carries none of nine other credentials and runs kubelogin get-token with that login and no variables |
| Kubeconfig.ApiTarget | internal/session/kubeconfig.go:366-387 | a server is accepted exactly when it is a plain HTTPS URL of a remote DNS name with a port number or without a port; the target is the name in lower case and that port, or 443 |
| Kubeconfig.LocaliseCluster | internal/session/kubeconfig.go:266-294 | a cluster is localised exactly when it can be reached, embeds its authority and demands verification |
| Kubeconfig.TransformKubeconfig | internal/session/kubeconfig.go:231-311 | the transformation succeeds exactly on the acceptable documents and writes the localised parts of the entries the document selects |
| Kubeconfig.PublicationKubeconfig | internal/session/publication.go:168-258 | a publication is made exactly of the documents that pass its checks, given kubelogin, and names the upstream the session listens on |
| Kubeconfig.LocalClusterIsSession | internal/session/publication.go:191-216 | a localised cluster passes every check a publication makes of it, at the same loopback address |
| Kubeconfig.TransformedIsPublishable | internal/session/publication.go:168-258 | whatever the first stage accepts, its output passes every check of the second and leads to the same local port |
| Kubeconfig.WrittenHasOneOfEach | internal/session/kubeconfig.go:296-304 | the written document holds exactly the context, cluster and user it selects |
| Kubeconfig.PublishedHasOneOfEach | internal/session/publication.go:231-257 | the published document holds exactly one context, cluster and user, and selects them |
| Kubeconfig.IdentitySurvivesBoth | internal/session/kubeconfig.go:273-294 | after both stages the client verifies the original TLS name, or the API host where there was none, by the original authority |
| Kubeconfig.PublishedClusterKeepsIdentity | internal/session/publication.go:191-240 | publishing keeps TLS name and authority and sends the client through the gateway |
| Kubeconfig.PublishedUserKeepsLogin | internal/session/publication.go:217-230 | the published user keeps its arguments and its login mode and gains no credential |
| Kubeconfig.OtherMembersStay | internal/session/kubeconfig.go:273-304 | the first stage leaves every other member of the document, the context, the user and the cluster as it was |
| Kubeconfig.PublishingStays | internal/session/publication.go:217-257 | the second stage changes only the names, the way to the cluster, and the executable and variables of the login |
| Heimdal.HexIsHex | internal/heimdal/metadata.go:252-262 | an encoded digest consists of lower-case hexadecimal digits |
| Heimdal.HexReadsBack | internal/heimdal/metadata.go:83-83 | the two digits at every place read back as the byte there |
| Heimdal.HexIsInjective | internal/heimdal/metadata.go:83-83 | different digests are written differently |
| Heimdal.RevisionsAreDigests | internal/heimdal/metadata.go:252-262 | the valid revisions are exactly the written digests |
| Heimdal.RevisionNamesDigest | internal/heimdal/metadata.go:172-174 | the revision under which data is decoded spells the digest of that data, byte for byte |
| Heimdal.ChangedDataIsRefused | internal/heimdal/metadata.go:172-174 | data with another digest is refused under the old revision |
| Heimdal.RevisionIsValid | internal/heimdal/metadata.go:252-262 | the revision of any document is a valid revision |
| Heimdal.Validate | internal/heimdal/metadata.go:150-164 | the checks accept exactly the valid documents |
| Heimdal.ReadPointer | internal/heimdal/metadata.go:97-131 | the pointer loop accepts exactly one object with every required name once, no other name, values present and well typed, and nothing behind it |
| Heimdal.ReadDocument | internal/heimdal/metadata.go:176-229 | the same for documents |
| Heimdal.PointerReadExactly | internal/heimdal/metadata.go:97-131 | a pointer is read exactly from one object of its three members with its values |
| Heimdal.DocumentReadExactly | internal/heimdal/metadata.go:176-229 | a document is read exactly from one object of its five members with its values |
| Heimdal.EnvironmentNameGrammar | internal/config/paths.go:11-11 | an environment name is a lower-case letter and up to 62 letters, digits and hyphens |
| Heimdal.RefusedPointer | internal/heimdal/metadata.go:103-126 | a member the pointer loop refuses keeps the whole stream from being a pointer |
| Heimdal.RefusedDocument | internal/heimdal/metadata.go:182-220 | a member the document loop refuses keeps the whole stream from being a document |
| Heimdal.OrderIrrelevant | internal/heimdal/metadata.go:176-229 | what is decoded does not depend on the order of the members |
| Heimdal.DecodePointer | internal/heimdal/metadata.go:92-148 | a pointer is returned exactly when it is small, strict, of version 1, for the requested environment and with a valid revision |
| Heimdal.Decode | internal/heimdal/metadata.go:167-234 | a document is returned exactly when it is small, has the requested digest, is strict and valid now |
| HostLists.SortSorts | internal/heimdal/metadata.go:62-63 | the hosts are put in the order of their bytes |
| HostLists.LessExactly | internal/heimdal/metadata.go:62-63 | a string comes before another exactly if it is a proper prefix of it or has the lower byte where they first differ |
| HostLists.DedupInPlace | internal/heimdal/metadata.go:64-69 | the loop that overwrites the list it reads leaves exactly the list without repetitions |
| HostLists.DedupIsStrict | internal/heimdal/metadata.go:64-69 | a sorted list without repetitions is strictly sorted |
| HostLists.CanonicalIsStrict | internal/heimdal/metadata.go:62-69 | the canonical list is strictly sorted and has the hosts given |
| HostLists.CanonicalIgnoresOrder | internal/heimdal/metadata.go:62-69 | lists of the same hosts have the same canonical list |
| HeimdalCreate.Create | internal/heimdal/metadata.go:58-89 | metadata is created exactly for a valid document whose times can be written; the size branch is never taken |
| HeimdalCreate.ValidDocumentFits | internal/heimdal/metadata.go:78-81 | every valid document and its pointer are written within the limits of their readers |
| HeimdalCreate.DocumentTextSize | internal/heimdal/metadata.go:19-20 | 128 hosts of 253 bytes fit into 64 KiB |
| HeimdalCreate.CreatedPointerDecodes | internal/heimdal/metadata.go:82-88 | the pointer created leads back to its revision |
| HeimdalCreate.PointerTextIs | internal/heimdal/metadata.go:84-87 | the text of a pointer, field by field |
| HeimdalCreate.DocumentTextIs | internal/heimdal/metadata.go:74-77 | the text of a document, field by field |
| HeimdalCreate.ValidityWindow | internal/heimdal/metadata.go:157-159 | a created document is valid exactly from five minutes before its issue until its expiry |
| HeimdalCreate.WrittenDocumentReads | internal/heimdal/metadata.go:74-77 | a valid document is read back from its text as it was |
| HeimdalCreate.CreatedDocumentDecodes | internal/heimdal/metadata.go:167-234 | a created document decodes, to its canonical host list, exactly within its validity window |
| HeimdalCreate.CreateIgnoresOrder | internal/heimdal/metadata.go:58-70 | hosts in another order or given twice make the same document, with the same set of hosts |
| HostNames.AtOrBelowIsLabelSuffix | internal/config/heimdal.go:77-87 | equal to a name or ending in a dot and it is the same as a suffix of labels |
| HostNames.RegistryHostGrammar | internal/proxy/proxy.go:246-263 | a registry host is exactly the labels registry, azurecr, io or registry, one region label, data, azurecr, io |
| HostNames.NormaliseTwice | internal/proxy/proxy.go:186-197 | the rewriting of hosts is idempotent exactly on names not ending in two dots |
| HostNames.ConnectTargetIdempotent | internal/proxy/proxy.go:177-198 | an accepted CONNECT target is its own rewriting |
| HostNames.PrivateHostIsTunnelled | internal/proxy/proxy.go:234-244 | every valid private host is accepted as it is written, is not forbidden and is tunnelled |
| Routing.DecisionExactly | internal/proxy/proxy.go:67-97 | for every request: which authorities are refused, that another port and a local name or address literal is not allowed, and that a host is tunnelled exactly when its labels are those of the registry or it is one of the private hosts, and is dialled directly otherwise |
| Routing.DNSNameGrammar | internal/proxy/proxy.go:213-232 | a host name is valid exactly when it reads as one character by character: 253 at most, 63 at most between dots, letters or digits around every dot, hyphens only inside |
| Routing.ControlPlaneIsNeverTunnelled | internal/config/profile.go:149-194 | a host at or below one of the nineteen control-plane names is never tunnelled, whatever the registry and the valid private hosts |
| Routing.RemoteNameExactly | internal/proxy/proxy.go:209-211 | a remote name is a valid name of two labels or more without capitals that is not local |
| Routing.PrivateHostsExactly | internal/config/profile.go:184-194 | lists are accepted exactly when every host is such a name and no listed name's labels end its own |
| HostNames.PublicControlPlaneHost | internal/config/profile.go:171-182 | cutting at the first dot finds exactly the names at or below a listed one |
| HostNames.ValidatePrivateHosts | internal/config/profile.go:184-194 | private hosts are accepted exactly when each is a valid remote name outside the public control plane |
| HostNames.AllowsRouteIsLabelSuffix | internal/config/heimdal.go:77-87 | a route is allowed exactly when the labels of an allowed suffix end its own |
| HostNames.WithPrivateHosts | internal/session/commands.go:201-222 | the lists are joined without repetition, and refused exactly when either holds an invalid host |
| PodmanArgs.PodmanBuildCommand | internal/podman/wrapper.go:124-160 | the scan finds a word exactly when the arguments are global options, at most one group word, global options and that build word |
| PodmanArgs.KindOfExactly | internal/podman/wrapper.go:126-157 | which words are a complete global option, take the next word, are a group word or the build word, by the names listed and their spellings |
| PodmanArgs.PodmanWrapperArgs | internal/podman/wrapper.go:113-122 | the arguments are unchanged exactly without a build command, and otherwise gain the default right behind it and are still a build command there |
| PodmanArgs.ExplicitChoiceDecides | internal/podman/wrapper.go:110-122 | for every reader in which the last setting takes effect, whether or not it takes options behind operands, the default is off and any choice of the user decides |
| Decimal.Text | internal/session/kubeconfig.go:292-292 | a written port reads as itself |
| Decimal.PortIsReadBack | internal/proxy/proxy.go:305-308 | a numeral is read as a port number exactly up to 65535 |
| Decimal.ZerosInFront | internal/proxy/proxy.go:305-308 | zeros in front change nothing about the number read |
| Decimal.AtoiReadsBack | internal/session/kubeconfig.go:382-385 | a numeral is read with or without one sign in front, and with any other character in front it is refused |
| Socks.RequestNamesTarget | internal/proxy/proxy.go:309-312 | the request decodes under section 4 of RFC 1928 to the host and port given |
| Socks.GreetingOffersNoAuthentication | internal/proxy/proxy.go:292-292 | the greeting is the one that section 3 of RFC 1928 reads as offering no authentication and nothing else |
| Socks.ReplyIsRecognised | internal/proxy/proxy.go:317-325 | every successful reply of section 6 of RFC 1928 is recognised with its exact length, whatever follows |
| Socks.RecognisedIsReply | internal/proxy/proxy.go:317-325 | nothing else is recognised |
| Socks.Connection.DiscardSOCKSAddress | internal/proxy/proxy.go:350-368 | exactly the address and the port are consumed |
| Socks.Connection.DialSOCKS | internal/proxy/proxy.go:292-333 | unless a write fails the handshake succeeds exactly on an accepted method and a successful reply, writes greeting and request, and leaves the first byte behind the reply to relay; a target that cannot be sent is never written |

## Left out

- The dialling behind a routing decision (address checks of a direct connection, the upstream HTTP proxy) and requests other than CONNECT.
- Subprocesses, sockets, HTTP servers and timeouts: each is an outcome of its step, chosen by the environment.
- Failed or torn writes of a live session record and failing lock calls: a registered session's writes succeed.
- Random tokens, identifiers and file names are assumed to be fresh; dialling a bound port is assumed not to be refused.
- JSON lexing, `net/url`, `net.ParseIP`, SHA-256 and RFC 3339 times are parameters; the assumptions made of them are the predicates `ReadsLoopback`, `ReadsBack`, `KeepsTimes` and `ProperLiterals`.
- Repeated member names in kubeconfig objects, and the case-insensitive matching of the `exec` members by encoding/json: objects have distinct names, matched exactly.
- Escapes in a JSON time string: the time parser is given the string.
- Which of several error messages a refused kubeconfig or metadata document gets: a refusal is one outcome.
- Strings are ASCII, so that a byte is a character.
- TerminationIsNeverLost: counts the steps of the signal goroutine, and does not say that the scheduler lets it take them.
- AcceptedLateIsTold: likewise counts steps of the main path.
- Heimdal.Decode: SHA-256 is any function to 32 bytes, so that nothing is said about altered documents whose digest stays the same.
- File modes, symbolic links, Windows variants and process groups other than the foreground test.
- The command line, prompts, tables, shell start-up files, browser selection and diagnostics: user interface.
- Requests to enable Podman while a shell runs are one outcome of the session's script; their interleaving with the close of the activations is that of the `Activation` class.
- Bounded buffers, retries, environment lists and release scripts: single loops with easier claims.
